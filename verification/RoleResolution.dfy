/**
 Role resolution (`crates/agent-run-config/src/role_plan.rs`): a profile and the shared MCP
 catalog become one plan. Skill directories and digests are looked up in the surroundings.
 */
module RoleResolution {
  import opened Common
  import opened Ordering
  import opened Roots
  import opened RolePlan

  /** One catalog declaration. */
  datatype Mcp = Mcp(
    transport: string,
    command: string,
    args: seq<string>,
    envFrom: seq<string>,
    approvalMode: string,
    isGlobal: bool,
    allowedTools: Option<seq<string>>)

  /** The catalog as an ordered map: its names in key order. */
  datatype Catalog = Catalog(names: seq<string>, defs: map<string, Mcp>) {
    ghost predicate Valid() {
      Sorted(TextLess, names) && forall n :: n in names <==> n in defs
    }
  }

  datatype Profile = Profile(
    name: string,
    body: string,
    write: bool,
    network: bool,
    revision: string,
    canonical: bool,
    allowExternal: bool,
    readRoots: seq<Path>,
    skills: seq<string>,
    mcp: seq<string>,
    mcpTools: map<string, seq<string>>,
    constraints: set<Constraint>)
  {
    predicate Research() { ResearchToolsOnly in constraints }
  }

  /** `skill` is the revision of the directory a skill is taken from, if there is one. */
  datatype Surroundings = Surroundings(
    skillsAbsolute: bool,
    skill: string -> Option<string>,
    digest: Value -> string,
    instructions: string)

  datatype Refusal =
    | ReservedName | NotCanonical | RelativeSkills | RootsForbidden | BadAuthMode | BadAuthReference | ResearchTooWide
    | BadSkill(name: string) | StrayFilter | BadFilter | BadServerId(name: string) | UnknownServer(name: string)

  // ----- Tool caps -----

  function Chosen(declared: seq<string>, filter: seq<string>): seq<string>
    decreases |declared|
  {
    if declared == [] then [] else
    (if declared[0] in filter then [declared[0]] else []) + Chosen(declared[1..], filter)
  }

  /** `effective_tools` */
  function EffectiveTools(declared: Option<seq<string>>, filter: Option<seq<string>>): Option<seq<string>> {
    match (declared, filter)
    case (None, None) => None
    case (Some(d), None) => Some(Collect(TextLess, d))
    case (None, Some(f)) => Some(Collect(TextLess, f))
    case (Some(d), Some(f)) => Some(Collect(TextLess, Chosen(d, f)))
  }

  /** `resolved_server` */
  function ResolvedServer(name: string, def: Mcp, filter: Option<seq<string>>, selection: Selection): Server {
    Server(name, def.transport, def.command, def.args, def.envFrom, def.approvalMode,
           EffectiveTools(def.allowedTools, filter), selection)
  }

  function FilterFor(profile: Profile, name: string): Option<seq<string>> {
    if name in profile.mcpTools then Some(profile.mcpTools[name]) else None
  }

  // ----- Specification -----

  /** `validate_research` */
  predicate ResearchAllowed(p: Profile) {
    p.Research() ==>
      && !p.write && p.network && !p.allowExternal && p.readRoots == []
      && (forall i :: 0 <= i < |p.mcp| ==> p.mcp[i] == SERVER_NAME)
      && (forall i :: 0 <= i < |p.skills| ==> p.skills[i] == "role-research")
  }

  /** What is checked before any list is resolved, in order. */
  function Preliminary(e: Surroundings, p: Profile, c: Catalog, mode: string,
                       reference: Option<string>): Option<Refusal>
  {
    if SERVER_NAME in c.defs || SERVER_NAME in p.mcp then Some(ReservedName)
    else if !p.canonical then Some(NotCanonical)
    else if !e.skillsAbsolute then Some(RelativeSkills)
    else if p.readRoots != [] && !p.allowExternal then Some(RootsForbidden)
    else if mode !in {"global", "account"} then Some(BadAuthMode)
    else if (mode == "account") != reference.Some? then Some(BadAuthReference)
    else if !ResearchAllowed(p) then Some(ResearchTooWide)
    else None
  }

  /** The first skill that cannot be resolved. */
  function SkillRefusal(e: Surroundings, names: seq<string>): Option<Refusal>
    decreases |names|
  {
    if names == [] then None
    else if !ConfigId(names[0]) || e.skill(names[0]).None? then Some(BadSkill(names[0]))
    else SkillRefusal(e, names[1..])
  }

  function FilterRefusal(p: Profile): Option<Refusal> {
    if exists n :: n in p.mcpTools && n !in p.mcp then Some(StrayFilter)
    else if exists n :: n in p.mcpTools && !AllowedToolsOk(p.mcpTools[n]) then Some(BadFilter)
    else None
  }

  /** The first profile server that cannot be resolved. */
  function ServerRefusal(c: Catalog, names: seq<string>): Option<Refusal>
    decreases |names|
  {
    if names == [] then None
    else if !ConfigId(names[0]) then Some(BadServerId(names[0]))
    else if names[0] !in c.defs then Some(UnknownServer(names[0]))
    else ServerRefusal(c, names[1..])
  }

  function Or(a: Option<Refusal>, b: Option<Refusal>): Option<Refusal> {
    if a.Some? then a else b
  }

  /** Why resolution refuses, if it does. */
  function Refused(e: Surroundings, p: Profile, c: Catalog, mode: string, reference: Option<string>): Option<Refusal> {
    Or(Preliminary(e, p, c, mode, reference),
      Or(SkillRefusal(e, p.skills), Or(FilterRefusal(p), ServerRefusal(c, p.mcp))))
  }

  ghost predicate Declared(p: Profile, c: Catalog) {
    forall i :: 0 <= i < |p.mcp| ==> p.mcp[i] in c.defs
  }

  predicate First(xs: seq<string>, i: nat)
    requires i < |xs|
  {
    forall j :: 0 <= j < i ==> xs[j] != xs[i]
  }

  /** The selection of the profile's `i`-th server once `k` catalog entries were visited. */
  ghost function NamedSelection(p: Profile, c: Catalog, k: nat, i: nat): Selection
    requires k <= |c.names| && i < |p.mcp| && p.mcp[i] in c.defs
  {
    if p.mcp[i] in c.names[..k] && c.defs[p.mcp[i]].isGlobal && First(p.mcp, i) then Both else Selection.Profile
  }

  /** The profile's servers, in the profile's order. */
  ghost function Named(p: Profile, c: Catalog, k: nat): (r: seq<Server>)
    requires k <= |c.names| && Declared(p, c)
    ensures |r| == |p.mcp|
    ensures forall i :: 0 <= i < |r| ==>
      r[i] == ResolvedServer(p.mcp[i], c.defs[p.mcp[i]], FilterFor(p, p.mcp[i]), NamedSelection(p, c, k, i))
  {
    seq(|p.mcp|, i requires 0 <= i < |p.mcp| =>
      ResolvedServer(p.mcp[i], c.defs[p.mcp[i]], FilterFor(p, p.mcp[i]), NamedSelection(p, c, k, i)))
  }

  predicate Joins(p: Profile, c: Catalog, name: string)
    requires name in c.defs
  {
    c.defs[name].isGlobal && name !in p.mcp
  }

  /** The names of the global servers the profile does not name, in catalog order. */
  ghost function JoinedNames(p: Profile, c: Catalog, k: nat): seq<string>
    requires c.Valid() && k <= |c.names|
  {
    if k == 0 then [] else JoinedNames(p, c, k - 1) + (if Joins(p, c, c.names[k - 1]) then [c.names[k - 1]] else [])
  }

  ghost function JoinedServers(p: Profile, c: Catalog, names: seq<string>): (r: seq<Server>)
    requires forall i :: 0 <= i < |names| ==> names[i] in c.defs
    ensures |r| == |names|
    ensures forall i :: 0 <= i < |r| ==>
      r[i] == ResolvedServer(names[i], c.defs[names[i]], FilterFor(p, names[i]), Global)
  {
    seq(|names|, i requires 0 <= i < |names| =>
      ResolvedServer(names[i], c.defs[names[i]], FilterFor(p, names[i]), Global))
  }

  lemma InPrefix(names: seq<string>, k: nat, n: string)
    requires 0 < k <= |names|
    ensures n in names[..k] <==> n in names[..k - 1] || n == names[k - 1]
  {
    assert names[..k] == names[..k - 1] + [names[k - 1]];
  }

  lemma InConcat<T>(a: seq<T>, b: seq<T>, x: T)
    ensures x in a + b <==> x in a || x in b
  {
  }

  lemma {:induction false} JoinedNameIs(p: Profile, c: Catalog, k: nat, n: string)
    requires c.Valid() && k <= |c.names|
    ensures n in JoinedNames(p, c, k) <==> n in c.names[..k] && n in c.defs && Joins(p, c, n)
    decreases k
  {
    if k > 0 {
      JoinedNameIs(p, c, k - 1, n);
      InPrefix(c.names, k, n);
      InConcat(JoinedNames(p, c, k - 1), if Joins(p, c, c.names[k - 1]) then [c.names[k - 1]] else [], n);
    }
  }

  lemma JoinedNamesAre(p: Profile, c: Catalog, k: nat)
    requires c.Valid() && k <= |c.names|
    ensures forall n :: n in JoinedNames(p, c, k) <==> n in c.names[..k] && n in c.defs && Joins(p, c, n)
    ensures forall i :: 0 <= i < |JoinedNames(p, c, k)| ==> JoinedNames(p, c, k)[i] in c.defs
  {
    forall n ensures n in JoinedNames(p, c, k) <==> n in c.names[..k] && n in c.defs && Joins(p, c, n) {
      JoinedNameIs(p, c, k, n);
    }
  }

  /** The servers once `k` catalog entries were visited. */
  ghost function ServersAt(p: Profile, c: Catalog, k: nat): seq<Server>
    requires c.Valid() && k <= |c.names| && Declared(p, c)
  {
    JoinedNamesAre(p, c, k);
    Named(p, c, k) + JoinedServers(p, c, JoinedNames(p, c, k))
  }

  /** Every profile server in profile order, then every other global one in catalog order. */
  ghost function Servers(p: Profile, c: Catalog): seq<Server>
    requires c.Valid() && Declared(p, c)
  {
    ServersAt(p, c, if p.Research() then 0 else |c.names|)
  }

  ghost function Skills(e: Surroundings, names: seq<string>): (r: seq<Skill>)
    requires forall i :: 0 <= i < |names| ==> e.skill(names[i]).Some?
    ensures |r| == |names| && forall i :: 0 <= i < |r| ==> r[i] == Skill(names[i], e.skill(names[i]).value)
  {
    seq(|names|, i requires 0 <= i < |names| => Skill(names[i], e.skill(names[i]).value))
  }

  /** The plan before its own revision is known. */
  function Unrevised(e: Surroundings, p: Profile, skills: seq<Skill>, servers: seq<Server>, mode: string,
                     reference: Option<string>): Plan
  {
    Plan(p.name, p.revision, e.instructions + "\n\n" + p.body,
         p.write, p.network, p.allowExternal, NormalizeRoots(p.readRoots),
         skills, servers, true, p.constraints, mode, reference, "")
  }

  /** `config_revision` hashes everything else. */
  function Revised(e: Surroundings, plan: Plan): Plan {
    plan.(configRevision := e.digest(Obj(CanonicalMembers(plan))))
  }

  // ----- Resolution -----

  lemma {:induction false} NoSkillRefusal(e: Surroundings, names: seq<string>)
    ensures SkillRefusal(e, names).None? <==>
      forall i :: 0 <= i < |names| ==> ConfigId(names[i]) && e.skill(names[i]).Some?
    decreases |names|
  {
    if names != [] {
      NoSkillRefusal(e, names[1..]);
      assert names == [names[0]] + names[1..];
    }
  }

  lemma {:induction false} NoServerRefusal(c: Catalog, names: seq<string>)
    ensures ServerRefusal(c, names).None? <==> forall i :: 0 <= i < |names| ==> ConfigId(names[i]) && names[i] in c.defs
    decreases |names|
  {
    if names != [] {
      NoServerRefusal(c, names[1..]);
      assert names == [names[0]] + names[1..];
    }
  }

  method ResolveSkills(e: Surroundings, names: seq<string>) returns (r: Result<seq<Skill>, Refusal>)
    ensures r.Err? ==> SkillRefusal(e, names) == Some(r.error)
    ensures r.Ok? ==> SkillRefusal(e, names).None?
    ensures r.Ok? ==> (forall i :: 0 <= i < |names| ==> e.skill(names[i]).Some?) && r.value == Skills(e, names)
  {
    var skills := [];
    for i := 0 to |names|
      invariant SkillRefusal(e, names) == SkillRefusal(e, names[i..])
      invariant |skills| == i
      invariant forall j :: 0 <= j < i ==>
        e.skill(names[j]).Some? && skills[j] == Skill(names[j], e.skill(names[j]).value)
    {
      assert names[i..][1..] == names[i + 1..];
      if !ConfigId(names[i]) {
        return Err(BadSkill(names[i]));
      }
      var revision := e.skill(names[i]);
      if revision.None? {
        return Err(BadSkill(names[i]));
      }
      skills := skills + [Skill(names[i], revision.value)];
    }
    assert skills == Skills(e, names);
    return Ok(skills);
  }

  method ResolveNamed(p: Profile, c: Catalog) returns (r: Result<seq<Server>, Refusal>)
    ensures r.Err? ==> ServerRefusal(c, p.mcp) == Some(r.error)
    ensures r.Ok? ==> ServerRefusal(c, p.mcp).None? && Declared(p, c) && r.value == Named(p, c, 0)
  {
    var servers := [];
    for i := 0 to |p.mcp|
      invariant ServerRefusal(c, p.mcp) == ServerRefusal(c, p.mcp[i..])
      invariant |servers| == i
      invariant forall j :: 0 <= j < i ==>
        && p.mcp[j] in c.defs
        && servers[j] == ResolvedServer(p.mcp[j], c.defs[p.mcp[j]], FilterFor(p, p.mcp[j]), Selection.Profile)
    {
      assert p.mcp[i..][1..] == p.mcp[i + 1..];
      var name := p.mcp[i];
      if !ConfigId(name) {
        return Err(BadServerId(name));
      }
      if name !in c.defs {
        return Err(UnknownServer(name));
      }
      servers := servers + [ResolvedServer(name, c.defs[name], FilterFor(p, name), Selection.Profile)];
    }
    assert servers == Named(p, c, 0);
    return Ok(servers);
  }

  /** The first server with an id. */
  method FindServer(servers: seq<Server>, id: string) returns (at: Option<nat>)
    ensures at.None? <==> forall i :: 0 <= i < |servers| ==> servers[i].id != id
    ensures at.Some? ==> at.value < |servers| && servers[at.value].id == id
    ensures at.Some? ==> forall i :: 0 <= i < at.value ==> servers[i].id != id
  {
    for i := 0 to |servers|
      invariant forall j :: 0 <= j < i ==> servers[j].id != id
    {
      if servers[i].id == id {
        return Some(i);
      }
    }
    return None;
  }

  /** The global entries join: one already named is marked in place, another is appended. */
  method JoinGlobals(p: Profile, c: Catalog, named: seq<Server>) returns (servers: seq<Server>)
    requires c.Valid() && Declared(p, c) && named == Named(p, c, 0)
    ensures servers == Servers(p, c)
  {
    servers := named;
    AtStart(p, c);
    for k := 0 to |c.names|
      invariant servers == ServersAt(p, c, if p.Research() then 0 else k)
    {
      var name := c.names[k];
      assert name in c.defs;
      if !c.defs[name].isGlobal || p.Research() {
        if !p.Research() {
          LocalChangesNothing(p, c, k);
        }
        continue;
      }
      var at := FindServer(servers, name);
      if at.Some? {
        FoundInProfile(p, c, k, at.value);
        FoundIsMarked(p, c, k, at.value, servers);
        servers := servers[at.value := servers[at.value].(selection := Both)];
      } else {
        MissingIsUnnamed(p, c, k);
        MissingJoins(p, c, k);
        servers := servers + [ResolvedServer(name, c.defs[name], FilterFor(p, name), Global)];
      }
    }
  }

  lemma AtStart(p: Profile, c: Catalog)
    requires c.Valid() && Declared(p, c)
    ensures ServersAt(p, c, 0) == Named(p, c, 0)
  {
  }

  lemma NamesDiffer(c: Catalog, k: nat)
    requires c.Valid() && k < |c.names|
    ensures c.names[k] !in c.names[..k]
  {
    TextLessIsStrict();
  }

  lemma LocalChangesNothing(p: Profile, c: Catalog, k: nat)
    requires c.Valid() && Declared(p, c) && k < |c.names| && !c.defs[c.names[k]].isGlobal
    ensures ServersAt(p, c, k + 1) == ServersAt(p, c, k)
  {
    UnnamedChangesNothing(p, c, k);
    assert JoinedNames(p, c, k + 1) == JoinedNames(p, c, k);
  }

  /** A found entry is the first profile server of that name. */
  lemma FoundInProfile(p: Profile, c: Catalog, k: nat, at: nat)
    requires c.Valid() && Declared(p, c) && k < |c.names|
    requires at < |ServersAt(p, c, k)| && ServersAt(p, c, k)[at].id == c.names[k]
    requires forall i :: 0 <= i < at ==> ServersAt(p, c, k)[i].id != c.names[k]
    ensures at < |p.mcp| && p.mcp[at] == c.names[k] && First(p.mcp, at)
  {
    var joined := JoinedNames(p, c, k);
    JoinedNamesAre(p, c, k);
    NamesDiffer(c, k);
    if at >= |p.mcp| {
      assert false;
    }
    forall i | 0 <= i < at ensures p.mcp[i] != c.names[k] {
      assert ServersAt(p, c, k)[i] == Named(p, c, k)[i];
    }
  }

  lemma MarksFirst(p: Profile, c: Catalog, k: nat, at: nat)
    requires c.Valid() && Declared(p, c) && k < |c.names| && c.defs[c.names[k]].isGlobal
    requires at < |p.mcp| && p.mcp[at] == c.names[k] && First(p.mcp, at)
    ensures Named(p, c, k + 1) == Named(p, c, k)[at := Named(p, c, k)[at].(selection := Both)]
  {
    assert c.names[..k + 1] == c.names[..k] + [c.names[k]];
    assert NamedSelection(p, c, k + 1, at) == Both;
    forall i | 0 <= i < |p.mcp| && i != at ensures NamedSelection(p, c, k + 1, i) == NamedSelection(p, c, k, i) {
    }
  }

  lemma UpdateLeft<T>(a: seq<T>, b: seq<T>, i: nat, x: T)
    requires i < |a|
    ensures (a + b)[i := x] == a[i := x] + b
  {
  }

  lemma NamedDoesNotJoin(p: Profile, c: Catalog, k: nat, at: nat)
    requires c.Valid() && k < |c.names| && at < |p.mcp| && p.mcp[at] == c.names[k]
    ensures JoinedNames(p, c, k + 1) == JoinedNames(p, c, k)
    ensures forall i :: 0 <= i < |JoinedNames(p, c, k)| ==> JoinedNames(p, c, k)[i] in c.defs
  {
    JoinedNamesAre(p, c, k);
  }

  lemma FoundIsMarked(p: Profile, c: Catalog, k: nat, at: nat, servers: seq<Server>)
    requires c.Valid() && Declared(p, c) && k < |c.names| && c.defs[c.names[k]].isGlobal
    requires at < |p.mcp| && p.mcp[at] == c.names[k] && First(p.mcp, at)
    requires servers == ServersAt(p, c, k)
    ensures ServersAt(p, c, k + 1) == servers[at := servers[at].(selection := Both)]
  {
    MarksFirst(p, c, k, at);
    NamedDoesNotJoin(p, c, k, at);
    var named, joined := Named(p, c, k), JoinedServers(p, c, JoinedNames(p, c, k));
    UpdateLeft(named, joined, at, named[at].(selection := Both));
  }

  lemma MissingIsUnnamed(p: Profile, c: Catalog, k: nat)
    requires c.Valid() && Declared(p, c) && k < |c.names|
    requires forall i :: 0 <= i < |ServersAt(p, c, k)| ==> ServersAt(p, c, k)[i].id != c.names[k]
    ensures c.names[k] !in p.mcp
  {
    forall i | 0 <= i < |p.mcp| ensures p.mcp[i] != c.names[k] {
      assert ServersAt(p, c, k)[i] == Named(p, c, k)[i];
    }
  }

  /** A catalog entry the profile does not name leaves the profile's servers as they are. */
  lemma UnnamedChangesNothing(p: Profile, c: Catalog, k: nat)
    requires Declared(p, c) && k < |c.names| && c.names[k] in c.defs
    requires c.names[k] !in p.mcp || !c.defs[c.names[k]].isGlobal
    ensures Named(p, c, k + 1) == Named(p, c, k)
  {
  }

  lemma JoinedExtends(p: Profile, c: Catalog, names: seq<string>, name: string)
    requires (forall i :: 0 <= i < |names| ==> names[i] in c.defs) && name in c.defs
    ensures JoinedServers(p, c, names + [name])
         == JoinedServers(p, c, names) + [ResolvedServer(name, c.defs[name], FilterFor(p, name), Global)]
  {
  }

  lemma MissingJoins(p: Profile, c: Catalog, k: nat)
    requires c.Valid() && Declared(p, c) && k < |c.names| && c.defs[c.names[k]].isGlobal && c.names[k] !in p.mcp
    ensures ServersAt(p, c, k + 1)
         == ServersAt(p, c, k) + [ResolvedServer(c.names[k], c.defs[c.names[k]], FilterFor(p, c.names[k]), Global)]
  {
    var name := c.names[k];
    UnnamedChangesNothing(p, c, k);
    JoinedNamesAre(p, c, k);
    JoinedExtends(p, c, JoinedNames(p, c, k), name);
    ConcatAssoc(Named(p, c, k), JoinedServers(p, c, JoinedNames(p, c, k)),
                [ResolvedServer(name, c.defs[name], FilterFor(p, name), Global)]);
  }

  /** `resolve_role_plan_with_sources` */
  method ResolveRolePlan(e: Surroundings, p: Profile, c: Catalog, mode: string, reference: Option<string>)
    returns (r: Result<Plan, Refusal>)
    requires c.Valid()
    ensures r.Err? ==> Refused(e, p, c, mode, reference) == Some(r.error)
    ensures r.Ok? ==> Refused(e, p, c, mode, reference).None? && Resolved(e, p, c, mode, reference, r.value)
    ensures r.Ok? ==> r.value.write == p.write && r.value.network == p.network
    ensures r.Ok? ==> r.value.allowExternal == p.allowExternal
    ensures r.Ok? ==> r.value.roleName == p.name && r.value.roleRevision == p.revision
    ensures r.Ok? ==> r.value.constraints == p.constraints
    ensures r.Ok? ==> r.value.workerMcp && r.value.authMode == mode && r.value.authReference == reference
  {
    var early := Preliminary(e, p, c, mode, reference);
    if early.Some? {
      return Err(early.value);
    }
    var skills := ResolveSkills(e, p.skills);
    if skills.Err? {
      return Err(skills.error);
    }
    var filters := FilterRefusal(p);
    if filters.Some? {
      return Err(filters.value);
    }
    var named := ResolveNamed(p, c);
    if named.Err? {
      return Err(named.error);
    }
    var servers := JoinGlobals(p, c, named.value);
    var plan := Unrevised(e, p, skills.value, servers, mode, reference);
    return Ok(Revised(e, plan));
  }

  /** What a resolved plan is. */
  ghost predicate Resolved(e: Surroundings, p: Profile, c: Catalog, mode: string, reference: Option<string>,
                           plan: Plan)
  {
    && c.Valid() && Declared(p, c) && (forall i :: 0 <= i < |p.skills| ==> e.skill(p.skills[i]).Some?)
    && plan == Revised(e, Unrevised(e, p, Skills(e, p.skills), Servers(p, c), mode, reference))
  }
}
