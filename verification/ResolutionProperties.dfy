/** What a resolved role plan lists, and when it can be read back from its own payload. */
module ResolutionProperties {
  import opened Common
  import opened Ordering
  import opened Roots
  import opened RolePlan
  import opened RolePlanRoundTrip
  import opened RoleResolution

  // ----- Tool caps -----

  /** No cap permits everything. */
  predicate Permits(cap: Option<seq<string>>, tool: string) {
    cap.None? || tool in cap.value
  }

  lemma {:induction false} ChosenAre(declared: seq<string>, filter: seq<string>)
    ensures forall t :: t in Chosen(declared, filter) <==> t in declared && t in filter
    ensures |Chosen(declared, filter)| <= |declared|
    decreases |declared|
  {
    if declared != [] {
      ChosenAre(declared[1..], filter);
      assert declared == [declared[0]] + declared[1..];
    }
  }

  /** The effective cap is the intersection of both caps, strictly sorted, and absent only when both are. */
  lemma EffectiveToolsIntersect(declared: Option<seq<string>>, filter: Option<seq<string>>)
    ensures EffectiveTools(declared, filter).None? <==> declared.None? && filter.None?
    ensures forall t :: Permits(EffectiveTools(declared, filter), t) <==> Permits(declared, t) && Permits(filter, t)
    ensures EffectiveTools(declared, filter).Some? ==> Sorted(TextLess, EffectiveTools(declared, filter).value)
  {
    TextLessIsStrict();
    if declared.Some? {
      CollectIsSortedSet(TextLess, declared.value);
      if filter.Some? {
        ChosenAre(declared.value, filter.value);
        CollectIsSortedSet(TextLess, Chosen(declared.value, filter.value));
      }
    } else if filter.Some? {
      CollectIsSortedSet(TextLess, filter.value);
    }
  }

  // ----- Which servers -----

  ghost predicate GlobalIn(c: Catalog, name: string) {
    name in c.defs && c.defs[name].isGlobal
  }

  ghost function Rest(p: Profile, c: Catalog): seq<string>
    requires c.Valid()
  {
    JoinedNames(p, c, if p.Research() then 0 else |c.names|)
  }

  lemma SortedAppend<T>(less: (T, T) -> bool, s: seq<T>, x: T)
    requires Sorted(less, s) && forall i :: 0 <= i < |s| ==> less(s[i], x)
    ensures Sorted(less, s + [x])
  {
  }

  lemma SortedPrefix<T>(less: (T, T) -> bool, s: seq<T>, k: nat, x: T)
    requires Sorted(less, s) && k < |s| && x in s[..k]
    ensures less(x, s[k])
  {
  }

  lemma JoinedBefore(p: Profile, c: Catalog, k: nat, x: string)
    requires c.Valid() && k < |c.names| && x in JoinedNames(p, c, k)
    ensures TextLess(x, c.names[k])
  {
    JoinedNameIs(p, c, k, x);
    SortedPrefix(TextLess, c.names, k, x);
  }

  lemma AllBefore(p: Profile, c: Catalog, k: nat)
    requires c.Valid() && k < |c.names|
    ensures forall i :: 0 <= i < |JoinedNames(p, c, k)| ==> TextLess(JoinedNames(p, c, k)[i], c.names[k])
  {
    var before := JoinedNames(p, c, k);
    forall i | 0 <= i < |before| ensures TextLess(before[i], c.names[k]) {
      JoinedBefore(p, c, k, before[i]);
    }
  }

  lemma {:induction false} JoinedNamesSorted(p: Profile, c: Catalog, k: nat)
    requires c.Valid() && k <= |c.names|
    ensures Sorted(TextLess, JoinedNames(p, c, k))
    decreases k
  {
    if k > 0 {
      JoinedNamesSorted(p, c, k - 1);
      if Joins(p, c, c.names[k - 1]) {
        AllBefore(p, c, k - 1);
        SortedAppend(TextLess, JoinedNames(p, c, k - 1), c.names[k - 1]);
      }
    }
  }

  lemma RestIs(p: Profile, c: Catalog, n: string)
    requires c.Valid()
    ensures n in Rest(p, c) <==> !p.Research() && GlobalIn(c, n) && n !in p.mcp
    ensures Sorted(TextLess, Rest(p, c))
  {
    var k := if p.Research() then 0 else |c.names|;
    JoinedNamesAre(p, c, k);
    JoinedNamesSorted(p, c, k);
    assert c.names[..|c.names|] == c.names;
  }

  lemma NamedIds(p: Profile, c: Catalog, k: nat)
    requires k <= |c.names| && Declared(p, c)
    ensures ServerIds(Named(p, c, k)) == p.mcp
  {
  }

  lemma JoinedIds(p: Profile, c: Catalog, names: seq<string>)
    requires forall i :: 0 <= i < |names| ==> names[i] in c.defs
    ensures ServerIds(JoinedServers(p, c, names)) == names
  {
  }

  lemma ConcatIds(a: seq<Server>, b: seq<Server>)
    ensures ServerIds(a + b) == ServerIds(a) + ServerIds(b)
  {
  }

  /** The ids are the profile's list followed by the remaining global names in catalog order. */
  lemma ServerIdsAre(p: Profile, c: Catalog)
    requires c.Valid() && Declared(p, c)
    ensures ServerIds(Servers(p, c)) == p.mcp + Rest(p, c)
  {
    var k := if p.Research() then 0 else |c.names|;
    JoinedNamesAre(p, c, k);
    NamedIds(p, c, k);
    JoinedIds(p, c, Rest(p, c));
    ConcatIds(Named(p, c, k), JoinedServers(p, c, Rest(p, c)));
  }

  /**
   Outside research every profile-named or global server is listed, no other one is, and
   each is listed once exactly when the profile names none twice.
   */
  lemma EachServerOnce(p: Profile, c: Catalog)
    requires c.Valid() && Declared(p, c)
    ensures forall n :: n in ServerIds(Servers(p, c)) <==> n in p.mcp || (GlobalIn(c, n) && !p.Research())
    ensures Unique(ServerIds(Servers(p, c))) <==> Unique(p.mcp)
  {
    var ids, rest := ServerIds(Servers(p, c)), Rest(p, c);
    ServerIdsAre(p, c);
    forall n ensures n in rest <==> !p.Research() && GlobalIn(c, n) && n !in p.mcp {
      RestIs(p, c, n);
    }
    RestIs(p, c, "");
    JoinedListIsUnique(p.mcp, rest);
  }

  lemma JoinedListIsUnique(a: seq<string>, b: seq<string>)
    requires Sorted(TextLess, b) && forall n :: n in b ==> n !in a
    ensures Unique(a + b) <==> Unique(a)
  {
    TextLessIsStrict();
    if Unique(a + b) {
      forall i, j | 0 <= i < j < |a| ensures a[i] != a[j] {
        assert (a + b)[i] == a[i] && (a + b)[j] == a[j];
      }
    }
    if Unique(a) {
      forall i, j | 0 <= i < j < |a + b| ensures (a + b)[i] != (a + b)[j] {
        if |a| <= i {
          assert TextLess(b[i - |a|], b[j - |a|]);
        } else if |a| <= j {
          assert b[j - |a|] in b;
        }
      }
    }
  }

  /** A server is its catalog declaration, permitting the tools that both caps permit. */
  ghost predicate FollowsDeclaration(p: Profile, c: Catalog, s: Server) {
    && s.id in c.defs
    && var d := c.defs[s.id];
       && s.transport == d.transport && s.command == d.command && s.args == d.args
       && s.envFrom == d.envFrom && s.approvalMode == d.approvalMode
       && (s.allowedTools.None? <==> d.allowedTools.None? && s.id !in p.mcpTools)
       && (s.allowedTools.Some? ==> Sorted(TextLess, s.allowedTools.value))
       && (forall t :: Permits(s.allowedTools, t) <==>
             Permits(d.allowedTools, t) && (s.id in p.mcpTools ==> t in p.mcpTools[s.id]))
  }

  /** The tag tells where a server comes from. */
  ghost predicate TrueOrigin(p: Profile, c: Catalog, s: Server) {
    && (s.selection == Selection.Profile <==> s.id in p.mcp && (p.Research() || !GlobalIn(c, s.id)))
    && (s.selection == Both <==> s.id in p.mcp && GlobalIn(c, s.id) && !p.Research())
    && (s.selection == Global <==> s.id !in p.mcp)
  }

  lemma NamedOrigin(p: Profile, c: Catalog, i: nat)
    requires c.Valid() && Declared(p, c) && Unique(p.mcp) && i < |p.mcp|
    ensures TrueOrigin(p, c, Named(p, c, if p.Research() then 0 else |c.names|)[i])
  {
  }

  lemma JoinedOrigin(p: Profile, c: Catalog, names: seq<string>, i: nat)
    requires (forall j :: 0 <= j < |names| ==> names[j] in c.defs) && i < |names| && names[i] !in p.mcp
    ensures TrueOrigin(p, c, JoinedServers(p, c, names)[i])
  {
  }

  lemma RestIsDeclared(p: Profile, c: Catalog)
    requires c.Valid()
    ensures forall j :: 0 <= j < |Rest(p, c)| ==> Rest(p, c)[j] in c.defs && Rest(p, c)[j] !in p.mcp
  {
    JoinedNamesAre(p, c, if p.Research() then 0 else |c.names|);
  }

  /** A listed server is one of the profile's or one of the joining ones. */
  lemma ServerIsListed(p: Profile, c: Catalog, i: nat)
    requires c.Valid() && Declared(p, c) && i < |Servers(p, c)|
    ensures var k := if p.Research() then 0 else |c.names|;
      && (forall j :: 0 <= j < |Rest(p, c)| ==> Rest(p, c)[j] in c.defs && Rest(p, c)[j] !in p.mcp)
      && Servers(p, c)[i] == if i < |p.mcp| then Named(p, c, k)[i] else JoinedServers(p, c, Rest(p, c))[i - |p.mcp|]
  {
    RestIsDeclared(p, c);
    var k := if p.Research() then 0 else |c.names|;
    assert Servers(p, c) == Named(p, c, k) + JoinedServers(p, c, Rest(p, c));
  }

  lemma ServerIsResolved(p: Profile, c: Catalog, i: nat)
    requires c.Valid() && Declared(p, c) && i < |Servers(p, c)|
    ensures var s := Servers(p, c)[i];
      s.id in c.defs && s == ResolvedServer(s.id, c.defs[s.id], FilterFor(p, s.id), s.selection)
  {
    ServerIsListed(p, c, i);
  }

  /** Every server of a resolved plan has the fields its declaration gives it and the intersection of both caps. */
  lemma ServersFollowDeclarations(p: Profile, c: Catalog, i: nat)
    requires c.Valid() && Declared(p, c) && i < |Servers(p, c)|
    ensures FollowsDeclaration(p, c, Servers(p, c)[i])
  {
    ServerIsResolved(p, c, i);
    var s := Servers(p, c)[i];
    EffectiveToolsIntersect(c.defs[s.id].allowedTools, FilterFor(p, s.id));
  }

  lemma SelectionTellsOrigin(p: Profile, c: Catalog, i: nat)
    requires c.Valid() && Declared(p, c) && Unique(p.mcp) && i < |Servers(p, c)|
    ensures TrueOrigin(p, c, Servers(p, c)[i])
  {
    ServerIsListed(p, c, i);
    if i < |p.mcp| {
      NamedOrigin(p, c, i);
    } else {
      JoinedOrigin(p, c, Rest(p, c), i - |p.mcp|);
    }
  }

  /** A research role that resolves has no user server at all. */
  lemma ResearchHasNoServers(e: Surroundings, p: Profile, c: Catalog, mode: string, reference: Option<string>)
    requires c.Valid() && p.Research() && Refused(e, p, c, mode, reference).None?
    ensures Declared(p, c) && Servers(p, c) == []
  {
    NoServerRefusal(c, p.mcp);
    assert p.mcp == [];
  }

  // ----- Reading a resolved plan back -----

  /** What loading the configuration checks about every declaration. */
  ghost predicate LoadedCatalog(c: Catalog) {
    c.Valid() && forall n :: n in c.defs ==> ConfigId(n) && LoadedMcp(c.defs[n])
  }

  ghost predicate LoadedMcp(d: Mcp) {
    && d.transport == "stdio" && ApprovalModeOk(d.approvalMode) && StringsOk(d.args, false)
    && Unique(d.envFrom) && (forall i :: 0 <= i < |d.envFrom| ==> EnvName(d.envFrom[i]))
    && (d.allowedTools.Some? ==> AllowedToolsOk(d.allowedTools.value))
  }

  /** What loading a profile for a provider start checks; it does not check that skills are named once. */
  ghost predicate LoadedProfile(w: World, p: Profile) {
    && ConfigId(p.name) && TextOk(p.revision, false) && TextOk(p.body, false) && Unique(p.mcp)
    && forall i :: 0 <= i < |p.readRoots| ==>
         w.resolve(ShowPath(p.readRoots[i])) == Some(p.readRoots[i]) && NoNul(ShowPath(p.readRoots[i]))
  }

  /** Digests are lower-case hexadecimal, and the reader computes them as the resolver does. */
  ghost predicate Hashing(e: Surroundings, w: World) {
    && e.digest == w.digest && (forall v :: Sha256Hex(e.digest(v)))
    && (forall s :: e.skill(s).Some? ==> Sha256Hex(e.skill(s).value))
    && NoNul(e.instructions)
  }

  lemma {:induction false} CollectShrinks(xs: seq<string>)
    ensures |Collect(TextLess, xs)| <= |xs|
    decreases |xs|
  {
    if xs != [] {
      CollectShrinks(xs[..|xs| - 1]);
      InsertGrowsByOne(Collect(TextLess, xs[..|xs| - 1]), xs[|xs| - 1]);
    }
  }

  lemma {:induction false} InsertGrowsByOne(s: seq<string>, x: string)
    ensures |Insert(TextLess, s, x)| <= |s| + 1
    decreases |s|
  {
    if s != [] {
      InsertGrowsByOne(s[1..], x);
    }
  }

  lemma CollectedToolsOk(xs: seq<string>)
    requires |xs| <= MAX_ALLOWED_TOOLS && forall i :: 0 <= i < |xs| ==> ToolName(xs[i])
    ensures Increasing(Collect(TextLess, xs)) && AllowedToolsOk(Collect(TextLess, xs))
  {
    var r := Collect(TextLess, xs);
    TextLessIsStrict();
    CollectIsSortedSet(TextLess, xs);
    CollectShrinks(xs);
    forall i | 0 <= i < |r| ensures ToolName(r[i]) {
      assert r[i] in r;
    }
  }

  lemma ChosenToolsOk(declared: seq<string>, filter: seq<string>)
    requires AllowedToolsOk(declared)
    ensures |Chosen(declared, filter)| <= MAX_ALLOWED_TOOLS
    ensures forall i :: 0 <= i < |Chosen(declared, filter)| ==> ToolName(Chosen(declared, filter)[i])
  {
    var r := Chosen(declared, filter);
    ChosenAre(declared, filter);
    forall i | 0 <= i < |r| ensures ToolName(r[i]) {
      assert r[i] in r;
    }
  }

  lemma EffectiveToolsOk(declared: Option<seq<string>>, filter: Option<seq<string>>)
    requires declared.Some? ==> AllowedToolsOk(declared.value)
    requires filter.Some? ==> AllowedToolsOk(filter.value)
    ensures var cap := EffectiveTools(declared, filter);
      cap.Some? ==> Increasing(cap.value) && AllowedToolsOk(cap.value)
  {
    if declared.Some? {
      if filter.Some? {
        ChosenToolsOk(declared.value, filter.value);
        CollectedToolsOk(Chosen(declared.value, filter.value));
      } else {
        CollectedToolsOk(declared.value);
      }
    } else if filter.Some? {
      CollectedToolsOk(filter.value);
    }
  }

  predicate CommandOk(s: Server) {
    CanonicalCommand(s.command) && NoNul(s.command)
  }

  lemma ResolvedServerOk(p: Profile, c: Catalog, i: nat)
    requires LoadedCatalog(c) && Declared(p, c) && Unique(p.mcp) && FilterRefusal(p).None? && i < |Servers(p, c)|
    ensures ServerOk(Servers(p, c)[i]) <==> CommandOk(Servers(p, c)[i])
  {
    var s := Servers(p, c)[i];
    ServerIsResolved(p, c, i);
    assert LoadedMcp(c.defs[s.id]);
    EffectiveToolsOk(c.defs[s.id].allowedTools, FilterFor(p, s.id));
  }

  lemma NormalizedRootsOk(w: World, p: Profile)
    requires LoadedProfile(w, p)
    ensures RootsOk(w, NormalizeRoots(p.readRoots))
    ensures NormalizeRoots(p.readRoots) != [] ==> p.readRoots != []
  {
    var roots := NormalizeRoots(p.readRoots);
    NormalizedIsMinimalAntichain(p.readRoots);
    NormalizedIsIdempotent(p.readRoots);
    forall i | 0 <= i < |roots| ensures w.resolve(ShowPath(roots[i])) == Some(roots[i]) && NoNul(ShowPath(roots[i])) {
      assert roots[i] in roots;
    }
  }

  lemma PromptIsText(instructions: string, body: string)
    requires NoNul(instructions) && TextOk(body, false)
    ensures TextOk(instructions + "\n\n" + body, false)
  {
    var prompt := instructions + "\n\n" + body;
    var i :| 0 <= i < |body| && !White(body[i]);
    assert prompt[|instructions| + 2 + i] == body[i];
  }

  /** What a caller can look at to tell whether a resolved plan will be read back. */
  ghost predicate ReadableInputs(p: Profile, c: Catalog, reference: Option<string>)
    requires c.Valid() && Declared(p, c)
  {
    && Unique(p.skills)
    && (forall i :: 0 <= i < |Servers(p, c)| ==> CommandOk(Servers(p, c)[i]))
    && (reference.Some? ==> Account(reference.value))
  }

  /** The parts of a resolved plan that are well-formed whatever the inputs. */
  lemma ResolvedTexts(w: World, e: Surroundings, p: Profile, c: Catalog, mode: string, reference: Option<string>,
                      plan: Plan)
    requires LoadedProfile(w, p) && NoNul(e.instructions)
    requires Refused(e, p, c, mode, reference).None? && Resolved(e, p, c, mode, reference, plan)
    ensures ConfigId(plan.roleName) && TextOk(plan.roleRevision, false) && TextOk(plan.prompt, false)
    ensures RootsOk(w, plan.readRoots) && (plan.readRoots != [] ==> plan.allowExternal)
  {
    PromptIsText(e.instructions, p.body);
    NormalizedRootsOk(w, p);
  }

  lemma ResolvedSkills(w: World, e: Surroundings, names: seq<string>)
    requires Hashing(e, w) && SkillRefusal(e, names).None?
    ensures forall i :: 0 <= i < |names| ==> e.skill(names[i]).Some?
    ensures forall i :: 0 <= i < |names| ==> SkillOk(Skills(e, names)[i])
    ensures SkillIds(Skills(e, names)) == names
  {
    NoSkillRefusal(e, names);
  }

  lemma ResolvedAuth(e: Surroundings, p: Profile, c: Catalog, mode: string, reference: Option<string>)
    requires Refused(e, p, c, mode, reference).None?
    ensures AuthOk(mode, reference) <==> (reference.Some? ==> Account(reference.value))
  {
  }

  lemma NothingNormalizesToNothing()
    ensures NormalizeRoots([]) == []
  {
    NormalizedIsMinimalAntichain([]);
    var r := NormalizeRoots([]);
    assert forall i :: 0 <= i < |r| ==> r[i] in r;
  }

  lemma ResolvedIsResearchOk(e: Surroundings, p: Profile, c: Catalog, mode: string, reference: Option<string>,
                             plan: Plan)
    requires Refused(e, p, c, mode, reference).None? && Resolved(e, p, c, mode, reference, plan)
    ensures ResearchOk(plan)
  {
    if p.Research() {
      assert ResearchAllowed(p);
      ResearchHasNoServers(e, p, c, mode, reference);
      NothingNormalizesToNothing();
      ResearchPlanOk(p, plan);
    }
  }

  lemma ResearchPlanOk(p: Profile, plan: Plan)
    requires p.Research() && ResearchAllowed(p) && plan.readRoots == [] && plan.servers == [] && plan.workerMcp
    requires plan.write == p.write && plan.network == p.network && plan.allowExternal == p.allowExternal
    requires |plan.skills| == |p.skills| && forall i :: 0 <= i < |p.skills| ==> plan.skills[i].id == p.skills[i]
    ensures ResearchOk(plan)
  {
  }

  /** The revision a plan is given is the digest of its own canonical members. */
  lemma RevisionIsOwnDigest(e: Surroundings, plan: Plan)
    ensures Revised(e, plan).configRevision == e.digest(Obj(CanonicalMembers(Revised(e, plan))))
  {
  }

  lemma ResolvedServersOk(p: Profile, c: Catalog)
    requires LoadedCatalog(c) && Declared(p, c) && Unique(p.mcp) && FilterRefusal(p).None?
    ensures Unique(ServerIds(Servers(p, c)))
    ensures (forall i :: 0 <= i < |Servers(p, c)| ==> ServerOk(Servers(p, c)[i]))
       <==> (forall i :: 0 <= i < |Servers(p, c)| ==> CommandOk(Servers(p, c)[i]))
  {
    EachServerOnce(p, c);
    forall i | 0 <= i < |Servers(p, c)| ensures ServerOk(Servers(p, c)[i]) <==> CommandOk(Servers(p, c)[i]) {
      ResolvedServerOk(p, c, i);
    }
  }

  /** Well-formedness of a plan whose other parts are in order comes down to the three that may fail. */
  lemma WellFormedIff(w: World, plan: Plan, skills: bool, commands: bool, account: bool)
    requires ConfigId(plan.roleName) && TextOk(plan.roleRevision, false) && TextOk(plan.prompt, false)
    requires RootsOk(w, plan.readRoots) && (plan.readRoots != [] ==> plan.allowExternal)
    requires forall i :: 0 <= i < |plan.skills| ==> SkillOk(plan.skills[i])
    requires Unique(ServerIds(plan.servers)) && ResearchOk(plan)
    requires Sha256Hex(plan.configRevision) && plan.configRevision == w.digest(Obj(CanonicalMembers(plan)))
    requires skills <==> Unique(SkillIds(plan.skills))
    requires commands <==> forall i :: 0 <= i < |plan.servers| ==> ServerOk(plan.servers[i])
    requires account <==> AuthOk(plan.authMode, plan.authReference)
    ensures WellFormed(w, plan) <==> skills && commands && account
  {
  }

  lemma ResolvedIsWellFormedIff(w: World, e: Surroundings, p: Profile, c: Catalog, mode: string,
                                reference: Option<string>, plan: Plan)
    requires LoadedCatalog(c) && LoadedProfile(w, p) && Hashing(e, w)
    requires Refused(e, p, c, mode, reference).None? && Resolved(e, p, c, mode, reference, plan)
    ensures WellFormed(w, plan) <==> ReadableInputs(p, c, reference)
  {
    ResolvedTexts(w, e, p, c, mode, reference, plan);
    ResolvedSkills(w, e, p.skills);
    ResolvedAuth(e, p, c, mode, reference);
    ResolvedServersOk(p, c);
    ResolvedIsResearchOk(e, p, c, mode, reference, plan);
    RevisionIsOwnDigest(e, Unrevised(e, p, Skills(e, p.skills), Servers(p, c), mode, reference));
    WellFormedIff(w, plan, Unique(p.skills), forall i :: 0 <= i < |Servers(p, c)| ==> CommandOk(Servers(p, c)[i]),
                  reference.Some? ==> Account(reference.value));
  }

  /**
   A plan resolved from loaded inputs is read back from its own payload exactly when no skill
   is named twice, every selected command is canonical and the account reference is a valid one.
   */
  lemma ResolvedPlanReadsBackIff(
    w: World, e: Surroundings, p: Profile, c: Catalog, mode: string, reference: Option<string>, plan: Plan)
    requires Stable(w) && LoadedCatalog(c) && LoadedProfile(w, p) && Hashing(e, w)
    requires Refused(e, p, c, mode, reference).None? && Resolved(e, p, c, mode, reference, plan)
    ensures FromPayload(w, ToPayload(plan)) == Some(plan) <==> ReadableInputs(p, c, reference)
  {
    ResolvedIsWellFormedIff(w, e, p, c, mode, reference, plan);
    ReadableIffWellFormed(w, plan);
  }

  const TWICE := RoleResolution.Profile.Profile("r", "b", false, false, "1", true, false, [], ["a", "a"], [], map[], {})
  const NO_SERVERS := Catalog([], map[])

  lemma TwiceIsLoaded(w: World)
    ensures LoadedProfile(w, TWICE) && LoadedCatalog(NO_SERVERS) && !Unique(TWICE.skills)
  {
    assert !White("b"[0]) && !White("1"[0]) && ConfigId("r");
    assert TWICE.skills[0] == TWICE.skills[1];
  }

  lemma TwiceIsAdmitted(e: Surroundings)
    requires e.skillsAbsolute && e.skill("a").Some?
    ensures Refused(e, TWICE, NO_SERVERS, "global", None).None?
  {
    assert ConfigId("a");
    NoSkillRefusal(e, TWICE.skills);
  }

  /** A loaded profile that names one skill twice resolves, and its plan is refused when it is read back. */
  lemma RepeatedSkillIsNotReadBack(w: World, e: Surroundings, plan: Plan)
    requires Stable(w) && Hashing(e, w) && e.skillsAbsolute && e.skill("a").Some?
    requires Resolved(e, TWICE, NO_SERVERS, "global", None, plan)
    ensures LoadedProfile(w, TWICE) && LoadedCatalog(NO_SERVERS) && Refused(e, TWICE, NO_SERVERS, "global", None).None?
    ensures FromPayload(w, ToPayload(plan)) != Some(plan)
  {
    TwiceIsLoaded(w);
    TwiceIsAdmitted(e);
    RepeatsAreNotReadBack(w, e, TWICE, NO_SERVERS, "global", None, plan);
  }

  /** No plan whose profile names a skill twice is read back. */
  lemma RepeatsAreNotReadBack(
    w: World, e: Surroundings, p: Profile, c: Catalog, mode: string, reference: Option<string>, plan: Plan)
    requires Stable(w) && LoadedCatalog(c) && LoadedProfile(w, p) && Hashing(e, w) && !Unique(p.skills)
    requires Refused(e, p, c, mode, reference).None? && Resolved(e, p, c, mode, reference, plan)
    ensures FromPayload(w, ToPayload(plan)) != Some(plan)
  {
    ResolvedPlanReadsBackIff(w, e, p, c, mode, reference, plan);
  }
}
