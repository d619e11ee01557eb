/** When role resolution succeeds, which refusal it gives otherwise, and every field of the plan it makes. */
module ResolutionOutcome {
  import opened Common
  import opened Ordering
  import opened Roots
  import opened RolePlan
  import opened RolePlanRoundTrip
  import opened RoleResolution
  import opened ResolutionProperties

  // ----- Admission -----

  ghost predicate ResearchConfined(p: Profile) {
    ResearchToolsOnly in p.constraints ==>
      && !p.write && p.network && !p.allowExternal && p.readRoots == [] && p.mcp == []
      && forall i :: 0 <= i < |p.skills| ==> p.skills[i] == "role-research"
  }

  /** Every check a profile must pass, in no particular order. */
  ghost predicate Admitted(e: Surroundings, p: Profile, c: Catalog, mode: string, reference: Option<string>) {
    && "agent_run_worker" !in c.defs && "agent_run_worker" !in p.mcp
    && p.canonical && e.skillsAbsolute && (p.readRoots == [] || p.allowExternal)
    && ((mode == "global" && reference.None?) || (mode == "account" && reference.Some?))
    && ResearchConfined(p)
    && (forall i :: 0 <= i < |p.skills| ==> ConfigId(p.skills[i]) && e.skill(p.skills[i]).Some?)
    && (forall n :: n in p.mcpTools ==> n in p.mcp && AllowedToolsOk(p.mcpTools[n]))
    && (forall i :: 0 <= i < |p.mcp| ==> ConfigId(p.mcp[i]) && p.mcp[i] in c.defs)
  }

  lemma PreliminaryIff(e: Surroundings, p: Profile, c: Catalog, mode: string, reference: Option<string>)
    ensures Preliminary(e, p, c, mode, reference).None? <==>
      && "agent_run_worker" !in c.defs && "agent_run_worker" !in p.mcp
      && p.canonical && e.skillsAbsolute && (p.readRoots == [] || p.allowExternal)
      && ((mode == "global" && reference.None?) || (mode == "account" && reference.Some?))
      && ResearchConfined(p)
  {
    if p.mcp != [] {
      assert p.mcp[0] in p.mcp;
    }
  }

  /** Resolution is refused exactly when some check fails. */
  lemma AdmittedIff(e: Surroundings, p: Profile, c: Catalog, mode: string, reference: Option<string>)
    ensures Refused(e, p, c, mode, reference).None? <==> Admitted(e, p, c, mode, reference)
  {
    PreliminaryIff(e, p, c, mode, reference);
    NoSkillRefusal(e, p.skills);
    NoServerRefusal(c, p.mcp);
  }

  predicate SkillResolves(e: Surroundings, name: string) {
    ConfigId(name) && e.skill(name).Some?
  }

  predicate ServerResolves(c: Catalog, name: string) {
    ConfigId(name) && name in c.defs
  }

  ghost predicate FirstBadSkill(e: Surroundings, names: seq<string>, name: string) {
    exists k :: 0 <= k < |names| && names[k] == name && !SkillResolves(e, name)
      && forall i :: 0 <= i < k ==> SkillResolves(e, names[i])
  }

  ghost predicate FirstBadServer(c: Catalog, names: seq<string>, name: string) {
    exists k :: 0 <= k < |names| && names[k] == name && !ServerResolves(c, name)
      && forall i :: 0 <= i < k ==> ServerResolves(c, names[i])
  }

  lemma {:induction false} SkillRefusalIsFirst(e: Surroundings, names: seq<string>)
    requires SkillRefusal(e, names).Some?
    ensures var r := SkillRefusal(e, names).value; r.BadSkill? && FirstBadSkill(e, names, r.name)
    decreases |names|
  {
    if SkillResolves(e, names[0]) {
      var rest := names[1..];
      SkillRefusalIsFirst(e, rest);
      var name := SkillRefusal(e, names).value.name;
      var k :| 0 <= k < |rest| && rest[k] == name && forall i :: 0 <= i < k ==> SkillResolves(e, rest[i]);
      assert names[k + 1] == name;
      assert forall i :: 0 < i < k + 1 ==> names[i] == rest[i - 1];
    }
  }

  lemma {:induction false} ServerRefusalIsFirst(c: Catalog, names: seq<string>)
    requires ServerRefusal(c, names).Some?
    ensures var r := ServerRefusal(c, names).value;
      && (r.BadServerId? || r.UnknownServer?) && FirstBadServer(c, names, r.name)
      && (r.BadServerId? <==> !ConfigId(r.name))
    decreases |names|
  {
    if ServerResolves(c, names[0]) {
      var rest := names[1..];
      ServerRefusalIsFirst(c, rest);
      var name := ServerRefusal(c, names).value.name;
      var k :| 0 <= k < |rest| && rest[k] == name && forall i :: 0 <= i < k ==> ServerResolves(c, rest[i]);
      assert names[k + 1] == name;
      assert forall i :: 0 < i < k + 1 ==> names[i] == rest[i - 1];
    }
  }

  /** Every refusal names a check that fails, and the first entry that fails it where it names one. */
  lemma RefusalTellsWhy(e: Surroundings, p: Profile, c: Catalog, mode: string, reference: Option<string>)
    requires Refused(e, p, c, mode, reference).Some?
    ensures match Refused(e, p, c, mode, reference).value
      case ReservedName => "agent_run_worker" in c.defs || "agent_run_worker" in p.mcp
      case NotCanonical => !p.canonical
      case RelativeSkills => !e.skillsAbsolute
      case RootsForbidden => p.readRoots != [] && !p.allowExternal
      case BadAuthMode => mode != "global" && mode != "account"
      case BadAuthReference => (mode == "global" && reference.Some?) || (mode == "account" && reference.None?)
      case ResearchTooWide => !ResearchConfined(p)
      case BadSkill(name) => FirstBadSkill(e, p.skills, name)
      case StrayFilter => exists n :: n in p.mcpTools && n !in p.mcp
      case BadFilter => exists n :: n in p.mcpTools && !AllowedToolsOk(p.mcpTools[n])
      case BadServerId(name) => FirstBadServer(c, p.mcp, name) && !ConfigId(name)
      case UnknownServer(name) => FirstBadServer(c, p.mcp, name) && ConfigId(name)
  {
    PreliminaryIff(e, p, c, mode, reference);
    if SkillRefusal(e, p.skills).Some? {
      SkillRefusalIsFirst(e, p.skills);
    }
    if ServerRefusal(c, p.mcp).Some? {
      ServerRefusalIsFirst(c, p.mcp);
    }
  }

  // ----- The plan -----

  /**
   Every field of a resolved plan: the profile's own name, revision, grants and constraints, the
   instructions followed by its body, its outermost read roots in order, its skills with their
   revisions, the caller's authority, the worker server, and a revision digesting all the rest.
   The servers are described by `ServerIdsAre`, `ServersFollowDeclarations` and `SelectionTellsOrigin`.
   */
  lemma ResolvedPlanIs(
    e: Surroundings, p: Profile, c: Catalog, mode: string, reference: Option<string>, plan: Plan)
    requires Resolved(e, p, c, mode, reference, plan)
    ensures plan.roleName == p.name && plan.roleRevision == p.revision
    ensures plan.prompt == e.instructions + "\n\n" + p.body
    ensures plan.write == p.write && plan.network == p.network && plan.allowExternal == p.allowExternal
    ensures Sorted(PathLess, plan.readRoots) && MinimalAntichain(plan.readRoots, p.readRoots)
    ensures SkillIds(plan.skills) == p.skills
    ensures forall i :: 0 <= i < |plan.skills| ==> e.skill(p.skills[i]) == Some(plan.skills[i].revision)
    ensures plan.servers == Servers(p, c) && plan.workerMcp && plan.constraints == p.constraints
    ensures plan.authMode == mode && plan.authReference == reference
    ensures plan.configRevision == e.digest(Obj(CanonicalMembers(plan)))
  {
    KeptRootsAre(p.readRoots);
    SkillsAre(e, p.skills);
    RevisionIsOwnDigest(e, Unrevised(e, p, Skills(e, p.skills), Servers(p, c), mode, reference));
  }

  lemma KeptRootsAre(roots: seq<Path>)
    ensures Sorted(PathLess, NormalizeRoots(roots)) && MinimalAntichain(NormalizeRoots(roots), roots)
  {
    NormalizedIsMinimalAntichain(roots);
  }

  lemma SkillsAre(e: Surroundings, names: seq<string>)
    requires forall i :: 0 <= i < |names| ==> e.skill(names[i]).Some?
    ensures SkillIds(Skills(e, names)) == names
    ensures forall i :: 0 <= i < |names| ==> e.skill(names[i]) == Some(Skills(e, names)[i].revision)
  {
  }

  /** A payload that is read as a research plan confines it. */
  lemma ReadResearchIsConfined(w: World, v: Value)
    requires Stable(w) && FromPayload(w, v).Some?
    ensures var plan := FromPayload(w, v).value;
      ResearchToolsOnly in plan.constraints ==>
        && !plan.write && plan.network && !plan.allowExternal && plan.readRoots == [] && plan.servers == []
        && plan.workerMcp && forall i :: 0 <= i < |plan.skills| ==> plan.skills[i].id == "role-research"
  {
    AcceptedPayloadIsCanonical(w, v);
  }

  // ----- Canonical commands -----

  /** A component that stands for itself. */
  predicate PlainComponent(c: string) {
    c != "" && c != "." && c != ".." && '/' !in c
  }

  ghost predicate PlainComponents(cs: seq<string>) {
    forall i :: 0 <= i < |cs| ==> PlainComponent(cs[i])
  }

  /** Components never contain a slash and are never empty or a dot. */
  ghost predicate Cut(cs: seq<string>) {
    forall i :: 0 <= i < |cs| ==> cs[i] != "" && cs[i] != "." && '/' !in cs[i]
  }

  lemma {:induction false} ComponentsAreCut(s: string, current: string)
    requires '/' !in current
    ensures Cut(Components(s, current))
    decreases |s|
  {
    if s != "" {
      if s[0] == '/' {
        ComponentsAreCut(s[1..], "");
      } else {
        ComponentsAreCut(s[1..], current + [s[0]]);
      }
    }
  }

  lemma {:induction false} CollapsedIsPlain(cs: seq<string>, stack: seq<string>)
    requires Cut(cs) && PlainComponents(stack)
    ensures PlainComponents(Collapse(cs, stack))
    decreases |cs|
  {
    if cs != [] {
      if cs[0] == ".." {
        CollapsedIsPlain(cs[1..], if stack == [] then [] else stack[..|stack| - 1]);
      } else {
        CollapsedIsPlain(cs[1..], stack + [cs[0]]);
      }
    }
  }

  lemma {:induction false} PlainCollapses(cs: seq<string>, stack: seq<string>)
    requires PlainComponents(cs)
    ensures Collapse(cs, stack) == stack + cs
    decreases |cs|
  {
    if cs == [] {
      assert stack + cs == stack;
    } else {
      PlainCollapses(cs[1..], stack + [cs[0]]);
      ConcatAssoc(stack, [cs[0]], cs[1..]);
      assert cs == [cs[0]] + cs[1..];
    }
  }

  lemma {:induction false} ComponentsCollect(c: string, rest: string, current: string)
    requires '/' !in c
    ensures Components(c + rest, current) == Components(rest, current + c)
    decreases |c|
  {
    if c == "" {
      assert c + rest == rest && current + c == current;
    } else {
      FirstOfConcat(c, rest);
      ComponentsCollect(c[1..], rest, current + [c[0]]);
      assert current + [c[0]] + c[1..] == current + c;
    }
  }

  /** What follows the first component in the text of a path. */
  function ShownRest(cs: seq<string>): string
    requires cs != []
  {
    if |cs| == 1 then "" else ShowPath(cs[1..])
  }

  lemma ShownFirst(cs: seq<string>)
    requires cs != [] && PlainComponent(cs[0])
    ensures Components(ShowPath(cs), "") == Components(ShownRest(cs), cs[0])
  {
    var shown := ShowPath(cs);
    assert shown == "/" + (cs[0] + ShownRest(cs));
    assert shown[0] == '/' && shown[1..] == cs[0] + ShownRest(cs);
    ComponentsCollect(cs[0], ShownRest(cs), "");
    assert "" + cs[0] == cs[0];
  }

  lemma {:induction false} ShownComponents(cs: seq<string>)
    requires PlainComponents(cs)
    ensures Components(ShowPath(cs), "") == cs
    decreases |cs|
  {
    if cs == [] {
      assert "/"[1..] == "";
    } else {
      ShownFirst(cs);
      if |cs| == 1 {
        assert cs == [cs[0]];
      } else {
        ShownComponents(cs[1..]);
        NextComponent(cs[0], ShowPath(cs[1..]));
        assert cs == [cs[0]] + cs[1..];
      }
    }
  }

  /** A collected component ends where the next path begins. */
  lemma NextComponent(c: string, rest: string)
    requires PlainComponent(c) && rest != "" && rest[0] == '/'
    ensures Components(rest, c) == [c] + Components(rest, "")
  {
  }

  /** A command is canonical exactly when it is the text of an absolute path of plain components. */
  lemma CanonicalCommandIff(s: string)
    ensures CanonicalCommand(s) <==> exists cs :: PlainComponents(cs) && s == ShowPath(cs)
  {
    if CanonicalCommand(s) {
      ComponentsAreCut(s, "");
      CollapsedIsPlain(Components(s, ""), []);
      assert PlainComponents(Collapse(Components(s, ""), []));
    }
    if cs :| PlainComponents(cs) && s == ShowPath(cs) {
      ShownComponents(cs);
      PlainCollapses(cs, []);
      assert [] + cs == cs;
    }
  }
}
