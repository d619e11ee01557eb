/** The role payload's printer and reader are inverse to each other. */
module RolePlanRoundTrip {
  import opened Common
  import opened Ordering
  import opened Roots
  import opened RolePlan

  // ----- Text -----

  lemma PlainTextIsText(s: string)
    requires ConfigId(s) || Sha256Hex(s) || Account(s) || EnvName(s) || ToolName(s)
    ensures TextOk(s, false)
  {
  }

  lemma CommandIsText(s: string)
    requires CanonicalCommand(s) && NoNul(s)
    ensures TextOk(s, false)
  {
  }

  lemma ReadPrintedStrings(xs: seq<string>, unique: bool)
    ensures ReadStrings(Strs(xs), unique) == if StringsOk(xs, unique) then Some(xs) else None
  {
    var v := Strs(xs);
    assert seq(|v.items|, i requires 0 <= i < |v.items| => v.items[i].s) == xs;
  }

  lemma PrintReadStrings(v: Value, unique: bool)
    requires ReadStrings(v, unique).Some?
    ensures StringsOk(ReadStrings(v, unique).value, unique) && Strs(ReadStrings(v, unique).value) == v
  {
  }

  // ----- Lists -----

  lemma {:induction false} ReadEachOk<T>(read: Value -> Option<T>, items: seq<Value>, xs: seq<T>)
    requires |items| == |xs| && forall i :: 0 <= i < |xs| ==> read(items[i]) == Some(xs[i])
    ensures ReadEach(read, items) == Some(xs)
    decreases |items|
  {
    if items != [] {
      ReadEachOk(read, items[1..], xs[1..]);
      assert xs == [xs[0]] + xs[1..];
    }
  }

  lemma {:induction false} ReadEachGives<T>(read: Value -> Option<T>, items: seq<Value>)
    requires ReadEach(read, items).Some?
    ensures var xs := ReadEach(read, items).value;
      |xs| == |items| && forall i :: 0 <= i < |xs| ==> read(items[i]) == Some(xs[i])
    decreases |items|
  {
    if items != [] {
      ReadEachGives(read, items[1..]);
    }
  }

  // ----- Skills and servers -----

  predicate SkillOk(s: Skill) {
    ConfigId(s.id) && Sha256Hex(s.revision)
  }

  predicate ServerOk(s: Server) {
    && ConfigId(s.id)
    && s.transport == "stdio"
    && CanonicalCommand(s.command) && NoNul(s.command)
    && StringsOk(s.args, false)
    && Unique(s.envFrom) && (forall i :: 0 <= i < |s.envFrom| ==> EnvName(s.envFrom[i]))
    && ApprovalModeOk(s.approvalMode)
    && (s.allowedTools.Some? ==> Increasing(s.allowedTools.value) && AllowedToolsOk(s.allowedTools.value))
  }

  lemma ReadPrintedSkill(s: Skill)
    requires SkillOk(s)
    ensures ReadSkill(PrintSkill(s)) == Some(s)
  {
    PlainTextIsText(s.id);
    PlainTextIsText(s.revision);
  }

  lemma PrintReadSkill(v: Value)
    requires ReadSkill(v).Some?
    ensures SkillOk(ReadSkill(v).value) && PrintSkill(ReadSkill(v).value) == v
  {
  }

  lemma WordsAreText()
    ensures TextOk("stdio", false) && TextOk("global", false) && TextOk("both", false) && TextOk("account", false)
  {
    assert !White("stdio"[0]) && !White("global"[0]) && !White("both"[0]) && !White("account"[0]);
  }

  lemma ModeIsText(mode: string)
    requires ApprovalModeOk(mode)
    ensures TextOk(mode, false)
  {
    assert !White("auto"[0]) && !White("prompt"[0]) && !White("writes"[0]) && !White("approve"[0]);
  }

  /** The optional members a printed server has. */
  function PrintedOptions(s: Server): set<Key> {
    (if s.approvalMode != "auto" then {ApprovalMode} else {})
    + (if s.allowedTools.Some? then {AllowedTools} else {})
    + (if s.selection != Profile then {SelectionKey} else {})
  }

  /** What `PrintServer` prints, member by member. */
  ghost predicate ServerShape(m: map<Key, Value>, s: Server) {
    && m.Keys == BASE + PrintedOptions(s)
    && m[Id] == Str(s.id) && m[Transport] == Str(s.transport) && m[Command] == Str(s.command)
    && m[Args] == Strs(s.args) && m[EnvFrom] == Strs(s.envFrom)
    && (s.approvalMode != "auto" ==> m[ApprovalMode] == Str(s.approvalMode))
    && (s.allowedTools.Some? ==> m[AllowedTools] == Strs(s.allowedTools.value))
    && (s.selection != Profile ==> m[SelectionKey] == Str(SelectionText(s.selection)))
  }

  lemma PrintedServerShape(s: Server)
    ensures ServerShape(PrintServer(s).members, s)
  {
  }

  lemma ShapeIsPrinted(m: map<Key, Value>, s: Server)
    requires ServerShape(m, s)
    ensures m == PrintServer(s).members
  {
    PrintedServerShape(s);
  }

  lemma ReadShapedApproval(m: map<Key, Value>, s: Server)
    requires ServerOk(s) && ServerShape(m, s)
    ensures ReadApproval(m) == Some(s.approvalMode)
  {
    ModeIsText(s.approvalMode);
  }

  lemma ReadShapedTools(m: map<Key, Value>, s: Server)
    requires ServerOk(s) && ServerShape(m, s)
    ensures ReadTools(m) == Some(s.allowedTools)
  {
    if s.allowedTools.Some? {
      var tools := s.allowedTools.value;
      forall i | 0 <= i < |tools| ensures NoNul(tools[i]) {
        PlainTextIsText(tools[i]);
      }
      ReadPrintedStrings(tools, false);
    }
  }

  lemma ReadShapedSelection(m: map<Key, Value>, s: Server)
    requires ServerShape(m, s)
    ensures ReadSelection(m) == Some(s.selection)
  {
    WordsAreText();
  }

  lemma ReadShapedBase(m: map<Key, Value>, s: Server)
    requires ServerOk(s) && ServerShape(m, s)
    ensures ReadText(m[Id], false) == Some(s.id) && ReadText(m[Transport], false) == Some(s.transport)
    ensures ReadText(m[Command], false) == Some(s.command)
    ensures ReadStrings(m[Args], false) == Some(s.args) && ReadStrings(m[EnvFrom], true) == Some(s.envFrom)
  {
    WordsAreText();
    PlainTextIsText(s.id);
    CommandIsText(s.command);
    forall i | 0 <= i < |s.envFrom| ensures NoNul(s.envFrom[i]) {
      PlainTextIsText(s.envFrom[i]);
    }
    ReadPrintedStrings(s.args, false);
    ReadPrintedStrings(s.envFrom, true);
  }

  lemma ReadShapedServer(m: map<Key, Value>, s: Server)
    requires ServerOk(s) && ServerShape(m, s)
    ensures ReadServer(Obj(m)) == Some(s)
  {
    ReadShapedApproval(m, s);
    ReadShapedTools(m, s);
    ReadShapedSelection(m, s);
    ReadShapedBase(m, s);
    assert BASE <= m.Keys <= BASE + OPTIONAL;
  }

  lemma ReadPrintedServer(s: Server)
    requires ServerOk(s)
    ensures ReadServer(PrintServer(s)) == Some(s)
  {
    PrintedServerShape(s);
    ReadShapedServer(PrintServer(s).members, s);
  }

  /** A server object that writes out the approval mode it would have by default. */
  predicate SpellsDefault(v: Value) {
    v.Obj? && ApprovalMode in v.members && v.members[ApprovalMode] == Str("auto")
  }

  lemma ReadServerOk(v: Value)
    requires ReadServer(v).Some?
    ensures ServerOk(ReadServer(v).value)
  {
    var m := v.members;
    PrintReadStrings(m[Args], false);
    PrintReadStrings(m[EnvFrom], true);
  }

  lemma ReadOptionsShape(m: map<Key, Value>, s: Server)
    requires ReadApproval(m) == Some(s.approvalMode) && ReadTools(m) == Some(s.allowedTools)
    requires ReadSelection(m) == Some(s.selection)
    ensures AllowedTools in m <==> s.allowedTools.Some?
    ensures AllowedTools in m ==> m[AllowedTools] == Strs(s.allowedTools.value)
    ensures SelectionKey in m <==> s.selection != Profile
    ensures SelectionKey in m ==> m[SelectionKey] == Str(SelectionText(s.selection))
    ensures ApprovalMode in m ==> m[ApprovalMode] == Str(s.approvalMode)
    ensures ApprovalMode !in m ==> s.approvalMode == "auto"
  {
    if AllowedTools in m {
      PrintReadStrings(m[AllowedTools], false);
    }
  }

  /** The only accepted spelling a server would not print itself is the default approval mode. */
  lemma PrintReadServer(v: Value)
    requires ReadServer(v).Some?
    ensures PrintServer(ReadServer(v).value) == v <==> !SpellsDefault(v)
  {
    var m, s := v.members, ReadServer(v).value;
    PrintReadStrings(m[Args], false);
    PrintReadStrings(m[EnvFrom], true);
    ReadOptionsShape(m, s);
    SpelledOut(m, s);
  }

  lemma SpelledOut(m: map<Key, Value>, s: Server)
    requires BASE <= m.Keys <= BASE + OPTIONAL
    requires m[Id] == Str(s.id) && m[Transport] == Str(s.transport) && m[Command] == Str(s.command)
    requires m[Args] == Strs(s.args) && m[EnvFrom] == Strs(s.envFrom)
    requires AllowedTools in m <==> s.allowedTools.Some?
    requires AllowedTools in m ==> m[AllowedTools] == Strs(s.allowedTools.value)
    requires SelectionKey in m <==> s.selection != Profile
    requires SelectionKey in m ==> m[SelectionKey] == Str(SelectionText(s.selection))
    requires ApprovalMode in m ==> m[ApprovalMode] == Str(s.approvalMode)
    requires ApprovalMode !in m ==> s.approvalMode == "auto"
    ensures PrintServer(s) == Obj(m) <==> !SpellsDefault(Obj(m))
  {
    if SpellsDefault(Obj(m)) {
      PrintedServerShape(s);
      assert ApprovalMode !in PrintServer(s).members.Keys;
    } else {
      assert m.Keys == BASE + PrintedOptions(s);
      ShapeIsPrinted(m, s);
    }
  }

  // ----- Constraints -----

  lemma {:induction false} NamesFromAre(cs: set<Constraint>, all: seq<Constraint>, x: string)
    ensures x in NamesFrom(cs, all) <==> exists c :: c in cs && c in all && x == ConstraintName(c)
    decreases |all|
  {
    if all != [] {
      NamesFromAre(cs, all[1..], x);
      assert all == [all[0]] + all[1..];
    }
  }

  lemma AllHasEvery(c: Constraint)
    ensures c in ALL
  {
  }

  lemma SortedNamesAre(cs: set<Constraint>, x: string)
    ensures x in SortedNames(cs) <==> exists c :: c in cs && x == ConstraintName(c)
    ensures Sorted(TextLess, SortedNames(cs))
  {
    TextLessIsStrict();
    CollectIsSortedSet(TextLess, NamesFrom(cs, ALL));
    NamesFromAre(cs, ALL, x);
    forall c | c in cs ensures c in ALL {
      AllHasEvery(c);
    }
  }

  lemma NameReadsBack(c: Constraint)
    ensures ConstraintFrom(ConstraintName(c)) == Some(c)
  {
    match c
    case WebToolsDisabled =>
    case ExternalNetworkIsolation =>
    case LoopbackTcpIsolation =>
    case UnixIpcIsolation =>
    case McpIpcIsolation =>
    case FilesystemWriteIsolation =>
    case FilesystemReadIsolation =>
    case PluginImmutability =>
    case ResearchToolsOnly =>
  }

  lemma NameHasNoNul(c: Constraint)
    ensures NoNul(ConstraintName(c))
  {
    match c
    case WebToolsDisabled => assert NoNul("web_tools_disabled");
    case ExternalNetworkIsolation => assert NoNul("external_network_isolation");
    case LoopbackTcpIsolation => assert NoNul("loopback_tcp_isolation");
    case UnixIpcIsolation => assert NoNul("unix_ipc_isolation");
    case McpIpcIsolation => assert NoNul("mcp_ipc_isolation");
    case FilesystemWriteIsolation => assert NoNul("filesystem_write_isolation");
    case FilesystemReadIsolation => assert NoNul("filesystem_read_isolation");
    case PluginImmutability => assert NoNul("plugin_immutability");
    case ResearchToolsOnly => assert NoNul("research_tools_only");
  }

  lemma {:induction false} ConstraintsOfNames(cs: set<Constraint>, names: seq<string>)
    requires forall x :: x in names ==> exists c :: c in cs && x == ConstraintName(c)
    ensures ConstraintsOf(names).Some?
    ensures forall c :: c in ConstraintsOf(names).value <==> ConstraintName(c) in names
    decreases |names|
  {
    if names != [] {
      assert names[0] in names;
      var c0 :| c0 in cs && names[0] == ConstraintName(c0);
      NameReadsBack(c0);
      assert forall x :: x in names[1..] ==> x in names;
      ConstraintsOfNames(cs, names[1..]);
      forall c ensures c in ConstraintsOf(names).value <==> ConstraintName(c) in names {
        NameReadsBack(c);
        assert names == [names[0]] + names[1..];
      }
    }
  }

  lemma SortedNamesAreText(cs: set<Constraint>)
    ensures StringsOk(SortedNames(cs), false)
  {
    var names := SortedNames(cs);
    forall i | 0 <= i < |names| ensures NoNul(names[i]) {
      assert names[i] in names;
      SortedNamesAre(cs, names[i]);
      var c :| c in cs && names[i] == ConstraintName(c);
      NameHasNoNul(c);
    }
  }

  lemma ReadPrintedConstraints(cs: set<Constraint>)
    ensures ReadConstraints(Strs(SortedNames(cs))) == Some(cs)
  {
    var names := SortedNames(cs);
    SortedNamesAreText(cs);
    forall x | x in names ensures exists c :: c in cs && x == ConstraintName(c) {
      SortedNamesAre(cs, x);
    }
    ReadPrintedStrings(names, false);
    ConstraintsOfNames(cs, names);
    forall c ensures c in ConstraintsOf(names).value <==> c in cs {
      NameIsListed(cs, c);
    }
    assert ConstraintsOf(names).value == cs;
  }

  lemma NameIsListed(cs: set<Constraint>, c: Constraint)
    ensures ConstraintName(c) in SortedNames(cs) <==> c in cs
  {
    SortedNamesAre(cs, ConstraintName(c));
    NameReadsBack(c);
    if ConstraintName(c) in SortedNames(cs) {
      var d :| d in cs && ConstraintName(c) == ConstraintName(d);
      NameReadsBack(d);
    }
  }

  // ----- Grants and auth -----

  /** `canonicalize` of a resolved path is that path. */
  ghost predicate Stable(w: World) {
    forall s, p :: w.resolve(s) == Some(p) ==> w.resolve(ShowPath(p)) == Some(p)
  }

  /** Existing directories, already canonical and already the antichain they collapse to. */
  ghost predicate RootsOk(w: World, roots: seq<Path>) {
    && (forall i :: 0 <= i < |roots| ==> w.resolve(ShowPath(roots[i])) == Some(roots[i]) && NoNul(ShowPath(roots[i])))
    && NormalizeRoots(roots) == roots
  }

  lemma {:induction false} ResolvePrinted(w: World, roots: seq<Path>)
    requires forall i :: 0 <= i < |roots| ==> w.resolve(ShowPath(roots[i])) == Some(roots[i])
    ensures ResolveEach(w, ShowPaths(roots)) == Some(roots)
    decreases |roots|
  {
    if roots != [] {
      assert ShowPaths(roots)[1..] == ShowPaths(roots[1..]);
      assert ShowPath(roots[0])[0] == '/';
      ResolvePrinted(w, roots[1..]);
      assert roots == [roots[0]] + roots[1..];
    }
  }

  lemma NormalizedRootsAreUnique(roots: seq<Path>)
    requires NormalizeRoots(roots) == roots
    ensures forall i, j :: 0 <= i < j < |roots| ==> roots[i] != roots[j]
  {
    NormalizedIsMinimalAntichain(roots);
    PathLessIsStrict();
  }

  lemma ReadPrintedRoots(w: World, roots: seq<Path>)
    requires RootsOk(w, roots)
    ensures ReadStrings(Strs(ShowPaths(roots)), true) == Some(ShowPaths(roots))
    ensures ReadRoots(w, ShowPaths(roots)) == Some(roots)
  {
    var values := ShowPaths(roots);
    NormalizedRootsAreUnique(roots);
    forall i, j | 0 <= i < j < |values| ensures values[i] != values[j] {
      assert w.resolve(ShowPath(roots[i])) == Some(roots[i]) && w.resolve(ShowPath(roots[j])) == Some(roots[j]);
    }
    ReadPrintedStrings(values, true);
    ResolvePrinted(w, roots);
  }

  lemma {:induction false} ResolveGives(w: World, values: seq<string>, p: Path)
    requires ResolveEach(w, values).Some? && p in ResolveEach(w, values).value
    ensures exists s :: w.resolve(s) == Some(p)
    decreases |values|
  {
    if w.resolve(values[0]) != Some(p) {
      ResolveGives(w, values[1..], p);
    }
  }

  lemma ReadRootsOk(w: World, values: seq<string>)
    requires Stable(w) && StringsOk(values, true) && ReadRoots(w, values).Some?
    ensures RootsOk(w, ReadRoots(w, values).value)
  {
    var resolved := ResolveEach(w, values).value;
    var roots := NormalizeRoots(resolved);
    NormalizedIsMinimalAntichain(resolved);
    NormalizedIsIdempotent(resolved);
    forall i | 0 <= i < |roots| ensures w.resolve(ShowPath(roots[i])) == Some(roots[i]) && NoNul(ShowPath(roots[i])) {
      assert roots[i] in roots;
      ResolveGives(w, values, roots[i]);
      assert ShowPaths(roots)[i] == values[i];
    }
  }

  lemma ReadPrintedGrants(w: World, p: Plan)
    requires RootsOk(w, p.readRoots) && (p.readRoots != [] ==> p.allowExternal)
    ensures ReadGrants(w, PrintGrants(p)) == Some(Grants(p.write, p.network, p.allowExternal, p.readRoots))
  {
    ReadPrintedRoots(w, p.readRoots);
  }

  lemma PrintReadGrants(w: World, v: Value, p: Plan)
    requires ReadGrants(w, v) == Some(Grants(p.write, p.network, p.allowExternal, p.readRoots))
    ensures PrintGrants(p) == v
    ensures Stable(w) ==> RootsOk(w, p.readRoots)
    ensures p.readRoots != [] ==> p.allowExternal
  {
    var values := ReadStrings(v.members[ReadRootsKey], true).value;
    PrintReadStrings(v.members[ReadRootsKey], true);
    assert PrintGrants(p).members == v.members;
    if Stable(w) {
      ReadRootsOk(w, values);
    }
  }

  lemma ReadPrintedAuth(p: Plan)
    requires AuthOk(p.authMode, p.authReference)
    ensures ReadAuth(PrintAuth(p)) == Some(Auth(p.authMode, p.authReference))
  {
    WordsAreText();
    if p.authReference.Some? {
      PlainTextIsText(p.authReference.value);
    }
  }

  lemma PrintReadAuth(v: Value, p: Plan)
    requires ReadAuth(v) == Some(Auth(p.authMode, p.authReference))
    ensures PrintAuth(p) == v && AuthOk(p.authMode, p.authReference)
  {
  }

  // ----- The document -----

  /** What a plan must satisfy to be readable; nothing here mentions the reader. */
  ghost predicate WellFormed(w: World, p: Plan) {
    && ConfigId(p.roleName)
    && TextOk(p.roleRevision, false)
    && TextOk(p.prompt, false)
    && RootsOk(w, p.readRoots)
    && (p.readRoots != [] ==> p.allowExternal)
    && (forall i :: 0 <= i < |p.skills| ==> SkillOk(p.skills[i]))
    && Unique(SkillIds(p.skills))
    && (forall i :: 0 <= i < |p.servers| ==> ServerOk(p.servers[i]))
    && Unique(ServerIds(p.servers))
    && AuthOk(p.authMode, p.authReference)
    && ResearchOk(p)
    && Sha256Hex(p.configRevision)
    && p.configRevision == w.digest(Obj(CanonicalMembers(p)))
  }

  lemma ReadPrintedLists(p: Plan)
    requires forall i :: 0 <= i < |p.skills| ==> SkillOk(p.skills[i])
    requires forall i :: 0 <= i < |p.servers| ==> ServerOk(p.servers[i])
    requires Unique(SkillIds(p.skills)) && Unique(ServerIds(p.servers))
    ensures ReadSkills(Arr(PrintSkills(p.skills))) == Some(p.skills)
    ensures ReadServers(Arr(PrintServers(p.servers))) == Some(p.servers)
  {
    forall i | 0 <= i < |p.skills| ensures ReadSkill(PrintSkills(p.skills)[i]) == Some(p.skills[i]) {
      ReadPrintedSkill(p.skills[i]);
    }
    forall i | 0 <= i < |p.servers| ensures ReadServer(PrintServers(p.servers)[i]) == Some(p.servers[i]) {
      ReadPrintedServer(p.servers[i]);
    }
    ReadEachOk(ReadSkill, PrintSkills(p.skills), p.skills);
    ReadEachOk(ReadServer, PrintServers(p.servers), p.servers);
  }

  lemma PrintReadSkills(v: Value)
    requires ReadSkills(v).Some?
    ensures var xs := ReadSkills(v).value;
      && (forall i :: 0 <= i < |xs| ==> SkillOk(xs[i])) && Unique(SkillIds(xs))
      && Arr(PrintSkills(xs)) == v
  {
    var xs := ReadSkills(v).value;
    ReadEachGives(ReadSkill, v.items);
    forall i | 0 <= i < |xs| ensures SkillOk(xs[i]) && PrintSkills(xs)[i] == v.items[i] {
      PrintReadSkill(v.items[i]);
    }
    assert PrintSkills(xs) == v.items;
  }

  predicate SomeSpellsDefault(v: Value) {
    v.Arr? && exists i :: 0 <= i < |v.items| && SpellsDefault(v.items[i])
  }

  lemma PrintReadServers(v: Value)
    requires ReadServers(v).Some?
    ensures var xs := ReadServers(v).value;
      && (forall i :: 0 <= i < |xs| ==> ServerOk(xs[i])) && Unique(ServerIds(xs))
      && (Arr(PrintServers(xs)) == v <==> !SomeSpellsDefault(v))
  {
    var xs := ReadServers(v).value;
    ReadEachGives(ReadServer, v.items);
    forall i | 0 <= i < |xs|
      ensures ServerOk(xs[i]) && (PrintServers(xs)[i] == v.items[i] <==> !SpellsDefault(v.items[i]))
    {
      ReadServerOk(v.items[i]);
      PrintReadServer(v.items[i]);
    }
    if !SomeSpellsDefault(v) {
      assert PrintServers(xs) == v.items;
    }
  }

  /** A document, member by member. */
  ghost predicate PartsShape(m: map<Key, Value>, x: Parts, worker: bool, config: Value) {
    && m.Keys == KEYS + (if worker then {WorkerMcp} else {})
    && m[RoleName] == x.name && m[RoleRevision] == x.revision && m[Prompt] == x.prompt && m[GrantsKey] == x.grants
    && m[SkillsKey] == x.skills && m[McpKey] == x.servers && m[RequiredConstraints] == x.constraints
    && m[AuthKey] == x.auth
    && m[ConfigRevision] == config
    && (worker ==> m[WorkerMcp] == Bool(true))
  }

  lemma AssembledShape(x: Parts, worker: bool, config: Value)
    ensures PartsShape(Assemble(x, worker)[ConfigRevision := config], x, worker, config)
    ensures Assemble(x, worker)[ConfigRevision := config] - {ConfigRevision} == Assemble(x, worker)
  {
    var m := Assemble(x, worker)[ConfigRevision := config];
    assert m.Keys == KEYS + (if worker then {WorkerMcp} else {});
    assert ConfigRevision !in Assemble(x, worker);
  }

  lemma ShapeIsAssembled(m: map<Key, Value>, x: Parts, worker: bool, config: Value)
    requires PartsShape(m, x, worker, config)
    ensures m == Assemble(x, worker)[ConfigRevision := config]
  {
    AssembledShape(x, worker, config);
  }

  /** What `ToPayload` prints. */
  ghost predicate DocumentShape(m: map<Key, Value>, p: Plan) {
    PartsShape(m, PrintParts(p), p.workerMcp, Str(p.configRevision))
  }

  lemma PrintedDocumentShape(p: Plan)
    ensures DocumentShape(ToPayload(p).members, p)
    ensures ToPayload(p).members - {ConfigRevision} == CanonicalMembers(p)
  {
    AssembledShape(PrintParts(p), p.workerMcp, Str(p.configRevision));
  }

  lemma DocumentIsPrinted(m: map<Key, Value>, p: Plan)
    requires DocumentShape(m, p)
    ensures m == ToPayload(p).members
  {
    ShapeIsAssembled(m, PrintParts(p), p.workerMcp, Str(p.configRevision));
  }

  lemma ReadShapedTexts(m: map<Key, Value>, p: Plan)
    requires KEYS <= m.Keys
    requires m[RoleName] == Str(p.roleName) && m[RoleRevision] == Str(p.roleRevision)
    requires m[Prompt] == Str(p.prompt) && m[ConfigRevision] == Str(p.configRevision)
    requires ConfigId(p.roleName) && TextOk(p.roleRevision, false) && TextOk(p.prompt, false)
    requires Sha256Hex(p.configRevision)
    ensures ReadText(m[RoleName], false) == Some(p.roleName) && ReadText(m[RoleRevision], false) == Some(p.roleRevision)
    ensures ReadText(m[Prompt], false) == Some(p.prompt) && ReadText(m[ConfigRevision], false) == Some(p.configRevision)
  {
    PlainTextIsText(p.roleName);
    PlainTextIsText(p.configRevision);
  }

  lemma ReadEveryMember(w: World, m: map<Key, Value>, p: Plan)
    requires KEYS <= m.Keys
    requires ReadText(m[RoleName], false) == Some(p.roleName)
    requires ReadText(m[RoleRevision], false) == Some(p.roleRevision)
    requires ReadText(m[Prompt], false) == Some(p.prompt)
    requires ReadText(m[ConfigRevision], false) == Some(p.configRevision)
    requires ReadGrants(w, m[GrantsKey]) == Some(Grants(p.write, p.network, p.allowExternal, p.readRoots))
    requires ReadSkills(m[SkillsKey]) == Some(p.skills) && ReadServers(m[McpKey]) == Some(p.servers)
    requires ReadConstraints(m[RequiredConstraints]) == Some(p.constraints)
    requires ReadAuth(m[AuthKey]) == Some(Auth(p.authMode, p.authReference))
    ensures ReadMembers(w, m, p.workerMcp) == Some(p)
  {
  }

  lemma ReadShapedMembers(w: World, m: map<Key, Value>, p: Plan)
    requires WellFormed(w, p) && DocumentShape(m, p)
    ensures ReadMembers(w, m, p.workerMcp) == Some(p)
  {
    ReadShapedTexts(m, p);
    ReadPrintedGrants(w, p);
    ReadPrintedLists(p);
    ReadPrintedConstraints(p.constraints);
    ReadPrintedAuth(p);
    ReadEveryMember(w, m, p);
  }

  lemma ReadShapedDocument(w: World, m: map<Key, Value>, p: Plan)
    requires WellFormed(w, p) && DocumentShape(m, p) && m - {ConfigRevision} == CanonicalMembers(p)
    ensures ReadPlan(w, Obj(m)) == Some(p)
  {
    ReadShapedMembers(w, m, p);
    assert KeysOk(m) && (WorkerMcp in m <==> p.workerMcp) by {
      ShapedKeys(m, PrintParts(p), p.workerMcp, Str(p.configRevision));
    }
    assert PlanOk(w, m, p);
  }

  lemma ShapedKeys(m: map<Key, Value>, x: Parts, worker: bool, config: Value)
    requires PartsShape(m, x, worker, config)
    ensures KeysOk(m) && (WorkerMcp in m <==> worker)
  {
  }

  /** Every well-formed plan is read back unchanged. */
  lemma PrintedPlanReadsBack(w: World, p: Plan)
    requires WellFormed(w, p)
    ensures FromPayload(w, ToPayload(p)) == Some(p)
  {
    PrintedDocumentShape(p);
    ReadShapedDocument(w, ToPayload(p).members, p);
    assert ToPayload(p) == Obj(ToPayload(p).members);
  }

  /** The members a read plan prints are the members it was read from, but for spelled-out defaults. */
  lemma PrintReadMembers(w: World, m: map<Key, Value>, worker: bool)
    requires m.Keys == KEYS + (if worker then {WorkerMcp} else {}) && (worker ==> m[WorkerMcp] == Bool(true))
    requires ReadMembers(w, m, worker).Some?
    ensures ToPayload(ReadMembers(w, m, worker).value) == Obj(m) <==> !SomeSpellsDefault(m[McpKey])
  {
    var p := ReadMembers(w, m, worker).value;
    PrintReadGrants(w, m[GrantsKey], p);
    PrintReadSkills(m[SkillsKey]);
    PrintReadServers(m[McpKey]);
    PrintReadStrings(m[RequiredConstraints], false);
    PrintReadAuth(m[AuthKey], p);
    ReprintedDocument(m, p);
  }

  lemma ReprintedDocument(m: map<Key, Value>, p: Plan)
    requires m.Keys == KEYS + (if p.workerMcp then {WorkerMcp} else {})
    requires m[RoleName] == Str(p.roleName) && m[RoleRevision] == Str(p.roleRevision) && m[Prompt] == Str(p.prompt)
    requires m[ConfigRevision] == Str(p.configRevision) && m[GrantsKey] == PrintGrants(p)
    requires m[SkillsKey] == Arr(PrintSkills(p.skills)) && m[RequiredConstraints] == Strs(SortedNames(p.constraints))
    requires m[AuthKey] == PrintAuth(p) && (p.workerMcp ==> m[WorkerMcp] == Bool(true))
    ensures ToPayload(p) == Obj(m) <==> m[McpKey] == Arr(PrintServers(p.servers))
  {
    if m[McpKey] == Arr(PrintServers(p.servers)) {
      DocumentIsPrinted(m, p);
    } else {
      PrintedDocumentShape(p);
    }
  }

  /** Everything the reader checks makes a well-formed plan, digest aside. */
  lemma ReadMembersOk(w: World, m: map<Key, Value>, worker: bool)
    requires KEYS <= m.Keys && Stable(w) && ReadMembers(w, m, worker).Some?
    ensures var p := ReadMembers(w, m, worker).value;
      && TextOk(p.roleRevision, false) && TextOk(p.prompt, false)
      && RootsOk(w, p.readRoots) && (p.readRoots != [] ==> p.allowExternal)
      && (forall i :: 0 <= i < |p.skills| ==> SkillOk(p.skills[i])) && Unique(SkillIds(p.skills))
      && (forall i :: 0 <= i < |p.servers| ==> ServerOk(p.servers[i])) && Unique(ServerIds(p.servers))
      && AuthOk(p.authMode, p.authReference)
  {
    var p := ReadMembers(w, m, worker).value;
    PrintReadGrants(w, m[GrantsKey], p);
    PrintReadSkills(m[SkillsKey]);
    PrintReadServers(m[McpKey]);
    PrintReadAuth(m[AuthKey], p);
  }

  /** Every accepted payload is exactly what its plan prints, and the plan is well-formed. */
  lemma AcceptedPayloadIsCanonical(w: World, v: Value)
    requires Stable(w) && FromPayload(w, v).Some?
    ensures ToPayload(FromPayload(w, v).value) == v
    ensures WellFormed(w, FromPayload(w, v).value)
  {
    var p := FromPayload(w, v).value;
    var m := v.members;
    ReadMembersOk(w, m, p.workerMcp);
    PrintedDocumentShape(p);
  }

  /** Reading and printing are mutually inverse on exactly the well-formed plans. */
  lemma ReadableIffWellFormed(w: World, p: Plan)
    requires Stable(w)
    ensures FromPayload(w, ToPayload(p)) == Some(p) <==> WellFormed(w, p)
  {
    if WellFormed(w, p) {
      PrintedPlanReadsBack(w, p);
    }
    if FromPayload(w, ToPayload(p)) == Some(p) {
      AcceptedPayloadIsCanonical(w, ToPayload(p));
    }
  }

  /** No two well-formed plans print alike. */
  lemma PrintingIsInjective(w: World, p: Plan, q: Plan)
    requires WellFormed(w, p) && WellFormed(w, q) && ToPayload(p) == ToPayload(q)
    ensures p == q
  {
    PrintedPlanReadsBack(w, p);
    PrintedPlanReadsBack(w, q);
  }

  /**
   A payload that passes every other check is refused by the final comparison with the
   plan's own print exactly when some server spells out the default approval mode.
   */
  lemma FinalCheckRefusesSpelledDefaults(w: World, v: Value)
    requires ReadPlan(w, v).Some?
    ensures FromPayload(w, v).None? <==> SomeSpellsDefault(v.members[McpKey])
  {
    PrintReadMembers(w, v.members, WorkerMcp in v.members);
  }
}
