/**
 The frozen role payload of `crates/agent-run-config/src/role_plan.rs`: its printer and
 its strict reader. JSON text is below this model; the payload is a JSON value.
 */
module RolePlan {
  import opened Common
  import opened Ordering
  import opened Roots

  /** Object keys: the spellings the payload uses, which are pairwise different, and any other text. */
  datatype Key =
    | RoleName | RoleRevision | Prompt | GrantsKey | SkillsKey | McpKey | RequiredConstraints | AuthKey
    | ConfigRevision | WorkerMcp | WriteKey | NetworkKey | AllowExternalReadRoots | ReadRootsKey
    | Id | RevisionKey | Transport | Command | Args | EnvFrom | ApprovalMode | AllowedTools | SelectionKey
    | Mode | Reference | OtherKey(text: string)

  datatype Value =
    | Null
    | Bool(b: bool)
    | Number(n: int)
    | Str(s: string)
    | Arr(items: seq<Value>)
    | Obj(members: map<Key, Value>)

  datatype Selection = Profile | Global | Both

  datatype Skill = Skill(id: string, revision: string)

  datatype Server = Server(
    id: string,
    transport: string,
    command: string,
    args: seq<string>,
    envFrom: seq<string>,
    approvalMode: string,
    allowedTools: Option<seq<string>>,
    selection: Selection)

  datatype Constraint =
    | WebToolsDisabled | ExternalNetworkIsolation | LoopbackTcpIsolation | UnixIpcIsolation | McpIpcIsolation
    | FilesystemWriteIsolation | FilesystemReadIsolation | PluginImmutability | ResearchToolsOnly

  datatype Plan = Plan(
    roleName: string,
    roleRevision: string,
    prompt: string,
    write: bool,
    network: bool,
    allowExternal: bool,
    readRoots: seq<Path>,
    skills: seq<Skill>,
    servers: seq<Server>,
    workerMcp: bool,
    constraints: set<Constraint>,
    authMode: string,
    authReference: Option<string>,
    configRevision: string)

  /** What the reader asks of its surroundings: `canonicalize` of a directory, and the payload digest. */
  datatype World = World(resolve: string -> Option<Path>, digest: Value -> string)

  // ----- Printing -----

  function Strs(xs: seq<string>): (v: Value)
    ensures v.Arr? && |v.items| == |xs| && forall i :: 0 <= i < |xs| ==> v.items[i] == Str(xs[i])
  {
    Arr(seq(|xs|, i requires 0 <= i < |xs| => Str(xs[i])))
  }

  /** An absolute path as text. */
  function ShowPath(p: Path): string
    decreases |p|
  {
    if p == [] then "/" else if |p| == 1 then "/" + p[0] else "/" + p[0] + ShowPath(p[1..])
  }

  function ShowPaths(ps: seq<Path>): (r: seq<string>)
    ensures |r| == |ps| && forall i :: 0 <= i < |ps| ==> r[i] == ShowPath(ps[i])
  {
    seq(|ps|, i requires 0 <= i < |ps| => ShowPath(ps[i]))
  }

  const ALL: seq<Constraint> := [
    WebToolsDisabled, ExternalNetworkIsolation, LoopbackTcpIsolation, UnixIpcIsolation, McpIpcIsolation,
    FilesystemWriteIsolation, FilesystemReadIsolation, PluginImmutability, ResearchToolsOnly]

  function ConstraintName(c: Constraint): string {
    match c
    case WebToolsDisabled => "web_tools_disabled"
    case ExternalNetworkIsolation => "external_network_isolation"
    case LoopbackTcpIsolation => "loopback_tcp_isolation"
    case UnixIpcIsolation => "unix_ipc_isolation"
    case McpIpcIsolation => "mcp_ipc_isolation"
    case FilesystemWriteIsolation => "filesystem_write_isolation"
    case FilesystemReadIsolation => "filesystem_read_isolation"
    case PluginImmutability => "plugin_immutability"
    case ResearchToolsOnly => "research_tools_only"
  }

  function ConstraintFrom(name: string): Option<Constraint> {
    if name == "web_tools_disabled" then Some(WebToolsDisabled)
    else if name == "external_network_isolation" then Some(ExternalNetworkIsolation)
    else if name == "loopback_tcp_isolation" then Some(LoopbackTcpIsolation)
    else if name == "unix_ipc_isolation" then Some(UnixIpcIsolation)
    else if name == "mcp_ipc_isolation" then Some(McpIpcIsolation)
    else if name == "filesystem_write_isolation" then Some(FilesystemWriteIsolation)
    else if name == "filesystem_read_isolation" then Some(FilesystemReadIsolation)
    else if name == "plugin_immutability" then Some(PluginImmutability)
    else if name == "research_tools_only" then Some(ResearchToolsOnly)
    else None
  }

  function NamesFrom(cs: set<Constraint>, all: seq<Constraint>): seq<string>
    decreases |all|
  {
    if all == [] then [] else
    (if all[0] in cs then [ConstraintName(all[0])] else []) + NamesFrom(cs, all[1..])
  }

  /** `sorted_constraint_names` */
  function SortedNames(cs: set<Constraint>): seq<string> {
    Collect(TextLess, NamesFrom(cs, ALL))
  }

  function SelectionText(s: Selection): string {
    match s
    case Profile => "profile"
    case Global => "global"
    case Both => "both"
  }

  function PrintSkill(s: Skill): Value {
    Obj(map[Id := Str(s.id), RevisionKey := Str(s.revision)])
  }

  /** Defaults are left out, so historical payloads keep their bytes. */
  function PrintServer(s: Server): Value {
    var base := map[Id := Str(s.id), Transport := Str(s.transport), Command := Str(s.command),
                    Args := Strs(s.args), EnvFrom := Strs(s.envFrom)];
    var approval := if s.approvalMode != "auto" then base[ApprovalMode := Str(s.approvalMode)] else base;
    var tools := if s.allowedTools.Some? then approval[AllowedTools := Strs(s.allowedTools.value)] else approval;
    Obj(if s.selection != Profile then tools[SelectionKey := Str(SelectionText(s.selection))] else tools)
  }

  function PrintSkills(xs: seq<Skill>): (r: seq<Value>)
    ensures |r| == |xs| && forall i :: 0 <= i < |xs| ==> r[i] == PrintSkill(xs[i])
  {
    seq(|xs|, i requires 0 <= i < |xs| => PrintSkill(xs[i]))
  }

  function PrintServers(xs: seq<Server>): (r: seq<Value>)
    ensures |r| == |xs| && forall i :: 0 <= i < |xs| ==> r[i] == PrintServer(xs[i])
  {
    seq(|xs|, i requires 0 <= i < |xs| => PrintServer(xs[i]))
  }

  function PrintGrants(p: Plan): Value {
    Obj(map[WriteKey := Bool(p.write), NetworkKey := Bool(p.network),
            AllowExternalReadRoots := Bool(p.allowExternal), ReadRootsKey := Strs(ShowPaths(p.readRoots))])
  }

  function PrintAuth(p: Plan): Value {
    Obj(map[Mode := Str(p.authMode), Reference := if p.authReference.Some? then Str(p.authReference.value) else Null])
  }

  /** The printed members every document has besides its derived revision. */
  datatype Parts = Parts(
    name: Value, revision: Value, prompt: Value, grants: Value, skills: Value, servers: Value, constraints: Value,
    auth: Value)

  function PrintParts(p: Plan): Parts {
    Parts(Str(p.roleName), Str(p.roleRevision), Str(p.prompt), PrintGrants(p), Arr(PrintSkills(p.skills)),
          Arr(PrintServers(p.servers)), Strs(SortedNames(p.constraints)), PrintAuth(p))
  }

  function Assemble(x: Parts, worker: bool): map<Key, Value> {
    var base := map[RoleName := x.name, RoleRevision := x.revision, Prompt := x.prompt, GrantsKey := x.grants,
                    SkillsKey := x.skills, McpKey := x.servers, RequiredConstraints := x.constraints,
                    AuthKey := x.auth];
    if worker then base[WorkerMcp := Bool(true)] else base
  }

  /** `canonical_payload`, without its derived revision. */
  function CanonicalMembers(p: Plan): map<Key, Value> {
    Assemble(PrintParts(p), p.workerMcp)
  }

  /** `to_payload` */
  function ToPayload(p: Plan): Value {
    Obj(CanonicalMembers(p)[ConfigRevision := Str(p.configRevision)])
  }

  // ----- Reading -----

  /** Unicode white space, as `str::trim` removes it. */
  predicate White(c: char) {
    var n := c as int;
    || 9 <= n <= 13 || n == 32 || n == 0x85 || n == 0xA0 || n == 0x1680
    || 0x2000 <= n <= 0x200A || n == 0x2028 || n == 0x2029 || n == 0x202F || n == 0x205F || n == 0x3000
  }

  predicate Blank(s: string) {
    forall i :: 0 <= i < |s| ==> White(s[i])
  }

  predicate NoNul(s: string) {
    forall i :: 0 <= i < |s| ==> s[i] != '\0'
  }

  predicate TextOk(s: string, blank: bool) {
    NoNul(s) && (blank || !Blank(s))
  }

  /** `text` */
  function ReadText(v: Value, blank: bool): Option<string> {
    if v.Str? && TextOk(v.s, blank) then Some(v.s) else None
  }

  predicate StringsOk(xs: seq<string>, unique: bool) {
    (forall i :: 0 <= i < |xs| ==> NoNul(xs[i])) && (unique ==> Unique(xs))
  }

  /** `strings` */
  function ReadStrings(v: Value, unique: bool): Option<seq<string>> {
    if v.Arr? && forall i :: 0 <= i < |v.items| ==> v.items[i].Str? then
      var xs := seq(|v.items|, i requires 0 <= i < |v.items| => v.items[i].s);
      if StringsOk(xs, unique) then Some(xs) else None
    else None
  }

  predicate HasExactly(v: Value, keys: set<Key>) {
    v.Obj? && v.members.Keys == keys
  }

  predicate Letter(c: char) { 'a' <= c <= 'z' || 'A' <= c <= 'Z' }
  predicate Digit(c: char) { '0' <= c <= '9' }

  /** `config::name` */
  predicate ConfigId(s: string) {
    && s != "" && (Letter(s[0]) || Digit(s[0]))
    && forall i :: 0 <= i < |s| ==> Letter(s[i]) || Digit(s[i]) || s[i] in {'_', '.', '-'}
  }

  predicate Account(s: string) {
    1 <= |s| <= 32 && forall i :: 0 <= i < |s| ==> 'a' <= s[i] <= 'z' || Digit(s[i]) || s[i] in {'_', '-'}
  }

  predicate EnvName(s: string) {
    && s != "" && ('A' <= s[0] <= 'Z' || s[0] == '_')
    && forall i :: 0 <= i < |s| ==> 'A' <= s[i] <= 'Z' || Digit(s[i]) || s[i] == '_'
  }

  predicate Sha256Hex(s: string) {
    |s| == 64 && forall i :: 0 <= i < |s| ==> Digit(s[i]) || 'a' <= s[i] <= 'f'
  }

  predicate ToolName(s: string) {
    1 <= |s| <= 128 && forall i :: 0 <= i < |s| ==> Letter(s[i]) || Digit(s[i]) || s[i] in {'_', '.', '-'}
  }

  const MAX_ALLOWED_TOOLS: nat := 1024

  /** `validate_allowed_tools` */
  predicate AllowedToolsOk(tools: seq<string>) {
    |tools| <= MAX_ALLOWED_TOOLS && Unique(tools) && forall i :: 0 <= i < |tools| ==> ToolName(tools[i])
  }

  predicate Increasing(tools: seq<string>) {
    forall i :: 0 <= i < |tools| - 1 ==> TextLess(tools[i], tools[i + 1])
  }

  /** Components between slashes, with empty and `.` ones dropped. */
  function Components(s: string, current: string): seq<string>
    decreases |s|
  {
    if s == "" then Component(current)
    else if s[0] == '/' then Component(current) + Components(s[1..], "")
    else Components(s[1..], current + [s[0]])
  }

  function Component(c: string): seq<string> {
    if c == "" || c == "." then [] else [c]
  }

  function Collapse(cs: seq<string>, stack: seq<string>): seq<string>
    decreases |cs|
  {
    if cs == [] then stack
    else if cs[0] == ".." then Collapse(cs[1..], if stack == [] then [] else stack[..|stack| - 1])
    else Collapse(cs[1..], stack + [cs[0]])
  }

  /** `lexical_absolute`: an absolute command already written in canonical form. */
  predicate CanonicalCommand(s: string) {
    s != "" && s[0] == '/' && ShowPath(Collapse(Components(s, ""), [])) == s
  }

  predicate ApprovalModeOk(mode: string) {
    mode in {"auto", "prompt", "writes", "approve"}
  }

  function ReadSkill(v: Value): Option<Skill> {
    if !HasExactly(v, {Id, RevisionKey}) then None else
    var id, revision := ReadText(v.members[Id], false), ReadText(v.members[RevisionKey], false);
    if id.None? || revision.None? || !ConfigId(id.value) || !Sha256Hex(revision.value) then None
    else Some(Skill(id.value, revision.value))
  }

  const BASE: set<Key> := {Id, Transport, Command, Args, EnvFrom}
  const OPTIONAL: set<Key> := {ApprovalMode, AllowedTools, SelectionKey}

  function ReadApproval(m: map<Key, Value>): Option<string> {
    if ApprovalMode in m then ReadText(m[ApprovalMode], false) else Some("auto")
  }

  /** `Some(None)` is a server without a cap. */
  function ReadTools(m: map<Key, Value>): Option<Option<seq<string>>> {
    if AllowedTools !in m then Some(None) else
    var tools := ReadStrings(m[AllowedTools], false);
    if tools.None? || !Increasing(tools.value) || !AllowedToolsOk(tools.value) then None else Some(tools)
  }

  function ReadSelection(m: map<Key, Value>): Option<Selection> {
    if SelectionKey !in m then Some(Profile) else
    var text := ReadText(m[SelectionKey], false);
    if text == Some("global") then Some(Global) else if text == Some("both") then Some(Both) else None
  }

  function ReadServer(v: Value): Option<Server> {
    if !(v.Obj? && BASE <= v.members.Keys <= BASE + OPTIONAL) then None else
    var m := v.members;
    var id, transport, command := ReadText(m[Id], false), ReadText(m[Transport], false), ReadText(m[Command], false);
    var args, envFrom := ReadStrings(m[Args], false), ReadStrings(m[EnvFrom], true);
    var approval, tools, selection := ReadApproval(m), ReadTools(m), ReadSelection(m);
    if id.None? || transport.None? || command.None? || args.None? || envFrom.None?
       || approval.None? || tools.None? || selection.None? then None
    else if !ConfigId(id.value) || transport.value != "stdio" || !CanonicalCommand(command.value)
       || !(forall i :: 0 <= i < |envFrom.value| ==> EnvName(envFrom.value[i])) || !ApprovalModeOk(approval.value)
    then None
    else Some(Server(id.value, transport.value, command.value, args.value, envFrom.value,
                     approval.value, tools.value, selection.value))
  }

  function ReadEach<T>(read: Value -> Option<T>, items: seq<Value>): Option<seq<T>>
    decreases |items|
  {
    if items == [] then Some([]) else
    var first, rest := read(items[0]), ReadEach(read, items[1..]);
    if first.None? || rest.None? then None else Some([first.value] + rest.value)
  }

  function ServerIds(xs: seq<Server>): (r: seq<string>)
    ensures |r| == |xs| && forall i :: 0 <= i < |xs| ==> r[i] == xs[i].id
  {
    seq(|xs|, i requires 0 <= i < |xs| => xs[i].id)
  }

  function SkillIds(xs: seq<Skill>): (r: seq<string>)
    ensures |r| == |xs| && forall i :: 0 <= i < |xs| ==> r[i] == xs[i].id
  {
    seq(|xs|, i requires 0 <= i < |xs| => xs[i].id)
  }

  function ReadSkills(v: Value): Option<seq<Skill>> {
    if !v.Arr? then None else
    var xs := ReadEach(ReadSkill, v.items);
    if xs.None? || !Unique(SkillIds(xs.value)) then None else xs
  }

  function ReadServers(v: Value): Option<seq<Server>> {
    if !v.Arr? then None else
    var xs := ReadEach(ReadServer, v.items);
    if xs.None? || !Unique(ServerIds(xs.value)) then None else xs
  }

  function ResolveEach(w: World, values: seq<string>): Option<seq<Path>>
    decreases |values|
  {
    if values == [] then Some([]) else
    var first, rest := w.resolve(values[0]), ResolveEach(w, values[1..]);
    if values[0] == "" || values[0][0] != '/' || first.None? || rest.None? then None
    else Some([first.value] + rest.value)
  }

  /** `normalize_and_validate_roots`: the list must already be the antichain it collapses to. */
  function ReadRoots(w: World, values: seq<string>): Option<seq<Path>> {
    var resolved := ResolveEach(w, values);
    if resolved.None? then None else
    var normalized := NormalizeRoots(resolved.value);
    if ShowPaths(normalized) == values then Some(normalized) else None
  }

  function ConstraintsOf(names: seq<string>): Option<set<Constraint>>
    decreases |names|
  {
    if names == [] then Some({}) else
    var first, rest := ConstraintFrom(names[0]), ConstraintsOf(names[1..]);
    if first.None? || rest.None? then None else Some({first.value} + rest.value)
  }

  function ReadConstraints(v: Value): Option<set<Constraint>> {
    var names := ReadStrings(v, false);
    if names.None? then None else
    var cs := ConstraintsOf(names.value);
    if cs.None? || SortedNames(cs.value) != names.value then None else cs
  }

  datatype Grants = Grants(write: bool, network: bool, allowExternal: bool, readRoots: seq<Path>)

  function ReadGrants(w: World, v: Value): Option<Grants> {
    if !HasExactly(v, {WriteKey, NetworkKey, AllowExternalReadRoots, ReadRootsKey}) then None else
    var write, network, external := v.members[WriteKey], v.members[NetworkKey], v.members[AllowExternalReadRoots];
    var values := ReadStrings(v.members[ReadRootsKey], true);
    if !write.Bool? || !network.Bool? || !external.Bool? || values.None? then None else
    var roots := ReadRoots(w, values.value);
    if roots.None? || (roots.value != [] && !external.b) then None
    else Some(Grants(write.b, network.b, external.b, roots.value))
  }

  datatype Auth = Auth(mode: string, reference: Option<string>)

  predicate AuthOk(mode: string, reference: Option<string>) {
    && mode in {"global", "account"}
    && (mode == "account" <==> reference.Some?)
    && (reference.Some? ==> Account(reference.value))
  }

  function ReadAuth(v: Value): Option<Auth> {
    if !HasExactly(v, {Mode, Reference}) then None else
    var mode, raw := ReadText(v.members[Mode], false), v.members[Reference];
    var reference := if raw.Null? then None else ReadText(raw, false);
    if mode.None? || (!raw.Null? && reference.None?) || !AuthOk(mode.value, reference) then None
    else Some(Auth(mode.value, reference))
  }

  const KEYS: set<Key> := {
    RoleName, RoleRevision, Prompt, GrantsKey, SkillsKey, McpKey, RequiredConstraints, AuthKey, ConfigRevision}

  /** What a research role may never widen. */
  predicate ResearchOk(p: Plan) {
    ResearchToolsOnly in p.constraints ==>
      && !p.write && p.network && !p.allowExternal && p.readRoots == [] && p.servers == [] && p.workerMcp
      && forall i :: 0 <= i < |p.skills| ==> p.skills[i].id == "role-research"
  }

  /** The members of the document, each read on its own. */
  function ReadMembers(w: World, m: map<Key, Value>, worker: bool): Option<Plan>
    requires KEYS <= m.Keys
  {
    var name, revision := ReadText(m[RoleName], false), ReadText(m[RoleRevision], false);
    var prompt, config := ReadText(m[Prompt], false), ReadText(m[ConfigRevision], false);
    var grants, skills, servers := ReadGrants(w, m[GrantsKey]), ReadSkills(m[SkillsKey]), ReadServers(m[McpKey]);
    var constraints, auth := ReadConstraints(m[RequiredConstraints]), ReadAuth(m[AuthKey]);
    if name.None? || revision.None? || prompt.None? || config.None? || grants.None? || skills.None?
       || servers.None? || constraints.None? || auth.None? then None
    else Some(Plan(name.value, revision.value, prompt.value, grants.value.write, grants.value.network,
                   grants.value.allowExternal, grants.value.readRoots, skills.value, servers.value, worker,
                   constraints.value, auth.value.mode, auth.value.reference, config.value))
  }

  predicate KeysOk(m: map<Key, Value>) {
    if WorkerMcp in m then m[WorkerMcp] == Bool(true) && m.Keys == KEYS + {WorkerMcp} else m.Keys == KEYS
  }

  /** The checks on the plan as a whole: its name, its derived revision and the research limits. */
  predicate PlanOk(w: World, m: map<Key, Value>, p: Plan) {
    && ConfigId(p.roleName)
    && Sha256Hex(p.configRevision) && p.configRevision == w.digest(Obj(m - {ConfigRevision}))
    && ResearchOk(p)
  }

  /** Everything `from_payload` checks before it compares with what the plan would print. */
  function ReadPlan(w: World, payload: Value): Option<Plan> {
    if !payload.Obj? || !KeysOk(payload.members) then None else
    var m := payload.members;
    var plan := ReadMembers(w, m, WorkerMcp in m);
    if plan.None? || !PlanOk(w, m, plan.value) then None else plan
  }

  /** `from_payload` */
  function FromPayload(w: World, payload: Value): Option<Plan> {
    var plan := ReadPlan(w, payload);
    if plan.None? || ToPayload(plan.value) != payload then None else plan
  }
}
