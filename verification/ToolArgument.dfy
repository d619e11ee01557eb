/**
 Building the native deny argument in `crates/agent-run-adapters/src/mcp_catalog.rs`.
 Text stands for its UTF-8 bytes, one character per byte.
 */
module ToolArgument {
  import opened Common
  import opened Ordering
  import opened ToolFilter

  /** A selected server: its allowlist, and what discovery finds if it can be reached at all. */
  datatype Server = Server(id: string, allowed: Option<seq<string>>, reachable: bool, pages: seq<Page>)

  function Discover(server: Server): Option<seq<string>> {
    if server.reachable then Catalog(server.pages, MAX_PAGES, [], []) else None
  }

  predicate AllIn(a: seq<string>, b: seq<string>) {
    forall i :: 0 <= i < |a| ==> a[i] in b
  }

  predicate AllLiteral(a: seq<string>) {
    forall i :: 0 <= i < |a| ==> LiteralName(a[i])
  }

  /** Rules for the tools not allowed join the ordered set. */
  function DenyTools(denied: seq<string>, id: string, tools: seq<string>, allowed: seq<string>): seq<string>
    decreases |tools|
  {
    if tools == [] then denied else
    var n := |tools| - 1;
    var before := DenyTools(denied, id, tools[..n], allowed);
    if tools[n] in allowed then before else Insert(TextLess, before, Rule(id, tools[n]))
  }

  function RuleBytes(denied: seq<string>): nat
    decreases |denied|
  {
    if denied == [] then 0 else |denied[0]| + 1 + RuleBytes(denied[1..])
  }

  /** One server's turn of the loop over the selection. */
  function DenyServer(denied: seq<string>, server: Server): Option<seq<string>> {
    if server.allowed.None? then Some(denied) else
    var allowed := server.allowed.value;
    if !AllLiteral(allowed) then None
    else if allowed == [] then Some(Insert(TextLess, denied, Rule(server.id, "*")))
    else
      var catalog := Discover(server);
      if catalog.None? || !AllIn(allowed, catalog.value) then None else
      var more := DenyTools(denied, server.id, catalog.value, allowed);
      if |more| > MAX_TOOLS || RuleBytes(more) > MAX_RULE_BYTES then None else Some(more)
  }

  function DenyServers(servers: seq<Server>): Option<seq<string>>
    decreases |servers|
  {
    if servers == [] then Some([]) else
    var n := |servers| - 1;
    var before := DenyServers(servers[..n]);
    if before.None? then None else DenyServer(before.value, servers[n])
  }

  /** Appends each rule after a comma, except to an empty argument. */
  function Render(argument: string, rules: seq<string>): string
    decreases |rules|
  {
    if rules == [] then argument
    else Render((if argument == "" then "" else argument + ",") + rules[0], rules[1..])
  }

  const FLAG := "--disallowedTools"

  /** Positions after each occurrence of the flag. */
  function Positions(args: seq<string>): seq<nat>
    decreases |args|
  {
    if args == [] then [] else
    Positions(args[..|args| - 1]) + if args[|args| - 1] == FLAG then [|args|] else []
  }

  predicate Restricted(servers: seq<Server>) {
    exists i :: 0 <= i < |servers| && servers[i].allowed.Some?
  }

  predicate AllNamed(servers: seq<Server>) {
    forall i :: 0 <= i < |servers| ==> ServerName(servers[i].id)
  }

  /** `apply_filters`: the new arguments, or nothing when it refuses. */
  function Filtered(servers: seq<Server>, args: seq<string>): Option<seq<string>> {
    if !Restricted(servers) then Some(args)
    else if !AllNamed(servers) then None else
    var positions := Positions(args);
    if |positions| != 1 || positions[0] >= |args| then None else
    var denied := DenyServers(servers);
    if denied.None? || |denied.value| > MAX_TOOLS then None else
    var argument := Render(args[positions[0]], denied.value);
    if |argument| > MAX_RULE_BYTES then None else Some(args[positions[0] := argument])
  }

  // ----- What is denied -----

  /** Why a rule is in the set. */
  ghost predicate Wanted(server: Server, rule: string) {
    server.allowed.Some? &&
    if server.allowed.value == [] then rule == Rule(server.id, "*")
    else Discover(server).Some? &&
         exists t :: t in Discover(server).value && t !in server.allowed.value && rule == Rule(server.id, t)
  }

  ghost predicate WantedBySome(servers: seq<Server>, rule: string) {
    exists i :: 0 <= i < |servers| && Wanted(servers[i], rule)
  }

  lemma {:induction false} DenyToolsAdds(denied: seq<string>, id: string, tools: seq<string>, allowed: seq<string>,
                                         rule: string)
    ensures rule in DenyTools(denied, id, tools, allowed) <==>
      rule in denied || exists t :: t in tools && t !in allowed && rule == Rule(id, t)
    ensures Sorted(TextLess, denied) ==> Sorted(TextLess, DenyTools(denied, id, tools, allowed))
    decreases |tools|
  {
    if tools != [] {
      var n := |tools| - 1;
      DenyToolsAdds(denied, id, tools[..n], allowed, rule);
      var before := DenyTools(denied, id, tools[..n], allowed);
      assert tools == tools[..n] + [tools[n]];
      InsertAdds(TextLess, before, Rule(id, tools[n]));
      TextLessIsStrict();
      if Sorted(TextLess, before) {
        InsertKeepsSorted(TextLess, before, Rule(id, tools[n]));
      }
    }
  }

  lemma DenyServerAdds(denied: seq<string>, server: Server, rule: string)
    requires Sorted(TextLess, denied) && DenyServer(denied, server).Some?
    ensures rule in DenyServer(denied, server).value <==> rule in denied || Wanted(server, rule)
    ensures Sorted(TextLess, DenyServer(denied, server).value)
  {
    if server.allowed.Some? {
      if server.allowed.value == [] {
        TextLessIsStrict();
        InsertAdds(TextLess, denied, Rule(server.id, "*"));
        InsertKeepsSorted(TextLess, denied, Rule(server.id, "*"));
      } else {
        DenyToolsAdds(denied, server.id, Discover(server).value, server.allowed.value, rule);
      }
    }
  }

  lemma WantedByLast(servers: seq<Server>, rule: string)
    requires servers != []
    ensures var n := |servers| - 1;
      WantedBySome(servers, rule) <==> WantedBySome(servers[..n], rule) || Wanted(servers[n], rule)
  {
    var n := |servers| - 1;
    if i :| 0 <= i < |servers| && Wanted(servers[i], rule) {
      assert i < n ==> servers[..n][i] == servers[i];
    }
    if i :| 0 <= i < n && Wanted(servers[..n][i], rule) {
      assert servers[..n][i] == servers[i];
    }
  }

  lemma {:induction false} DenyServersAdds(servers: seq<Server>, rule: string)
    requires DenyServers(servers).Some?
    ensures rule in DenyServers(servers).value <==> WantedBySome(servers, rule)
    ensures Sorted(TextLess, DenyServers(servers).value)
    decreases |servers|
  {
    if servers != [] {
      var n := |servers| - 1;
      DenyServersAdds(servers[..n], rule);
      DenyServerAdds(DenyServers(servers[..n]).value, servers[n], rule);
      WantedByLast(servers, rule);
    }
  }

  /** A server that took part in a success passed its own checks. */
  lemma {:induction false} SuccessMeansKnown(servers: seq<Server>, k: nat)
    requires DenyServers(servers).Some? && k < |servers| && servers[k].allowed.Some?
    ensures AllLiteral(servers[k].allowed.value)
    ensures servers[k].allowed.value != [] ==>
      Discover(servers[k]).Some? && AllIn(servers[k].allowed.value, Discover(servers[k]).value)
    decreases |servers|
  {
    var n := |servers| - 1;
    if k < n {
      SuccessMeansKnown(servers[..n], k);
    }
  }

  /** The tools of a server that its allowlist leaves out. */
  ghost predicate LeftOut(server: Server, tool: string) {
    server.allowed.Some? &&
    (server.allowed.value == [] ||
     (Discover(server).Some? && tool in Discover(server).value && tool !in server.allowed.value))
  }

  /** Some selected server of this name leaves the tool out. */
  ghost predicate LeftOutBySome(servers: seq<Server>, b: string, tool: string) {
    exists k :: 0 <= k < |servers| && servers[k].id == b && LeftOut(servers[k], tool)
  }

  lemma DiscoveredIsLiteral(server: Server, t: string)
    requires Discover(server).Some? && t in Discover(server).value
    ensures LiteralName(t)
  {
    var n := CatalogIsDisjointUnion(server.pages);
  }

  /** A rule wanted for server `i` denies a tool of any server exactly when it is about that tool. */
  lemma WantedRuleDenies(servers: seq<Server>, i: nat, rule: string, b: string, tool: string)
    requires AllNamed(servers) && i < |servers| && ServerName(b)
    requires Wanted(servers[i], rule) && Denies(rule, Rule(b, tool))
    ensures servers[i].id == b && LeftOut(servers[i], tool)
  {
    var a := servers[i].id;
    if servers[i].allowed.value == [] {
      ServerRuleDenies(a, b, tool);
    } else {
      var t :| t in Discover(servers[i]).value && t !in servers[i].allowed.value && rule == Rule(a, t);
      DiscoveredIsLiteral(servers[i], t);
      ToolRuleDenies(a, t, b, tool);
    }
  }

  /** The denied set is the exact complement: for every server name and every tool, selected or not. */
  lemma DeniedExactly(servers: seq<Server>, b: string, tool: string)
    requires AllNamed(servers) && DenyServers(servers).Some? && ServerName(b)
    ensures DeniedBy(DenyServers(servers).value, Rule(b, tool)) <==> LeftOutBySome(servers, b, tool)
  {
    var denied := DenyServers(servers).value;
    var name := Rule(b, tool);
    if DeniedBy(denied, name) {
      var e :| 0 <= e < |denied| && Denies(denied[e], name);
      DenyServersAdds(servers, denied[e]);
      var i :| 0 <= i < |servers| && Wanted(servers[i], denied[e]);
      WantedRuleDenies(servers, i, denied[e], b, tool);
    }
    if k :| 0 <= k < |servers| && servers[k].id == b && LeftOut(servers[k], tool) {
      var rule := if servers[k].allowed.value == [] then Rule(b, "*") else name;
      DenyServersAdds(servers, rule);
      assert Wanted(servers[k], rule);
      assert rule in denied;
      if servers[k].allowed.value == [] {
        ServerRuleDenies(b, b, tool);
      }
    }
  }

  // ----- What the argument says -----

  /** The entries of a comma-separated argument; an empty one has none. */
  function Entries(argument: string): seq<string> {
    if argument == "" then [] else Split(argument, ',')
  }

  lemma SplitAppend(a: string, b: string)
    requires ',' !in b
    ensures Split(a + "," + b, ',') == Split(a, ',') + [b]
  {
    SplitConcat(a, b, ',');
    SplitAlone(b, ',');
  }

  ghost predicate CommaFree(rules: seq<string>) {
    forall i :: 0 <= i < |rules| ==> rules[i] != "" && ',' !in rules[i]
  }

  lemma {:induction false} RenderEntries(argument: string, rules: seq<string>)
    requires CommaFree(rules)
    ensures Entries(Render(argument, rules)) == Entries(argument) + rules
    decreases |rules|
  {
    if rules == [] {
      assert Entries(argument) + rules == Entries(argument);
    } else {
      var next := (if argument == "" then "" else argument + ",") + rules[0];
      if argument == "" {
        assert next == rules[0];
        SplitAlone(next, ',');
      } else {
        SplitAppend(argument, rules[0]);
      }
      RenderEntries(next, rules[1..]);
      ConcatAssoc(Entries(argument), [rules[0]], rules[1..]);
      assert [rules[0]] + rules[1..] == rules;
    }
  }

  lemma RuleIsCommaFree(id: string, tool: string)
    requires ServerName(id) && (LiteralName(tool) || tool == "*")
    ensures ',' !in Rule(id, tool)
  {
    var r := Rule(id, tool);
    assert r == "mcp__" + id + "__" + tool;
    assert forall k :: 0 <= k < |id| ==> WordChar(id[k]);
    assert forall k :: 0 <= k < |tool| ==> tool[k] != ',';
  }

  lemma DeniedIsCommaFree(servers: seq<Server>)
    requires AllNamed(servers) && DenyServers(servers).Some?
    ensures CommaFree(DenyServers(servers).value)
  {
    var denied := DenyServers(servers).value;
    forall e | 0 <= e < |denied| ensures denied[e] != "" && ',' !in denied[e] {
      DenyServersAdds(servers, denied[e]);
      var i :| 0 <= i < |servers| && Wanted(servers[i], denied[e]);
      if servers[i].allowed.value == [] {
        RuleIsCommaFree(servers[i].id, "*");
      } else {
        var t :| t in Discover(servers[i]).value && t !in servers[i].allowed.value &&
          denied[e] == Rule(servers[i].id, t);
        DiscoveredIsLiteral(servers[i], t);
        RuleIsCommaFree(servers[i].id, t);
      }
    }
  }

  lemma {:induction false} PositionsFollowFlag(args: seq<string>, p: nat)
    ensures p in Positions(args) <==> 0 < p <= |args| && args[p - 1] == FLAG
    decreases |args|
  {
    if args != [] {
      var n := |args| - 1;
      PositionsFollowFlag(args[..n], p);
    }
  }

  /** The argument denies a tool exactly when it did before or some selected server of that name leaves the tool out. */
  ghost predicate DeniedAfter(servers: seq<Server>, before: string, after: string, b: string, tool: string) {
    var name := Rule(b, tool);
    DeniedBy(Entries(after), name) <==> DeniedBy(Entries(before), name) || LeftOutBySome(servers, b, tool)
  }

  lemma DeniedByEither(a: seq<string>, b: seq<string>, name: string)
    ensures DeniedBy(a + b, name) <==> DeniedBy(a, name) || DeniedBy(b, name)
  {
    if i :| 0 <= i < |a| && Denies(a[i], name) {
      assert (a + b)[i] == a[i];
    }
    if i :| 0 <= i < |b| && Denies(b[i], name) {
      assert (a + b)[|a| + i] == b[i];
    }
  }

  lemma OnlyFlag(args: seq<string>) returns (at: nat)
    requires |Positions(args)| == 1 && Positions(args)[0] < |args|
    ensures at == Positions(args)[0] && 0 < at < |args| && args[at - 1] == FLAG
    ensures forall i :: 0 <= i < |args| && args[i] == FLAG ==> i == at - 1
  {
    at := Positions(args)[0];
    assert at in Positions(args);
    PositionsFollowFlag(args, at);
    forall i | 0 <= i < |args| && args[i] == FLAG ensures i == at - 1 {
      PositionsFollowFlag(args, i + 1);
    }
  }

  /**
   When filtering succeeds and something is restricted: exactly one argument changes, the one
   after the flag; its entries are the old ones followed by the strictly sorted new rules; and the
   argument as a whole denies a tool of any server, selected or not and whatever the tool is called,
   exactly when the old argument did or a selected server of that name leaves the tool out.
   */
  lemma FilterIsExactComplement(servers: seq<Server>, args: seq<string>) returns (at: nat)
    requires Restricted(servers) && Filtered(servers, args).Some?
    ensures 0 < at < |args| && args[at - 1] == FLAG && DenyServers(servers).Some?
    ensures forall i :: 0 <= i < |args| && args[i] == FLAG ==> i == at - 1
    ensures var after, denied := Filtered(servers, args).value, DenyServers(servers).value;
      && |after| == |args|
      && (forall i :: 0 <= i < |args| && i != at ==> after[i] == args[i])
      && Entries(after[at]) == Entries(args[at]) + denied
      && Sorted(TextLess, denied)
      && (forall b, tool :: ServerName(b) ==> DeniedAfter(servers, args[at], after[at], b, tool))
  {
    at := OnlyFlag(args);
    DeniedIsCommaFree(servers);
    var before, denied := args[at], DenyServers(servers).value;
    RenderEntries(before, denied);
    DenyServersAdds(servers, "");
    forall b, tool | ServerName(b) ensures DeniedAfter(servers, before, Filtered(servers, args).value[at], b, tool) {
      DeniedExactly(servers, b, tool);
      DeniedByEither(Entries(before), denied, Rule(b, tool));
    }
  }

  /** A server keeps a tool that every selected server of its name allows; with none, it keeps them all. */
  lemma OthersKeepTheirTools(servers: seq<Server>, b: string, tool: string)
    requires AllNamed(servers) && DenyServers(servers).Some? && ServerName(b)
    requires forall k :: 0 <= k < |servers| && servers[k].id == b && servers[k].allowed.Some? ==>
      tool in servers[k].allowed.value
    ensures !DeniedBy(DenyServers(servers).value, Rule(b, tool))
  {
    DeniedExactly(servers, b, tool);
  }

  /** The built-in worker server, which no role lists, loses no tool. */
  lemma WorkerKeepsItsTools(servers: seq<Server>, tool: string)
    requires AllNamed(servers) && DenyServers(servers).Some?
    requires forall k :: 0 <= k < |servers| ==> servers[k].id != SERVER_NAME
    ensures !DeniedBy(DenyServers(servers).value, Rule(SERVER_NAME, tool))
  {
    WorkerIsAServerName();
    OthersKeepTheirTools(servers, SERVER_NAME, tool);
  }

  lemma WorkerIsAServerName()
    ensures ServerName(SERVER_NAME)
  {
    assert SERVER_NAME[5] == '_' && SERVER_NAME[9] == '_';
  }

  // ----- In place -----

  class LaunchPlan {
    var args: seq<string>

    constructor (args: seq<string>)
      ensures this.args == args
    {
      this.args := args;
    }

    /** Changes the argument only after every server and every limit passed. */
    method ApplyFilters(servers: seq<Server>) returns (ok: bool)
      modifies this
      ensures ok <==> Filtered(servers, old(args)).Some?
      ensures args == if ok then Filtered(servers, old(args)).value else old(args)
    {
      if !Restricted(servers) {
        return true;
      }
      if !AllNamed(servers) {
        return false;
      }
      var positions := Positions(args);
      if |positions| != 1 || positions[0] >= |args| {
        return false;
      }
      var denied := Gather(servers);
      if denied.None? || |denied.value| > MAX_TOOLS {
        return false;
      }
      var argument := args[positions[0]];
      for i := 0 to |denied.value|
        invariant Render(argument, denied.value[i..]) == Render(args[positions[0]], denied.value)
      {
        if argument != "" {
          argument := argument + ",";
        }
        argument := argument + denied.value[i];
        assert denied.value[i..][1..] == denied.value[i + 1..];
      }
      assert denied.value[|denied.value|..] == [];
      if |argument| > MAX_RULE_BYTES {
        return false;
      }
      args := args[positions[0] := argument];
      ok := true;
    }

    /** The loop over the selected servers. */
    method Gather(servers: seq<Server>) returns (denied: Option<seq<string>>)
      ensures denied == DenyServers(servers)
    {
      denied := Some([]);
      for i := 0 to |servers|
        invariant denied == DenyServers(servers[..i])
      {
        assert servers[..i + 1][..i] == servers[..i];
        if denied.Some? {
          denied := DenyServer(denied.value, servers[i]);
        }
      }
      assert servers[..|servers|] == servers;
    }
  }
}
