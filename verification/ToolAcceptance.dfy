/** Exactly when the tool filter succeeds, and the argument it then writes. */
module ToolAcceptance {
  import opened Common
  import opened Ordering
  import opened ToolFilter
  import opened ToolArgument

  /** The rules for the tools among these that are not allowed. */
  function RulesFor(id: string, tools: seq<string>, allowed: seq<string>): seq<string> {
    if tools == [] then [] else
    var n := |tools| - 1;
    RulesFor(id, tools[..n], allowed) + if tools[n] in allowed then [] else [Rule(id, tools[n])]
  }

  lemma {:induction false} RulesForAre(id: string, tools: seq<string>, allowed: seq<string>, rule: string)
    ensures rule in RulesFor(id, tools, allowed) <==> exists t :: t in tools && t !in allowed && rule == Rule(id, t)
  {
    if tools != [] {
      var n := |tools| - 1;
      RulesForAre(id, tools[..n], allowed, rule);
      SplitLast(tools);
    }
  }

  /** One server's rules: none when unrestricted, a star when nothing is allowed, else one per tool left out. */
  function ServerRules(s: Server): seq<string> {
    if s.allowed.None? then []
    else if s.allowed.value == [] then [Rule(s.id, "*")]
    else if Discover(s).None? then []
    else RulesFor(s.id, Discover(s).value, s.allowed.value)
  }

  function AllRules(servers: seq<Server>): seq<string> {
    if servers == [] then [] else AllRules(servers[..|servers| - 1]) + ServerRules(servers[|servers| - 1])
  }

  /** The deny rules of a selection, as an ordered set. */
  function Rules(servers: seq<Server>): seq<string> {
    Collect(TextLess, AllRules(servers))
  }

  lemma ServerRulesAre(s: Server, rule: string)
    ensures rule in ServerRules(s) <==> Wanted(s, rule)
  {
    if s.allowed.Some? && s.allowed.value != [] && Discover(s).Some? {
      RulesForAre(s.id, Discover(s).value, s.allowed.value, rule);
    }
  }

  lemma {:induction false} AllRulesAre(servers: seq<Server>, rule: string)
    ensures rule in AllRules(servers) <==> WantedBySome(servers, rule)
    decreases |servers|
  {
    if servers != [] {
      var n := |servers| - 1;
      AllRulesAre(servers[..n], rule);
      ServerRulesAre(servers[n], rule);
      WantedByLast(servers, rule);
    }
  }

  lemma RulesAre(servers: seq<Server>)
    ensures Sorted(TextLess, Rules(servers))
    ensures forall rule :: rule in Rules(servers) <==> WantedBySome(servers, rule)
  {
    TextLessIsStrict();
    CollectIsSortedSet(TextLess, AllRules(servers));
    forall rule ensures rule in AllRules(servers) <==> WantedBySome(servers, rule) {
      AllRulesAre(servers, rule);
    }
  }

  /** A strictly sorted list of the wanted rules is the ordered set. */
  lemma OnlyRules(servers: seq<Server>, denied: seq<string>)
    requires Sorted(TextLess, denied) && forall rule :: rule in denied <==> WantedBySome(servers, rule)
    ensures denied == Rules(servers)
  {
    RulesAre(servers);
    TextLessIsStrict();
    SortedIsUnique(TextLess, denied, Rules(servers));
  }

  // ----- What each server must satisfy -----

  /** A restricted server names only proper tools, all of which discovery finds. */
  ghost predicate Passes(s: Server) {
    s.allowed.Some? ==>
      && AllLiteral(s.allowed.value)
      && (s.allowed.value != [] ==> Discover(s).Some? && AllIn(s.allowed.value, Discover(s).value))
  }

  ghost predicate AllPass(servers: seq<Server>) {
    forall i :: 0 <= i < |servers| ==> Passes(servers[i])
  }

  predicate Asks(s: Server) {
    s.allowed.Some? && s.allowed.value != []
  }

  predicate Small(rules: seq<string>) {
    |rules| <= 4096 && RuleBytes(rules) <= 65536
  }

  /** If this server is discovered, the rules up to it are within both limits. */
  ghost predicate SmallAt(servers: seq<Server>, k: nat) {
    k < |servers| && (Asks(servers[k]) ==> Small(Rules(servers[..k + 1])))
  }

  ghost predicate StaysSmall(servers: seq<Server>) {
    forall k: nat :: k < |servers| ==> SmallAt(servers, k)
  }

  lemma LastPasses(servers: seq<Server>)
    requires servers != []
    ensures AllPass(servers) <==> AllPass(servers[..|servers| - 1]) && Passes(servers[|servers| - 1])
  {
    var n := |servers| - 1;
    assert forall i :: 0 <= i < n ==> servers[..n][i] == servers[i];
  }

  lemma SmallAtPrefix(servers: seq<Server>, n: nat, k: nat)
    requires k < n <= |servers|
    ensures SmallAt(servers[..n], k) <==> SmallAt(servers, k)
  {
    assert servers[..n][..k + 1] == servers[..k + 1] && servers[..n][k] == servers[k];
  }

  lemma LastStaysSmall(servers: seq<Server>)
    requires servers != []
    ensures var n := |servers| - 1;
      StaysSmall(servers) <==> StaysSmall(servers[..n]) && (Asks(servers[n]) ==> Small(Rules(servers)))
  {
    var n := |servers| - 1;
    assert servers[..n + 1] == servers;
    assert SmallAt(servers, n) <==> (Asks(servers[n]) ==> Small(Rules(servers)));
    forall k: nat | k < n ensures SmallAt(servers[..n], k) <==> SmallAt(servers, k) {
      SmallAtPrefix(servers, n, k);
    }
  }

  /** The rules a server adds to those before it, limits aside. */
  function Adding(denied: seq<string>, s: Server): seq<string> {
    if s.allowed.None? then denied
    else if s.allowed.value == [] then Insert(TextLess, denied, Rule(s.id, "*"))
    else if Discover(s).None? then denied
    else DenyTools(denied, s.id, Discover(s).value, s.allowed.value)
  }

  lemma AddingIs(servers: seq<Server>)
    requires servers != []
    ensures Adding(Rules(servers[..|servers| - 1]), servers[|servers| - 1]) == Rules(servers)
  {
    var n := |servers| - 1;
    var before, s := Rules(servers[..n]), servers[n];
    var more := Adding(before, s);
    RulesAre(servers[..n]);
    TextLessIsStrict();
    forall rule ensures rule in more <==> WantedBySome(servers, rule) {
      AddingAdds(before, s, rule);
      WantedByLast(servers, rule);
    }
    AddingAdds(before, s, "");
    OnlyRules(servers, more);
  }

  lemma AddingAdds(denied: seq<string>, s: Server, rule: string)
    requires Sorted(TextLess, denied)
    ensures rule in Adding(denied, s) <==> rule in denied || Wanted(s, rule)
    ensures Sorted(TextLess, Adding(denied, s))
  {
    TextLessIsStrict();
    if s.allowed.Some? {
      if s.allowed.value == [] {
        InsertAdds(TextLess, denied, Rule(s.id, "*"));
        InsertKeepsSorted(TextLess, denied, Rule(s.id, "*"));
      } else if Discover(s).Some? {
        DenyToolsAdds(denied, s.id, Discover(s).value, s.allowed.value, rule);
      }
    }
  }

  /** Collecting the rules succeeds exactly when every server passes and the limits hold throughout. */
  lemma {:induction false} DenyServersIff(servers: seq<Server>)
    ensures DenyServers(servers).Some? <==> AllPass(servers) && StaysSmall(servers)
    ensures DenyServers(servers).Some? ==> DenyServers(servers).value == Rules(servers)
    decreases |servers|
  {
    if servers != [] {
      var n := |servers| - 1;
      DenyServersIff(servers[..n]);
      LastPasses(servers);
      LastStaysSmall(servers);
      AddingIs(servers);
    }
  }

  // ----- The whole filter -----

  /** The deny flag occurs once, and an argument follows it. */
  ghost predicate FlagBefore(args: seq<string>, at: nat) {
    0 < at < |args| && args[at - 1] == FLAG && forall i :: 0 <= i < |args| && args[i] == FLAG ==> i == at - 1
  }

  lemma {:induction false} PositionsCount(args: seq<string>, at: nat)
    requires 0 < at <= |args| && args[at - 1] == FLAG && forall i :: 0 <= i < |args| && args[i] == FLAG ==> i == at - 1
    ensures Positions(args) == [at]
    decreases |args|
  {
    var n := |args| - 1;
    if at <= n {
      PositionsCount(args[..n], at);
    } else {
      NoPositions(args[..n]);
    }
  }

  lemma {:induction false} NoPositions(args: seq<string>)
    requires forall i :: 0 <= i < |args| ==> args[i] != FLAG
    ensures Positions(args) == []
    decreases |args|
  {
    if args != [] {
      NoPositions(args[..|args| - 1]);
    }
  }

  /** What the filter asks for when some server is restricted. */
  ghost predicate Admissible(servers: seq<Server>, args: seq<string>, at: nat) {
    && AllNamed(servers) && FlagBefore(args, at) && AllPass(servers) && StaysSmall(servers)
    && |Rules(servers)| <= 4096 && |Render(args[at], Rules(servers))| <= 65536
  }

  /**
   With nothing restricted the filter changes nothing. Otherwise it succeeds exactly when every
   server is properly named and passes, the deny flag occurs once with an argument behind it, and
   all limits hold; it then appends the ordered rules to that argument and changes nothing else.
   */
  lemma FilterIff(servers: seq<Server>, args: seq<string>)
    ensures !Restricted(servers) ==> Filtered(servers, args) == Some(args)
    ensures Restricted(servers) ==> (Filtered(servers, args).Some? <==> exists at :: Admissible(servers, args, at))
    ensures forall at: nat :: Restricted(servers) && Admissible(servers, args, at) ==>
      Filtered(servers, args) == Some(args[at := Render(args[at], Rules(servers))])
  {
    DenyServersIff(servers);
    if Restricted(servers) && Filtered(servers, args).Some? {
      var at := OnlyFlag(args);
      assert Admissible(servers, args, at);
    }
    forall at: nat | Restricted(servers) && Admissible(servers, args, at)
      ensures Filtered(servers, args) == Some(args[at := Render(args[at], Rules(servers))])
    {
      PositionsCount(args, at);
    }
  }
}
