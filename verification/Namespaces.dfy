/** The MCP permission namespaces of `crates/agent-run-adapters/src/opencode.rs`. */
module Namespaces {
  import opened Common

  /** `tool_prefix`: the name with every character a tool name cannot have turned into an underscore. */
  function ToolPrefix(server: string): (p: string)
    ensures |p| == |server|
    ensures forall i :: 0 <= i < |p| ==> WordChar(p[i])
    ensures forall i :: 0 <= i < |p| && p[i] != server[i] ==> p[i] == '_' && !WordChar(server[i])
  {
    seq(|server|, i requires 0 <= i < |server| => if WordChar(server[i]) then server[i] else '_')
  }

  function Prefixes(servers: seq<string>): set<string>
    decreases |servers|
  {
    if servers == [] then {} else {ToolPrefix(servers[0])} + Prefixes(servers[1..])
  }

  /** The namespace check of `validate`. */
  ghost predicate Accepted(servers: seq<string>) {
    var prefixes := Prefixes(servers);
    && |prefixes| == |servers|
    && forall p :: p in prefixes ==>
         && p != "opencode"
         && !StartsWith(p, "opencode_")
         && forall i :: 0 <= i < |p| && p[i] == '_' ==> p[..i] !in prefixes
  }

  /** The native action name of a server's tool. */
  function Action(server: string, tool: string): string {
    ToolPrefix(server) + "_" + tool
  }

  /** The permission granting every tool of `server` also covers `action`. */
  predicate Covers(server: string, action: string) {
    StartsWith(action, ToolPrefix(server) + "_")
  }

  /** No server's grant reaches another server's tools, and none is in the native namespace. */
  ghost predicate Separate(servers: seq<string>) {
    && (forall i, j, tool :: 0 <= i < |servers| && 0 <= j < |servers| && i != j ==>
         !Covers(servers[i], Action(servers[j], tool)))
    && (forall i, tool :: 0 <= i < |servers| ==> !StartsWith(Action(servers[i], tool), "opencode_"))
  }

  lemma {:induction false} PrefixMembers(servers: seq<string>, p: string)
    ensures p in Prefixes(servers) <==> exists i :: 0 <= i < |servers| && ToolPrefix(servers[i]) == p
    decreases |servers|
  {
    if servers != [] {
      PrefixMembers(servers[1..], p);
      assert forall i :: 0 < i < |servers| ==> servers[i] == servers[1..][i - 1];
      assert forall i :: 0 <= i < |servers| - 1 ==> servers[1..][i] == servers[i + 1];
    }
  }

  ghost predicate Distinct(servers: seq<string>) {
    forall i, j :: 0 <= i < j < |servers| ==> ToolPrefix(servers[i]) != ToolPrefix(servers[j])
  }

  lemma {:induction false} CountIsDistinct(servers: seq<string>)
    ensures |Prefixes(servers)| <= |servers|
    ensures |Prefixes(servers)| == |servers| <==> Distinct(servers)
    decreases |servers|
  {
    if servers != [] {
      var rest := servers[1..];
      CountIsDistinct(rest);
      var p := ToolPrefix(servers[0]);
      PrefixMembers(rest, p);
      if p in Prefixes(rest) {
        assert Prefixes(servers) == Prefixes(rest);
        var i :| 0 <= i < |rest| && ToolPrefix(rest[i]) == p;
        assert servers[i + 1] == rest[i];
        assert !Distinct(servers);
      } else {
        assert |Prefixes(servers)| == 1 + |Prefixes(rest)|;
        assert forall i :: 0 <= i < |rest| ==> rest[i] == servers[i + 1];
        assert forall i :: 0 < i < |servers| ==> servers[i] == rest[i - 1];
      }
    }
  }

  /** `a_` starts `b_tool` exactly when the prefixes are equal, or one extends the other past an underscore. */
  lemma OverlapCases(a: string, b: string, tool: string)
    requires StartsWith(b + "_" + tool, a + "_")
    ensures a == b
      || (|a| < |b| && b[|a|] == '_' && b[..|a|] == a)
      || (|b| < |a| && a[|b|] == '_' && a[..|b|] == b)
  {
    var x, y := b + "_" + tool, a + "_";
    assert forall k :: 0 <= k < |y| ==> x[k] == x[..|y|][k] == y[k];
    assert (forall k :: 0 <= k < |a| ==> y[k] == a[k]) && y[|a|] == '_';
    assert (forall k :: 0 <= k < |b| ==> x[k] == b[k]) && x[|b|] == '_';
    if |a| < |b| {
      assert b[..|a|] == a;
    } else if |a| == |b| {
      assert a == b;
    } else {
      assert a[..|b|] == b;
    }
  }

  lemma AcceptedKeepsApart(servers: seq<string>, i: nat, j: nat, tool: string)
    requires Accepted(servers) && i < |servers| && j < |servers| && i != j
    ensures !Covers(servers[i], Action(servers[j], tool))
  {
    CountIsDistinct(servers);
    var a, b := ToolPrefix(servers[i]), ToolPrefix(servers[j]);
    PrefixMembers(servers, a);
    PrefixMembers(servers, b);
    if Covers(servers[i], Action(servers[j], tool)) {
      OverlapCases(a, b, tool);
    }
  }

  lemma AcceptedAvoidsNative(servers: seq<string>, i: nat, tool: string)
    requires Accepted(servers) && i < |servers|
    ensures !StartsWith(Action(servers[i], tool), "opencode_")
  {
    var p := ToolPrefix(servers[i]);
    PrefixMembers(servers, p);
    assert |p| > 8 ==> p[..9] == p[..8] + [p[8]];
    assert "opencode" + "_" == "opencode_";
    if StartsWith(p + "_" + tool, "opencode" + "_") {
      OverlapCases("opencode", p, tool);
    }
  }

  /** A prefix that leaves every action free leaves its own `prefix_` free. */
  lemma SeparateAvoidsNative(servers: seq<string>, i: nat)
    requires Separate(servers) && i < |servers|
    ensures ToolPrefix(servers[i]) != "opencode" && !StartsWith(ToolPrefix(servers[i]), "opencode_")
  {
    var p := ToolPrefix(servers[i]);
    assert Action(servers[i], "") == p + "_";
    assert !StartsWith(p + "_", "opencode_");
    assert |p| >= 9 ==> (p + "_")[..9] == p[..9];
  }

  lemma SeparateKeepsApart(servers: seq<string>, i: nat, j: nat)
    requires Separate(servers) && i < |servers| && j < |servers| && i != j
    ensures var p, q := ToolPrefix(servers[i]), ToolPrefix(servers[j]);
      p != q && (|q| < |p| && p[|q|] == '_' ==> p[..|q|] != q)
  {
    var p, q := ToolPrefix(servers[i]), ToolPrefix(servers[j]);
    assert !Covers(servers[j], Action(servers[i], ""));
    assert Action(servers[i], "") == p + "_";
    assert |q| < |p| && p[|q|] == '_' ==> (p + "_")[..|q| + 1] == p[..|q|] + "_";
  }

  lemma SeparateIsAccepted(servers: seq<string>)
    requires Separate(servers)
    ensures Accepted(servers)
  {
    forall i, j | 0 <= i < j < |servers| ensures ToolPrefix(servers[i]) != ToolPrefix(servers[j]) {
      SeparateKeepsApart(servers, i, j);
    }
    CountIsDistinct(servers);
    forall p | p in Prefixes(servers)
      ensures p != "opencode" && !StartsWith(p, "opencode_")
      ensures forall k :: 0 <= k < |p| && p[k] == '_' ==> p[..k] !in Prefixes(servers)
    {
      PrefixMembers(servers, p);
      var i :| 0 <= i < |servers| && ToolPrefix(servers[i]) == p;
      SeparateAvoidsNative(servers, i);
      forall k | 0 <= k < |p| && p[k] == '_' ensures p[..k] !in Prefixes(servers) {
        PrefixMembers(servers, p[..k]);
        if p[..k] in Prefixes(servers) {
          var j :| 0 <= j < |servers| && ToolPrefix(servers[j]) == p[..k];
          SeparateKeepsApart(servers, i, j);
        }
      }
    }
  }

  /**
   `validate` accepts a selection of servers exactly when their grants cannot reach each other or
   the native tools.
   */
  lemma NamespaceCheckIsExact(servers: seq<string>)
    ensures Accepted(servers) <==> Separate(servers)
  {
    if Accepted(servers) {
      forall i, j, tool | 0 <= i < |servers| && 0 <= j < |servers| && i != j
        ensures !Covers(servers[i], Action(servers[j], tool))
      {
        AcceptedKeepsApart(servers, i, j, tool);
      }
      forall i, tool | 0 <= i < |servers| ensures !StartsWith(Action(servers[i], tool), "opencode_") {
        AcceptedAvoidsNative(servers, i, tool);
      }
    }
    if Separate(servers) {
      SeparateIsAccepted(servers);
    }
  }
}
