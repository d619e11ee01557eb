/**
 The exact-complement deny rules of `crates/agent-run-adapters/src/mcp_catalog.rs`:
 catalog discovery page by page, and the rendering of one native argument.
 */
module ToolFilter {
  import opened Common
  import opened Ordering

  const MAX_TOOLS: nat := 4096
  const MAX_PAGES: nat := 64
  const MAX_RULE_BYTES: nat := 65536
  const MAX_CURSOR: nat := 4096

  /** `literal_name` */
  predicate LiteralName(name: string) {
    0 < |name| <= 128 && forall i :: 0 <= i < |name| ==> WordChar(name[i])
  }

  /** Two underscores in a row at `i`. */
  predicate SeparatorAt(s: string, i: nat) {
    i + 1 < |s| && s[i] == '_' && s[i + 1] == '_'
  }

  predicate ServerName(id: string) {
    && LiteralName(id)
    && (forall i: nat :: i < |id| ==> !SeparatorAt(id, i))
    && id[|id| - 1] != '_'
  }

  /** The native name of one tool of one server, and the deny rule for it. */
  function Rule(server: string, tool: string): string {
    "mcp__" + server + "__" + tool
  }

  // ----- The name is unambiguous -----

  /** In `server__tool` the first separator is the one after the server name. */
  lemma FirstSeparator(server: string, tool: string, i: nat)
    requires ServerName(server)
    ensures i < |server| ==> !SeparatorAt(server + "__" + tool, i)
    ensures SeparatorAt(server + "__" + tool, |server|)
  {
    var s := server + "__" + tool;
    assert s[|server|] == '_' && s[|server| + 1] == '_';
    if i < |server| {
      assert s[i] == server[i];
      if i + 1 < |server| {
        assert s[i + 1] == server[i + 1];
        assert !SeparatorAt(server, i);
      }
    }
  }

  /** If one name starts another's, past the server part, they name the same server. */
  lemma SameServer(a: string, t: string, b: string, u: string)
    requires ServerName(a) && ServerName(b) && StartsWith(b + "__" + u, a + "__" + t)
    ensures a == b
  {
    var x, y := a + "__" + t, b + "__" + u;
    assert forall k :: 0 <= k < |x| ==> y[k] == y[..|x|][k] == x[k];
    FirstSeparator(a, t, |b|);
    FirstSeparator(b, u, |a|);
    if |a| < |b| {
      assert SeparatorAt(y, |a|);
      assert false;
    }
    if |b| < |a| {
      assert SeparatorAt(x, |b|);
      assert false;
    }
    assert forall k :: 0 <= k < |a| ==> a[k] == x[k] == y[k] == b[k];
  }

  lemma AfterPrefix(s: string, t: string)
    requires StartsWith("mcp__" + s, "mcp__" + t)
    ensures StartsWith(s, t)
  {
    assert ("mcp__" + s)[..5 + |t|] == "mcp__" + s[..|t|];
    assert ("mcp__" + s[..|t|])[5..] == s[..|t|] && ("mcp__" + t)[5..] == t;
  }

  lemma RuleSplits(server: string, tool: string)
    ensures Rule(server, tool) == "mcp__" + (server + "__" + tool)
  {
  }

  /** Distinct tools of accepted servers have distinct native names. */
  lemma RuleIsInjective(a: string, t: string, b: string, u: string)
    requires ServerName(a) && ServerName(b) && Rule(a, t) == Rule(b, u)
    ensures a == b && t == u
  {
    RuleSplits(a, t);
    RuleSplits(b, u);
    assert Rule(a, t)[5..] == a + "__" + t && Rule(b, u)[5..] == b + "__" + u;
    SameServer(a, t, b, u);
    assert (a + "__" + t)[|a| + 2..] == t && (b + "__" + u)[|b| + 2..] == u;
  }

  /** What a native deny entry denies: itself, or everything it starts when it ends in a star. */
  predicate Denies(entry: string, name: string) {
    || entry == name
    || (entry != "" && entry[|entry| - 1] == '*' && StartsWith(name, entry[..|entry| - 1]))
  }

  predicate DeniedBy(entries: seq<string>, name: string) {
    exists i :: 0 <= i < |entries| && Denies(entries[i], name)
  }

  lemma ToolRuleDenies(a: string, t: string, b: string, u: string)
    requires ServerName(a) && ServerName(b) && LiteralName(t)
    ensures Denies(Rule(a, t), Rule(b, u)) <==> a == b && t == u
  {
    var r := Rule(a, t);
    assert r[|r| - 1] == t[|t| - 1];
    assert WordChar(t[|t| - 1]);
    if r == Rule(b, u) {
      RuleIsInjective(a, t, b, u);
    }
  }

  lemma ServerRuleDenies(a: string, b: string, u: string)
    requires ServerName(a) && ServerName(b)
    ensures Denies(Rule(a, "*"), Rule(b, u)) <==> a == b
  {
    var r := Rule(a, "*");
    assert r[|r| - 1] == '*' && r[..|r| - 1] == Rule(a, "");
    RuleSplits(a, "");
    RuleSplits(b, u);
    if Denies(r, Rule(b, u)) {
      if r == Rule(b, u) {
        RuleIsInjective(a, "*", b, u);
      } else {
        AfterPrefix(b + "__" + u, a + "__" + "");
        SameServer(a, "", b, u);
      }
    }
    if a == b {
      assert Rule(b, u)[..|Rule(a, "")|] == Rule(a, "");
    }
  }

  // ----- Pagination -----

  datatype Tool = Tool(name: Option<string>, objectSchema: bool)

  datatype Cursor = NoCursor | Malformed | More(cursor: string)

  datatype Page = NotAPage | Page(tools: seq<Tool>, next: Cursor)

  datatype Listed = Listed(tools: seq<string>, ok: bool)

  /** The tools of one page join the ordered set; a bad or repeated one fails the catalog. */
  function AddPage(tools: seq<string>, listed: seq<Tool>): Listed
    decreases |listed|
  {
    if listed == [] then Listed(tools, true) else
    var t := listed[0];
    if t.name.None? || !LiteralName(t.name.value) || !t.objectSchema || t.name.value in tools
    then Listed(tools, false) else
    var more := Insert(TextLess, tools, t.name.value);
    if |more| > MAX_TOOLS then Listed(more, false) else AddPage(more, listed[1..])
  }

  /** `catalog` after initialization; `pages` are the answers still to come, `budget` the requests left. */
  function Catalog(pages: seq<Page>, budget: nat, tools: seq<string>, cursors: seq<string>): Option<seq<string>>
    decreases budget
  {
    if budget == 0 || pages == [] || pages[0].NotAPage? then None else
    var listed := AddPage(tools, pages[0].tools);
    if !listed.ok then None else
    match pages[0].next
    case NoCursor => Some(listed.tools)
    case Malformed => None
    case More(c) =>
      if c == "" || |c| > MAX_CURSOR || c in cursors then None
      else Catalog(pages[1..], budget - 1, listed.tools, cursors + [c])
  }

  function Names(listed: seq<Tool>): seq<string>
    decreases |listed|
  {
    if listed == [] then [] else [if listed[0].name.Some? then listed[0].name.value else ""] + Names(listed[1..])
  }

  /** The names of the first `n` pages, in order. */
  function PageNames(pages: seq<Page>, n: nat): seq<string>
    requires n <= |pages|
    decreases n
  {
    if n == 0 then [] else PageNames(pages, n - 1) + if pages[n - 1].Page? then Names(pages[n - 1].tools) else []
  }

  /** `tools` is the ordered set of `listed`, which names everything once. */
  ghost predicate Holds(tools: seq<string>, listed: seq<string>) {
    && Sorted(TextLess, tools)
    && (forall x :: x in tools <==> x in listed)
    && Unique(listed)
    && |tools| == |listed| <= MAX_TOOLS
    && (forall x :: x in tools ==> LiteralName(x))
  }

  lemma HoldsOneMore(tools: seq<string>, so: seq<string>, x: string)
    requires Holds(tools, so) && LiteralName(x) && x !in tools && |Insert(TextLess, tools, x)| <= MAX_TOOLS
    ensures Holds(Insert(TextLess, tools, x), so + [x])
  {
    TextLessIsStrict();
    InsertKeepsSorted(TextLess, tools, x);
    InsertAdds(TextLess, tools, x);
    InsertGrows(TextLess, tools, x);
  }

  /** A tool with a proper name and an object schema. */
  predicate Proper(t: Tool) {
    t.name.Some? && LiteralName(t.name.value) && t.objectSchema
  }

  ghost predicate AllProper(listed: seq<Tool>) {
    forall i :: 0 <= i < |listed| ==> Proper(listed[i])
  }

  lemma {:induction false} AddPageHolds(tools: seq<string>, so: seq<string>, listed: seq<Tool>)
    requires Holds(tools, so) && AddPage(tools, listed).ok
    ensures Holds(AddPage(tools, listed).tools, so + Names(listed)) && AllProper(listed)
    decreases |listed|
  {
    if listed == [] {
      assert so + Names(listed) == so;
    } else {
      var x := listed[0].name.value;
      var more := Insert(TextLess, tools, x);
      HoldsOneMore(tools, so, x);
      AddPageHolds(more, so + [x], listed[1..]);
      ConcatAssoc(so, [x], Names(listed[1..]));
    }
  }

  predicate CursorOk(c: string) {
    0 < |c| <= 4096
  }

  /** The first `n` pages list proper tools, each page but the last pointing at the next by a fresh cursor. */
  ghost predicate Walked(pages: seq<Page>, n: nat) {
    && 0 < n <= |pages|
    && (forall i :: 0 <= i < n ==> pages[i].Page? && AllProper(pages[i].tools))
    && pages[n - 1].next.NoCursor?
    && (forall i :: 0 <= i < n - 1 ==> pages[i].next.More? && CursorOk(pages[i].next.cursor))
    && (forall i, j :: 0 <= i < j < n - 1 ==> pages[i].next.cursor != pages[j].next.cursor)
  }

  /** The first `k` pages list proper tools and carry these cursors, all different. */
  ghost predicate WalkedTo(pages: seq<Page>, k: nat, cursors: seq<string>) {
    && k <= |pages| && |cursors| == k && Unique(cursors)
    && (forall i :: 0 <= i < k ==> pages[i].Page? && AllProper(pages[i].tools))
    && (forall i :: 0 <= i < k ==> pages[i].next == More(cursors[i]) && CursorOk(cursors[i]))
  }

  lemma WalkedFurther(pages: seq<Page>, k: nat, cursors: seq<string>)
    requires WalkedTo(pages, k, cursors) && k < |pages| && pages[k].Page? && AllProper(pages[k].tools)
    ensures pages[k].next.NoCursor? ==> Walked(pages, k + 1)
    ensures pages[k].next.More? && CursorOk(pages[k].next.cursor) && pages[k].next.cursor !in cursors ==>
      WalkedTo(pages, k + 1, cursors + [pages[k].next.cursor])
  {
  }

  lemma {:induction false} CatalogWalks(pages: seq<Page>, k: nat, budget: nat, tools: seq<string>, cursors: seq<string>)
    returns (n: nat)
    requires WalkedTo(pages, k, cursors) && Holds(tools, PageNames(pages, k))
    requires Catalog(pages[k..], budget, tools, cursors).Some?
    ensures k < n <= k + budget && Walked(pages, n)
    ensures Holds(Catalog(pages[k..], budget, tools, cursors).value, PageNames(pages, n))
    decreases budget
  {
    var page := pages[k..][0];
    assert page == pages[k];
    AddPageHolds(tools, PageNames(pages, k), page.tools);
    WalkedFurther(pages, k, cursors);
    if page.next.NoCursor? {
      n := k + 1;
    } else {
      assert pages[k..][1..] == pages[k + 1..];
      n := CatalogWalks(pages, k + 1, budget - 1, AddPage(tools, page.tools).tools, cursors + [page.next.cursor]);
    }
  }

  /**
   A discovered catalog comes from at most 64 pages whose cursors are pairwise distinct, and is
   the disjoint union of their tool names: strictly sorted, nothing missing, nothing twice.
   */
  lemma CatalogIsDisjointUnion(pages: seq<Page>) returns (n: nat)
    requires Catalog(pages, MAX_PAGES, [], []).Some?
    ensures n <= MAX_PAGES && Walked(pages, n)
    ensures Holds(Catalog(pages, MAX_PAGES, [], []).value, PageNames(pages, n))
  {
    assert pages[0..] == pages;
    n := CatalogWalks(pages, 0, MAX_PAGES, [], []);
  }

  // ----- When discovery succeeds -----

  lemma {:induction false} AddPageSucceeds(tools: seq<string>, so: seq<string>, listed: seq<Tool>)
    requires Holds(tools, so) && AllProper(listed) && Unique(so + Names(listed)) && |so| + |Names(listed)| <= MAX_TOOLS
    ensures AddPage(tools, listed).ok
    decreases |listed|
  {
    if listed != [] {
      var x := listed[0].name.value;
      var all := so + Names(listed);
      assert Proper(listed[0]) && all[|so|] == x;
      NotBefore(all, |so|);
      assert all[..|so|] == so;
      InsertGrows(TextLess, tools, x);
      HoldsOneMore(tools, so, x);
      ConcatAssoc(so, [x], Names(listed[1..]));
      AddPageSucceeds(Insert(TextLess, tools, x), so + [x], listed[1..]);
    }
  }

  lemma NotBefore(xs: seq<string>, k: nat)
    requires Unique(xs) && k < |xs|
    ensures xs[k] !in xs[..k]
  {
  }

  lemma {:induction false} PageNamesGrow(pages: seq<Page>, k: nat, n: nat)
    requires k <= n <= |pages|
    ensures StartsWith(PageNames(pages, n), PageNames(pages, k))
    decreases n
  {
    if k < n {
      PageNamesGrow(pages, k, n - 1);
    }
  }

  lemma UniqueStart(xs: seq<string>, ys: seq<string>)
    requires Unique(xs) && StartsWith(xs, ys)
    ensures Unique(ys)
  {
    assert forall i :: 0 <= i < |ys| ==> ys[i] == xs[i];
  }

  /** The pages of a complete discovery: few enough, with few enough tools, none named twice. */
  ghost predicate Discoverable(pages: seq<Page>, n: nat) {
    n <= 64 && Walked(pages, n) && Unique(PageNames(pages, n)) && |PageNames(pages, n)| <= 4096
  }

  /** Page `k` adds proper tools to those of the pages before it, all different and few enough. */
  ghost predicate PageFits(pages: seq<Page>, k: nat) {
    && k < |pages| && pages[k].Page? && AllProper(pages[k].tools)
    && Unique(PageNames(pages, k + 1)) && |PageNames(pages, k + 1)| <= MAX_TOOLS
  }

  lemma DiscoverableFits(pages: seq<Page>, n: nat, k: nat)
    requires Discoverable(pages, n) && k < n
    ensures PageFits(pages, k)
  {
    PageNamesGrow(pages, k + 1, n);
    UniqueStart(PageNames(pages, n), PageNames(pages, k + 1));
  }

  lemma PageSucceeds(pages: seq<Page>, k: nat, tools: seq<string>)
    requires PageFits(pages, k) && Holds(tools, PageNames(pages, k))
    ensures var added := AddPage(tools, pages[k].tools); added.ok && Holds(added.tools, PageNames(pages, k + 1))
  {
    AddPageSucceeds(tools, PageNames(pages, k), pages[k].tools);
    AddPageHolds(tools, PageNames(pages, k), pages[k].tools);
  }

  /** The tools and the cursors collected before page `k`. */
  function ToolsBefore(pages: seq<Page>, k: nat): seq<string>
    requires k <= |pages|
  {
    if k == 0 then [] else
    var before := ToolsBefore(pages, k - 1);
    if pages[k - 1].Page? then AddPage(before, pages[k - 1].tools).tools else before
  }

  function CursorsBefore(pages: seq<Page>, k: nat): seq<string>
    requires k <= |pages|
  {
    if k == 0 then [] else
    var before := CursorsBefore(pages, k - 1);
    if pages[k - 1].Page? && pages[k - 1].next.More? then before + [pages[k - 1].next.cursor] else before
  }

  lemma HoldsNothing()
    ensures Holds([], [])
  {
  }

  lemma ToolsBeforeNext(pages: seq<Page>, k: nat)
    requires PageFits(pages, k) && Holds(ToolsBefore(pages, k), PageNames(pages, k))
    ensures Holds(ToolsBefore(pages, k + 1), PageNames(pages, k + 1))
  {
    PageSucceeds(pages, k, ToolsBefore(pages, k));
  }

  lemma {:induction false} ToolsBeforeHold(pages: seq<Page>, k: nat)
    requires k <= |pages| && forall i: nat :: i < k ==> PageFits(pages, i)
    ensures Holds(ToolsBefore(pages, k), PageNames(pages, k))
    decreases k
  {
    if k == 0 {
      HoldsNothing();
    } else {
      ToolsBeforeHold(pages, k - 1);
      ToolsBeforeNext(pages, k - 1);
    }
  }

  lemma {:induction false} CursorsBeforeAre(pages: seq<Page>, n: nat, k: nat)
    requires Walked(pages, n) && k < n
    ensures var cursors := CursorsBefore(pages, k);
      |cursors| == k && forall i :: 0 <= i < k ==> pages[i].next == More(cursors[i])
    decreases k
  {
    if k > 0 {
      CursorsBeforeAre(pages, n, k - 1);
    }
  }

  /** Page `k` is accepted and leads on, or is the last one. */
  ghost predicate LeadsOn(pages: seq<Page>, n: nat, k: nat) {
    && k < n <= |pages| && pages[k].Page? && AddPage(ToolsBefore(pages, k), pages[k].tools).ok
    && if k == n - 1 then pages[k].next.NoCursor? else
       && pages[k].next.More? && CursorOk(pages[k].next.cursor)
       && pages[k].next.cursor !in CursorsBefore(pages, k)
  }

  lemma PageLeadsOn(pages: seq<Page>, n: nat, k: nat)
    requires Discoverable(pages, n) && k < n
    ensures LeadsOn(pages, n, k)
  {
    forall i: nat | i <= k ensures PageFits(pages, i) {
      DiscoverableFits(pages, n, i);
    }
    ToolsBeforeHold(pages, k);
    PageSucceeds(pages, k, ToolsBefore(pages, k));
    CursorsBeforeAre(pages, n, k);
  }

  lemma {:induction false} WalkSucceeds(pages: seq<Page>, n: nat, k: nat, budget: nat)
    requires k < n <= k + budget && n <= |pages| && forall i: nat :: i < n ==> LeadsOn(pages, n, i)
    ensures Catalog(pages[k..], budget, ToolsBefore(pages, k), CursorsBefore(pages, k)).Some?
    decreases budget
  {
    assert LeadsOn(pages, n, k);
    assert pages[k..][0] == pages[k];
    if k < n - 1 {
      assert pages[k..][1..] == pages[k + 1..];
      WalkSucceeds(pages, n, k + 1, budget - 1);
    }
  }

  /**
   Discovery succeeds exactly when the answers lead through at most 64 pages by fresh bounded
   cursors to a last one, and list at most 4096 properly described tools, none of them twice.
   */
  lemma CatalogIff(pages: seq<Page>)
    ensures Catalog(pages, MAX_PAGES, [], []).Some? <==> exists n :: Discoverable(pages, n)
  {
    if Catalog(pages, MAX_PAGES, [], []).Some? {
      var n := CatalogIsDisjointUnion(pages);
      assert Discoverable(pages, n);
    }
    if n :| Discoverable(pages, n) {
      assert pages[0..] == pages;
      forall k: nat | k < n ensures LeadsOn(pages, n, k) {
        PageLeadsOn(pages, n, k);
      }
      WalkSucceeds(pages, n, 0, MAX_PAGES);
    }
  }

  /** The tools of one page, one by one. */
  method ReadPage(before: seq<string>, listed: seq<Tool>) returns (r: Listed)
    ensures r == AddPage(before, listed)
  {
    var tools := before;
    for i := 0 to |listed|
      invariant AddPage(tools, listed[i..]) == AddPage(before, listed)
    {
      var tool := listed[i];
      if tool.name.None? || !LiteralName(tool.name.value) || !tool.objectSchema || tool.name.value in tools {
        return Listed(tools, false);
      }
      tools := Insert(TextLess, tools, tool.name.value);
      if |tools| > MAX_TOOLS {
        return Listed(tools, false);
      }
      assert listed[i..][1..] == listed[i + 1..];
    }
    return Listed(tools, true);
  }

  /** The pagination loop. */
  method ReadCatalog(pages: seq<Page>) returns (catalog: Option<seq<string>>)
    ensures catalog == Catalog(pages, MAX_PAGES, [], [])
  {
    var tools, cursors: seq<string> := [], [];
    for page := 0 to MAX_PAGES
      invariant page <= |pages|
      invariant Catalog(pages, MAX_PAGES, [], []) == Catalog(pages[page..], MAX_PAGES - page, tools, cursors)
    {
      if page == |pages| || pages[page].NotAPage? {
        return None;
      }
      assert pages[page..][0] == pages[page] && pages[page..][1..] == pages[page + 1..];
      var listed := pages[page].tools;
      var added := ReadPage(tools, listed);
      if !added.ok {
        return None;
      }
      tools := added.tools;
      match pages[page].next {
        case NoCursor => return Some(tools);
        case Malformed => return None;
        case More(c) =>
          if c == "" || |c| > MAX_CURSOR || c in cursors {
            return None;
          }
          cursors := cursors + [c];
      }
    }
    catalog := None;
  }
}
