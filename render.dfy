/**
 * The tree renderer, `printTree` in index.js: a depth-first, pre-order walk
 * that lists each directory, drops hidden names (and files unless "show all"
 * is set), sorts the rest by name, and emits one line per kept entry with a
 * `├──` or `└──` connector behind an indentation prefix that records, for each
 * ancestor, whether it was the last of its siblings.
 */
module Renderer {
  import opened Seqs
  import opened Strings
  import opened FileTree

  /** The module-level settings of index.js: `showAll` (`--A`/`--F`) and `maxDepth` (`--<n>`, -1 for no limit). */
  datatype Config = Config(showAll: bool, maxDepth: int)

  const Tee: string := "\U{251C}\U{2500}\U{2500}"      // ├──
  const Elbow: string := "\U{2514}\U{2500}\U{2500}"    // └──
  const Pipe: string := "\U{2502}   "                   // │ and three spaces
  const Blank: string := "    "

  /** One emitted line: indentation prefix, connector (`└──` when last), entry name, and a "/" for directories. */
  datatype Line = Line(prefix: string, isLast: bool, name: string, isDir: bool)

  function Connector(isLast: bool): string {
    if isLast then Elbow else Tee
  }

  /** The text appended to the output file for a line (without its newline). */
  function Text(l: Line): string {
    l.prefix + Connector(l.isLast) + " " + l.name + (if l.isDir then "/" else "")
  }

  /** The text of each line, in order. */
  function Texts(ls: seq<Line>): (r: seq<string>)
    ensures |r| == |ls|
  {
    if ls == [] then [] else [Text(ls[0])] + Texts(ls[1..])
  }

  lemma {:induction false} TextsIndex(ls: seq<Line>)
    ensures forall i :: 0 <= i < |ls| ==> Texts(ls)[i] == Text(ls[i])
  {
    if ls != [] {
      TextsIndex(ls[1..]);
    }
  }

  lemma {:induction false} TextsAppend(a: seq<Line>, b: seq<Line>)
    ensures Texts(a + b) == Texts(a) + Texts(b)
  {
    if a != [] {
      assert (a + b)[1..] == a[1..] + b;
      TextsAppend(a[1..], b);
    } else {
      assert a + b == b;
    }
  }

  /** A line ends in "/" exactly when it names a directory, since names in a listing contain no "/". */
  lemma {:induction false} TextEndsWithSlash(l: Line)
    requires '/' !in l.name
    ensures var t := Text(l); t[|t| - 1] == '/' <==> l.isDir
  {
    var t := Text(l);
    if !l.isDir {
      if l.name == [] {
        assert t[|t| - 1] == ' ';
      } else {
        assert t[|t| - 1] == l.name[|l.name| - 1];
      }
    }
  }

  // ---------------------------------------------------------------------------
  // Sorting siblings by name
  // ---------------------------------------------------------------------------

  /** Each entry's name is at most the next one's. */
  predicate SortedByName(es: seq<Entry>) {
    |es| <= 1 || (StrLe(es[0].name, es[1].name) && SortedByName(es[1..]))
  }

  /** Sorted means every earlier name is at most every later one. */
  lemma {:induction false} SortedPairwise(es: seq<Entry>)
    requires SortedByName(es)
    ensures forall i, j :: 0 <= i < j < |es| ==> StrLe(es[i].name, es[j].name)
  {
    if |es| > 1 {
      var tail := es[1..];
      SortedPairwise(tail);
      forall i, j | 0 <= i < j < |es| ensures StrLe(es[i].name, es[j].name) {
        assert es[j] == tail[j - 1];
        if i > 0 {
          assert es[i] == tail[i - 1];
        } else if j > 1 {
          assert es[1] == tail[0];
          StrLeTransitive(es[0].name, es[1].name, es[j].name);
        }
      }
    }
  }

  lemma {:induction false} PairwiseSorted(es: seq<Entry>)
    requires forall i, j :: 0 <= i < j < |es| ==> StrLe(es[i].name, es[j].name)
    ensures SortedByName(es)
  {
    if |es| > 1 {
      var tail := es[1..];
      assert forall i, j :: 0 <= i < j < |tail| ==> tail[i] == es[i + 1] && tail[j] == es[j + 1];
      PairwiseSorted(tail);
    }
  }

  /** Inserts `e` in front of the first entry whose name it does not exceed. */
  function Insert(e: Entry, es: seq<Entry>): (r: seq<Entry>)
    ensures |r| == |es| + 1
    ensures r[0] == e || (es != [] && r[0] == es[0])
  {
    if es == [] || StrLe(e.name, es[0].name) then [e] + es
    else [es[0]] + Insert(e, es[1..])
  }

  /** Inserting into a sorted listing keeps it sorted. */
  lemma {:induction false} InsertSorted(e: Entry, es: seq<Entry>)
    requires SortedByName(es)
    ensures SortedByName(Insert(e, es))
  {
    var r := Insert(e, es);
    if es == [] {
    } else if StrLe(e.name, es[0].name) {
      assert r[1..] == es;
    } else {
      var rest := Insert(e, es[1..]);
      InsertSorted(e, es[1..]);
      StrLeTotal(e.name, es[0].name);
      assert r[0] == es[0] && r[1] == rest[0] && r[1..] == rest;
    }
  }

  /** Inserting adds `e` and loses nothing. */
  lemma {:induction false} InsertPermutation(e: Entry, es: seq<Entry>)
    ensures multiset(Insert(e, es)) == multiset(es) + multiset{e}
  {
    if es != [] && !StrLe(e.name, es[0].name) {
      InsertPermutation(e, es[1..]);
      assert es == [es[0]] + es[1..];
    }
  }

  /** `Array.prototype.sort` on the listing: a permutation of its input, in name order (`SortByNameSorted`). */
  function SortByName(es: seq<Entry>): (r: seq<Entry>)
    ensures multiset(r) == multiset(es)
  {
    if es == [] then []
    else
      var rest := SortByName(es[1..]);
      InsertPermutation(es[0], rest);
      assert multiset(es) == multiset(es[1..]) + multiset{es[0]} by {
        assert es == [es[0]] + es[1..];
      }
      Insert(es[0], rest)
  }

  lemma {:induction false} SortByNameSorted(es: seq<Entry>)
    ensures SortedByName(SortByName(es))
  {
    if es != [] {
      SortByNameSorted(es[1..]);
      InsertSorted(es[0], SortByName(es[1..]));
    }
  }

  // ---------------------------------------------------------------------------
  // The listing of one directory
  // ---------------------------------------------------------------------------

  /** Whether an entry of a listing is kept: not hidden, and a directory unless "show all" is set. */
  predicate Shown(cfg: Config, e: Entry) {
    !Hidden(e.name) && (cfg.showAll || e.node.Dir?)
  }

  /**
   * The entries printTree iterates over: hidden names dropped, sorted, then
   * (without "show all") files dropped. Every kept entry occurs exactly as
   * often as in the directory, in name order.
   */
  function Listing(cfg: Config, children: seq<Entry>): (items: seq<Entry>)
    ensures forall i :: 0 <= i < |items| ==> items[i] in children && Shown(cfg, items[i])
  {
    var visible := Filter(children, (e: Entry) => !Hidden(e.name));
    var sorted := SortByName(visible);
    var items := if cfg.showAll then sorted else Filter(sorted, (e: Entry) => e.node.Dir?);
    ListingFacts(cfg, children, visible, sorted, items);
    items
  }

  /** The listing is in name order, and every kept entry occurs in it exactly as often as in the directory, nothing else. */
  lemma {:induction false} ListingCount(cfg: Config, children: seq<Entry>)
    ensures var items := Listing(cfg, children);
      && SortedByName(items)
      && forall x :: multiset(items)[x] == if Shown(cfg, x) then multiset(children)[x] else 0
  {
    var visible := Filter(children, (e: Entry) => !Hidden(e.name));
    var sorted := SortByName(visible);
    var items := if cfg.showAll then sorted else Filter(sorted, (e: Entry) => e.node.Dir?);
    ListingFacts(cfg, children, visible, sorted, items);
    SortByNameSorted(visible);
    if !cfg.showAll {
      SortedPairwise(sorted);
      FilterSubsequence(sorted, (e: Entry) => e.node.Dir?, (a: Entry, b: Entry) => StrLe(a.name, b.name));
      PairwiseSorted(items);
    }
  }

  lemma {:induction false} ListingFacts(cfg: Config, children: seq<Entry>, visible: seq<Entry>, sorted: seq<Entry>, items: seq<Entry>)
    requires visible == Filter(children, (e: Entry) => !Hidden(e.name))
    requires multiset(sorted) == multiset(visible)
    requires items == if cfg.showAll then sorted else Filter(sorted, (e: Entry) => e.node.Dir?)
    ensures forall x :: multiset(items)[x] == if Shown(cfg, x) then multiset(children)[x] else 0
    ensures forall i :: 0 <= i < |items| ==> items[i] in children && Shown(cfg, items[i])
  {
    var isDir := (e: Entry) => e.node.Dir?;
    if !cfg.showAll {
      FilterPermutation(sorted, visible, isDir);
    }
    forall x ensures multiset(items)[x] == if Shown(cfg, x) then multiset(children)[x] else 0 {
      FilterCount(children, (e: Entry) => !Hidden(e.name), x);
      if !cfg.showAll { FilterCount(visible, isDir, x); }
    }
    forall i | 0 <= i < |items| ensures items[i] in children && Shown(cfg, items[i]) {
      assert items[i] in multiset(items);
    }
  }

  // ---------------------------------------------------------------------------
  // The walk
  // ---------------------------------------------------------------------------

  /** What a child's prefix adds to its parent's: four spaces below a last entry, a bar otherwise. */
  function Indent(isLast: bool): string {
    if isLast then Blank else Pipe
  }

  /** Whether a call at `depth` is pruned: a limit is set and `depth` exceeds it. */
  predicate Pruned(cfg: Config, depth: int) {
    cfg.maxDepth != -1 && depth > cfg.maxDepth
  }

  /** `printTree(prefix, dir, depth)`: the lines emitted for directory `d`, in emission order. */
  function Render(cfg: Config, prefix: string, d: Node, depth: int): seq<Line>
    requires d.Dir?
    decreases d, 1, 0
  {
    if Pruned(cfg, depth) then []
    else
      var items := Listing(cfg, d.children);
      RenderItems(cfg, prefix, d, items, |items|, depth)
  }

  /** The lines the `forEach` loop emits for the first `k` entries of the listing `items` of `d`. */
  function RenderItems(cfg: Config, prefix: string, d: Node, items: seq<Entry>, k: nat, depth: int): seq<Line>
    requires d.Dir? && k <= |items|
    requires forall i :: 0 <= i < |items| ==> items[i] in d.children
    decreases d, 0, k
  {
    if k == 0 then []
    else
      RenderItems(cfg, prefix, d, items, k - 1, depth) + Iteration(cfg, prefix, d, items, k - 1, depth)
  }

  /** The `forEach` callback for the entry at index `j`, the last one when `j` is the final index. */
  function Iteration(cfg: Config, prefix: string, d: Node, items: seq<Entry>, j: nat, depth: int): seq<Line>
    requires d.Dir? && j < |items|
    requires forall i :: 0 <= i < |items| ==> items[i] in d.children
    decreases d, 0, j
  {
    assert items[j] in d.children;
    RenderEntry(cfg, prefix, items[j], j == |items| - 1, depth)
  }

  /** One iteration of the `forEach` loop: the entry's line, then (for a directory) its subtree one level deeper. */
  function RenderEntry(cfg: Config, prefix: string, e: Entry, isLast: bool, depth: int): seq<Line>
    decreases e.node, 2, 0
  {
    var isDir := e.node.Dir?;
    if isDir || cfg.showAll then
      [Line(prefix, isLast, e.name, isDir)]
        + (if isDir then Render(cfg, prefix + Indent(isLast), e.node, depth + 1) else [])
    else []
  }

  // ---------------------------------------------------------------------------
  // Shape of every emitted line
  // ---------------------------------------------------------------------------

  /** A string made of four-character blocks, each `Blank` or `Pipe`. */
  predicate IsIndentation(s: string) {
    s == [] || (|s| >= 4 && (s[..4] == Blank || s[..4] == Pipe) && IsIndentation(s[4..]))
  }

  lemma {:induction false} IndentationLength(s: string)
    requires IsIndentation(s)
    ensures |s| % 4 == 0
  {
    if s != [] { IndentationLength(s[4..]); }
  }

  /**
   * What holds of every line a call `printTree(prefix, _, depth)` emits: its
   * prefix extends `prefix` by whole indentation blocks, one per level below
   * `depth`, never past `maxDepth`; its name is not hidden; and without "show
   * all" it is a directory.
   */
  ghost predicate LineShape(cfg: Config, prefix: string, depth: int, l: Line) {
    && prefix <= l.prefix
    && IsIndentation(l.prefix[|prefix|..])
    && (cfg.maxDepth != -1 ==> |l.prefix| - |prefix| <= 4 * (cfg.maxDepth - depth))
    && !Hidden(l.name)
    && (!cfg.showAll ==> l.isDir)
  }

  /** A line of a child's subtree, seen from the parent's call. */
  lemma {:induction false} LineShapeLift(cfg: Config, prefix: string, isLast: bool, depth: int, l: Line)
    requires LineShape(cfg, prefix + Indent(isLast), depth + 1, l)
    ensures LineShape(cfg, prefix, depth, l)
  {
    var ext := Indent(isLast);
    var rest := l.prefix[|prefix|..];
    assert rest[..4] == ext;
    assert rest[4..] == l.prefix[|prefix + ext|..];
  }

  lemma {:induction false} RenderShape(cfg: Config, prefix: string, d: Node, depth: int)
    requires d.Dir?
    ensures forall l :: l in Render(cfg, prefix, d, depth) ==> LineShape(cfg, prefix, depth, l)
    decreases d, 1, 0
  {
    if !Pruned(cfg, depth) {
      var items := Listing(cfg, d.children);
      RenderItemsShape(cfg, prefix, d, items, |items|, depth);
    }
  }

  lemma {:induction false} RenderItemsShape(cfg: Config, prefix: string, d: Node, items: seq<Entry>, k: nat, depth: int)
    requires d.Dir? && k <= |items|
    requires forall i :: 0 <= i < |items| ==> items[i] in d.children && Shown(cfg, items[i])
    requires !Pruned(cfg, depth)
    ensures forall l :: l in RenderItems(cfg, prefix, d, items, k, depth) ==> LineShape(cfg, prefix, depth, l)
    decreases d, 0, k
  {
    if k > 0 {
      RenderItemsShape(cfg, prefix, d, items, k - 1, depth);
      assert items[k - 1] in d.children;
      RenderEntryShape(cfg, prefix, items[k - 1], k - 1 == |items| - 1, depth);
    }
  }

  lemma {:induction false} RenderEntryShape(cfg: Config, prefix: string, e: Entry, isLast: bool, depth: int)
    requires Shown(cfg, e) && !Pruned(cfg, depth)
    ensures forall l :: l in RenderEntry(cfg, prefix, e, isLast, depth) ==> LineShape(cfg, prefix, depth, l)
    decreases e.node, 2, 0
  {
    var head := Line(prefix, isLast, e.name, e.node.Dir?);
    assert head.prefix[|prefix|..] == [];
    if e.node.Dir? {
      var sub := Render(cfg, prefix + Indent(isLast), e.node, depth + 1);
      RenderShape(cfg, prefix + Indent(isLast), e.node, depth + 1);
      forall l | l in sub ensures LineShape(cfg, prefix, depth, l) {
        LineShapeLift(cfg, prefix, isLast, depth, l);
      }
    }
  }

  /** The lines of a whole run from the root: the guarantees of `printTree("", root)` (index.js:135). */
  lemma {:induction false} OutputLines(cfg: Config, root: Node)
    requires root.Dir?
    ensures Pruned(cfg, 1) ==> Render(cfg, "", root, 1) == []
    ensures forall l :: l in Render(cfg, "", root, 1) ==>
      && IsIndentation(l.prefix)
      && (cfg.maxDepth != -1 ==> |l.prefix| / 4 + 1 <= cfg.maxDepth)
      && !Hidden(l.name)
      && (!cfg.showAll ==> l.isDir)
  {
    RenderShape(cfg, "", root, 1);
    forall l | l in Render(cfg, "", root, 1) ensures IsIndentation(l.prefix) {
      assert l.prefix[0..] == l.prefix;
    }
  }

  /** Without "show all", every written line ends in "/": only folders are listed. */
  lemma {:induction false} FoldersOnly(cfg: Config, root: Node)
    requires root.Dir? && !cfg.showAll
    ensures forall t :: t in Texts(Render(cfg, "", root, 1)) ==> t != [] && t[|t| - 1] == '/'
  {
    var ls := Render(cfg, "", root, 1);
    RenderShape(cfg, "", root, 1);
    TextsIndex(ls);
    forall t | t in Texts(ls) ensures t != [] && t[|t| - 1] == '/' {
      var i :| 0 <= i < |ls| && Texts(ls)[i] == t;
      assert ls[i] in ls;
    }
  }

  // ---------------------------------------------------------------------------
  // One sibling listing
  // ---------------------------------------------------------------------------

  /** The lines whose prefix has length `n`: one listing's own lines, without those of deeper levels. */
  function LevelLines(ls: seq<Line>, n: nat): seq<Line> {
    if ls == [] then []
    else (if |ls[0].prefix| == n then [ls[0]] else []) + LevelLines(ls[1..], n)
  }

  lemma {:induction false} LevelLinesAppend(a: seq<Line>, b: seq<Line>, n: nat)
    ensures LevelLines(a + b, n) == LevelLines(a, n) + LevelLines(b, n)
  {
    if a == [] {
      assert a + b == b;
    } else {
      var h := if |a[0].prefix| == n then [a[0]] else [];
      assert (a + b)[0] == a[0];
      assert (a + b)[1..] == a[1..] + b;
      LevelLinesAppend(a[1..], b, n);
      assert LevelLines(a + b, n) == h + (LevelLines(a[1..], n) + LevelLines(b, n));
      assert h + (LevelLines(a[1..], n) + LevelLines(b, n)) == (h + LevelLines(a[1..], n)) + LevelLines(b, n);
    }
  }

  lemma {:induction false} LevelLinesDeeper(ls: seq<Line>, n: nat)
    requires forall l :: l in ls ==> |l.prefix| > n
    ensures LevelLines(ls, n) == []
  {
    if ls != [] {
      assert ls[0] in ls;
      LevelLinesDeeper(ls[1..], n);
    }
  }

  /** The head lines of the first `k` entries of a listing. */
  function Heads(prefix: string, items: seq<Entry>, k: nat): (r: seq<Line>)
    requires k <= |items|
  {
    seq(k, i requires 0 <= i < k => Line(prefix, i == |items| - 1, items[i].name, items[i].node.Dir?))
  }

  /** One iteration of the loop contributes exactly its entry's own line to its level. */
  lemma {:induction false} RenderEntryLevel(cfg: Config, prefix: string, e: Entry, isLast: bool, depth: int)
    requires Shown(cfg, e) && !Pruned(cfg, depth)
    ensures LevelLines(RenderEntry(cfg, prefix, e, isLast, depth), |prefix|) == [Line(prefix, isLast, e.name, e.node.Dir?)]
  {
    var head := Line(prefix, isLast, e.name, e.node.Dir?);
    var sub := if e.node.Dir? then Render(cfg, prefix + Indent(isLast), e.node, depth + 1) else [];
    assert RenderEntry(cfg, prefix, e, isLast, depth) == [head] + sub;
    if e.node.Dir? {
      RenderShape(cfg, prefix + Indent(isLast), e.node, depth + 1);
      forall l | l in sub ensures |l.prefix| > |prefix| {
        assert |prefix + Indent(isLast)| <= |l.prefix|;
      }
    }
    LevelLinesDeeper(sub, |prefix|);
    LevelLinesAppend([head], sub, |prefix|);
  }

  /** Proof step of `RenderItemsLevel`: the head lines of one more iteration. */
  lemma {:induction false} HeadsSnoc(prefix: string, items: seq<Entry>, k: nat)
    requires 0 < k <= |items|
    ensures Heads(prefix, items, k) == Heads(prefix, items, k - 1)
      + [Line(prefix, k - 1 == |items| - 1, items[k - 1].name, items[k - 1].node.Dir?)]
  {
  }

  /** The iteration for the entry at index `j` contributes that entry's line to its level. */
  lemma {:induction false} IterationLevel(cfg: Config, prefix: string, d: Node, items: seq<Entry>, j: nat, depth: int)
    requires d.Dir? && j < |items|
    requires forall i :: 0 <= i < |items| ==> items[i] in d.children && Shown(cfg, items[i])
    requires !Pruned(cfg, depth)
    ensures LevelLines(Iteration(cfg, prefix, d, items, j, depth), |prefix|)
         == [Line(prefix, j == |items| - 1, items[j].name, items[j].node.Dir?)]
  {
    RenderEntryLevel(cfg, prefix, items[j], j == |items| - 1, depth);
  }

  lemma {:induction false} RenderItemsLevel(cfg: Config, prefix: string, d: Node, items: seq<Entry>, k: nat, depth: int)
    requires d.Dir? && k <= |items|
    requires forall i :: 0 <= i < |items| ==> items[i] in d.children && Shown(cfg, items[i])
    requires !Pruned(cfg, depth)
    ensures LevelLines(RenderItems(cfg, prefix, d, items, k, depth), |prefix|) == Heads(prefix, items, k)
  {
    if k > 0 {
      RenderItemsLevel(cfg, prefix, d, items, k - 1, depth);
      IterationLevel(cfg, prefix, d, items, k - 1, depth);
      LevelLinesAppend(RenderItems(cfg, prefix, d, items, k - 1, depth), Iteration(cfg, prefix, d, items, k - 1, depth), |prefix|);
      HeadsSnoc(prefix, items, k);
    }
  }

  /** A call that is not pruned emits, at its own level, the head line of each entry of its listing. */
  lemma {:induction false} RenderLevel(cfg: Config, prefix: string, d: Node, depth: int)
    requires d.Dir? && !Pruned(cfg, depth)
    ensures LevelLines(Render(cfg, prefix, d, depth), |prefix|)
         == Heads(prefix, Listing(cfg, d.children), |Listing(cfg, d.children)|)
  {
    var items := Listing(cfg, d.children);
    RenderItemsLevel(cfg, prefix, d, items, |items|, depth);
  }

  /** `l` names a shown entry of `children`, with the right kind. */
  ghost predicate ShownLine(cfg: Config, children: seq<Entry>, l: Line) {
    exists e :: e in children && Shown(cfg, e) && l.name == e.name && l.isDir == e.node.Dir?
  }

  /** Some line of `level` names `e`, with the right kind. */
  ghost predicate Listed(level: seq<Line>, e: Entry) {
    exists i :: 0 <= i < |level| && level[i].name == e.name && level[i].isDir == e.node.Dir?
  }

  /**
   * The lines one call of printTree emits at its own level (prefix length
   * `|prefix|`): one per entry of the listing, in its order, each with the
   * call's prefix and the entry's name and kind; so in name order, `└──` on
   * the last and `├──` on every other, every shown entry of the directory
   * listed and nothing else, and, when the directory's names are unique
   * (as a real directory's are), no name twice.
   */
  lemma {:induction false} SiblingListing(cfg: Config, prefix: string, d: Node, depth: int)
    requires d.Dir? && !Pruned(cfg, depth)
    ensures var level := LevelLines(Render(cfg, prefix, d, depth), |prefix|);
      var items := Listing(cfg, d.children);
      && |level| == |items|
      && (forall i :: 0 <= i < |level| ==>
            level[i].prefix == prefix && level[i].name == items[i].name && level[i].isDir == items[i].node.Dir?)
      && (forall i :: 0 <= i < |level| ==> (level[i].isLast <==> i == |level| - 1))
      && (forall i, j :: 0 <= i < j < |level| ==> StrLe(level[i].name, level[j].name))
      && (forall i :: 0 <= i < |level| ==> ShownLine(cfg, d.children, level[i]))
      && (forall e :: e in d.children && Shown(cfg, e) ==> Listed(level, e))
      && (UniqueNames(d.children) ==> forall i, j :: 0 <= i < j < |level| ==> level[i].name != level[j].name)
  {
    var level := LevelLines(Render(cfg, prefix, d, depth), |prefix|);
    var items := Listing(cfg, d.children);
    RenderLevel(cfg, prefix, d, depth);
    ListingCount(cfg, d.children);
    HeadsIndex(prefix, items, level);
    HeadsShape(prefix, items, level);
    HeadsSound(cfg, prefix, d.children, items, level);
    HeadsComplete(cfg, prefix, d.children, items, level);
    if UniqueNames(d.children) {
      ListingDistinctNames(cfg, d.children);
      HeadsDistinct(prefix, items, level);
    }
  }

  /** Proof step: head line `i` carries the prefix, name and kind of entry `i`. */
  lemma HeadsIndex(prefix: string, items: seq<Entry>, level: seq<Line>)
    requires level == Heads(prefix, items, |items|)
    ensures |level| == |items|
    ensures forall i :: 0 <= i < |level| ==>
      level[i].prefix == prefix && level[i].name == items[i].name && level[i].isDir == items[i].node.Dir?
  {
  }

  /** Head lines of a sorted listing are in name order with `└──` on the last only. */
  lemma {:induction false} HeadsShape(prefix: string, items: seq<Entry>, level: seq<Line>)
    requires SortedByName(items) && level == Heads(prefix, items, |items|)
    ensures forall i :: 0 <= i < |level| ==> (level[i].isLast <==> i == |level| - 1)
    ensures forall i, j :: 0 <= i < j < |level| ==> StrLe(level[i].name, level[j].name)
  {
    SortedPairwise(items);
  }

  /** Every head line of a listing drawn from `children` names a shown entry of `children` with its kind. */
  lemma {:induction false} HeadsSound(cfg: Config, prefix: string, children: seq<Entry>, items: seq<Entry>, level: seq<Line>)
    requires forall i :: 0 <= i < |items| ==> items[i] in children && Shown(cfg, items[i])
    requires level == Heads(prefix, items, |items|)
    ensures forall i :: 0 <= i < |level| ==> ShownLine(cfg, children, level[i])
  {
    forall i | 0 <= i < |level| ensures ShownLine(cfg, children, level[i]) {
      var x := items[i];
      assert x in children && Shown(cfg, x);
      assert level[i].name == x.name && level[i].isDir == x.node.Dir?;
    }
  }

  /** Every shown entry of a directory has a head line in its listing's heads. */
  lemma {:induction false} HeadsComplete(cfg: Config, prefix: string, children: seq<Entry>, items: seq<Entry>, level: seq<Line>)
    requires items == Listing(cfg, children) && level == Heads(prefix, items, |items|)
    ensures forall e :: e in children && Shown(cfg, e) ==> Listed(level, e)
  {
    forall e | e in children && Shown(cfg, e) ensures Listed(level, e) {
      InListing(cfg, children, e);
      var i :| 0 <= i < |items| && items[i] == e;
      assert level[i].name == e.name && level[i].isDir == e.node.Dir?;
    }
  }

  /** Proof step: entries with distinct names give head lines with distinct names. */
  lemma HeadsDistinct(prefix: string, items: seq<Entry>, level: seq<Line>)
    requires level == Heads(prefix, items, |items|)
    requires forall i, j :: 0 <= i < j < |items| ==> items[i].name != items[j].name
    ensures forall i, j :: 0 <= i < j < |level| ==> level[i].name != level[j].name
  {
  }

  /** Proof step: in a directory whose names are unique, the listing names each entry once. */
  lemma {:induction false} ListingDistinctNames(cfg: Config, children: seq<Entry>)
    requires UniqueNames(children)
    ensures var items := Listing(cfg, children);
      forall i, j :: 0 <= i < j < |items| ==> items[i].name != items[j].name
  {
    var items := Listing(cfg, children);
    ListingCount(cfg, children);
    UniqueCount(children);
    assert forall x :: multiset(items)[x] <= 1;
    NoRepeats(items);
    forall i, j | 0 <= i < j < |items| ensures items[i].name != items[j].name {
      DistinctNames(children, items[i], items[j]);
    }
  }

  /** Every shown entry of a directory is in its listing. */
  lemma {:induction false} InListing(cfg: Config, children: seq<Entry>, e: Entry)
    requires e in children && Shown(cfg, e)
    ensures e in Listing(cfg, children)
  {
    var items := Listing(cfg, children);
    ListingCount(cfg, children);
    assert multiset(children)[e] > 0;
    assert multiset(items)[e] > 0;
  }

  // ---------------------------------------------------------------------------
  // Lines and the entries of the tree they stand for
  // ---------------------------------------------------------------------------

  /**
   * `path` leads from directory `d` down to an entry through entries that are
   * all shown: `path[0]` is a child of `d`, each next one a child of the one
   * before. The entry `path[|path| - 1]` lies `|path|` levels below `d`.
   */
  ghost predicate ShownPath(cfg: Config, d: Node, path: seq<Entry>)
    decreases |path|
  {
    && |path| >= 1
    && d.Dir?
    && path[0] in d.children
    && Shown(cfg, path[0])
    && (|path| == 1 || ShownPath(cfg, path[0].node, path[1..]))
  }

  /**
   * Line `j` hangs under line `i`: line `i` names a directory, line `j`'s
   * prefix is line `i`'s extended by the indentation drawn below it, and
   * every line in between is deeper than line `i`.
   */
  ghost predicate HangsUnder(ls: seq<Line>, i: int, j: int)
    requires 0 <= i < j < |ls|
  {
    && ls[i].isDir
    && ls[j].prefix == ls[i].prefix + Indent(ls[i].isLast)
    && forall m :: i < m < j ==> |ls[m].prefix| > |ls[i].prefix|
  }

  /**
   * Line `j` of `ls` draws `path[n - 1]`, the `n`-th entry along `path`,
   * seen from a listing at `prefix`: it names that entry with its kind, and
   * it either sits at `prefix` (the first entry) or hangs under a line that
   * draws the entry before it on the path.
   */
  ghost predicate DrawnAt(ls: seq<Line>, prefix: string, path: seq<Entry>, n: nat, j: int)
    requires 1 <= n <= |path|
    decreases n, 1
  {
    && 0 <= j < |ls|
    && ls[j].name == path[n - 1].name
    && ls[j].isDir == path[n - 1].node.Dir?
    && if n == 1 then ls[j].prefix == prefix else ParentDrawn(ls, prefix, path, n, j)
  }

  /** Line `j` hangs under a line that draws `path[n - 2]`, the entry before `path[n - 1]`. */
  ghost predicate ParentDrawn(ls: seq<Line>, prefix: string, path: seq<Entry>, n: nat, j: int)
    requires 1 < n <= |path| && 0 <= j < |ls|
    decreases n, 0
  {
    exists i :: 0 <= i < j && DrawnAt(ls, prefix, path, n - 1, i) && HangsUnder(ls, i, j)
  }

  /** Proof step: the first entry is drawn by a line at `prefix` that names it. */
  lemma DrawnFirst(ls: seq<Line>, prefix: string, path: seq<Entry>, j: int)
    requires |path| >= 1 && 0 <= j < |ls| && ls[j].prefix == prefix
    requires ls[j].name == path[0].name && ls[j].isDir == path[0].node.Dir?
    ensures DrawnAt(ls, prefix, path, 1, j)
  {
  }

  /** Proof step: an entry is drawn by a line naming it that hangs under the drawing of the entry before it. */
  lemma DrawnNext(ls: seq<Line>, prefix: string, path: seq<Entry>, n: nat, i: int, j: int)
    requires 1 < n <= |path| && 0 <= i < j < |ls|
    requires DrawnAt(ls, prefix, path, n - 1, i) && HangsUnder(ls, i, j)
    requires ls[j].name == path[n - 1].name && ls[j].isDir == path[n - 1].node.Dir?
    ensures DrawnAt(ls, prefix, path, n, j)
  {
  }

  /** Proof step: hanging under is kept when lines are appended. */
  lemma HangsUnderAppend(a: seq<Line>, b: seq<Line>, ls: seq<Line>, i: int, j: int)
    requires ls == a + b
    requires 0 <= i < j < |a| && HangsUnder(a, i, j)
    ensures HangsUnder(ls, i, j)
  {
    assert forall m :: i <= m <= j ==> ls[m] == a[m];
  }

  /** Proof step: hanging under moves down with lines written before. */
  lemma HangsUnderShift(a: seq<Line>, b: seq<Line>, ls: seq<Line>, i: int, j: int)
    requires ls == a + b
    requires 0 <= i < j < |b| && HangsUnder(b, i, j)
    ensures HangsUnder(ls, |a| + i, |a| + j)
  {
    assert forall m :: i <= m <= j ==> ls[|a| + m] == b[m];
    forall m | |a| + i < m < |a| + j ensures |ls[m].prefix| > |ls[|a| + i].prefix| {
      assert ls[m] == b[m - |a|];
    }
  }

  /** The `n`-th entry along a path is drawn behind `n - 1` indentation blocks added to `prefix`. */
  lemma {:induction false} DrawnAtDepth(ls: seq<Line>, prefix: string, path: seq<Entry>, n: nat, j: int)
    requires 1 <= n <= |path| && DrawnAt(ls, prefix, path, n, j)
    ensures prefix <= ls[j].prefix && |ls[j].prefix| == |prefix| + 4 * (n - 1)
    decreases n
  {
    if n > 1 {
      var i :| 0 <= i < j && DrawnAt(ls, prefix, path, n - 1, i) && HangsUnder(ls, i, j);
      DrawnAtDepth(ls, prefix, path, n - 1, i);
    }
  }

  /** Lines written after a drawing leave it in place. */
  lemma {:induction false} DrawnAtAppend(a: seq<Line>, b: seq<Line>, ls: seq<Line>, prefix: string, path: seq<Entry>, n: nat, j: int)
    requires ls == a + b
    requires 1 <= n <= |path| && DrawnAt(a, prefix, path, n, j)
    ensures DrawnAt(ls, prefix, path, n, j)
    decreases n
  {
    assert ls[j] == a[j];
    if n == 1 {
      DrawnFirst(ls, prefix, path, j);
    } else {
      var i :| 0 <= i < j && DrawnAt(a, prefix, path, n - 1, i) && HangsUnder(a, i, j);
      DrawnAtAppend(a, b, ls, prefix, path, n - 1, i);
      HangsUnderAppend(a, b, ls, i, j);
      DrawnNext(ls, prefix, path, n, i, j);
    }
  }

  /** Lines written before a drawing move it down by their number. */
  lemma {:induction false} DrawnAtShift(a: seq<Line>, b: seq<Line>, ls: seq<Line>, prefix: string, path: seq<Entry>, n: nat, j: int)
    requires ls == a + b
    requires 1 <= n <= |path| && DrawnAt(b, prefix, path, n, j)
    ensures DrawnAt(ls, prefix, path, n, |a| + j)
    decreases n
  {
    assert ls[|a| + j] == b[j];
    if n == 1 {
      DrawnFirst(ls, prefix, path, |a| + j);
    } else {
      var i :| 0 <= i < j && DrawnAt(b, prefix, path, n - 1, i) && HangsUnder(b, i, j);
      DrawnAtShift(a, b, ls, prefix, path, n - 1, i);
      HangsUnderShift(a, b, ls, i, j);
      DrawnNext(ls, prefix, path, n, |a| + i, |a| + j);
    }
  }

  /** Proof step: the first line of a subtree written under its directory's line hangs under that line. */
  lemma HangsUnderHead(prefix: string, name: string, isLast: bool, sub: seq<Line>, cur: seq<Line>, j: int)
    requires cur == [Line(prefix, isLast, name, true)] + sub
    requires 0 <= j < |sub| && sub[j].prefix == prefix + Indent(isLast)
    requires forall m :: 0 <= m < |sub| ==> |sub[m].prefix| > |prefix|
    ensures HangsUnder(cur, 0, 1 + j)
  {
    forall m | 0 < m < 1 + j ensures |cur[m].prefix| > |cur[0].prefix| {
      assert cur[m] == sub[m - 1];
    }
  }

  /** Proof step: the first-level entries of a subtree hang under the line of its directory `path[0]`. */
  lemma BelowHeadFirst(prefix: string, isLast: bool, sub: seq<Line>, cur: seq<Line>, path: seq<Entry>, tail: seq<Entry>, j: int, k: int)
    requires 1 < |path| && path[0].node.Dir? && tail == path[1..] && k == 1 + j
    requires cur == [Line(prefix, isLast, path[0].name, true)] + sub
    requires forall m :: 0 <= m < |sub| ==> |sub[m].prefix| > |prefix|
    requires DrawnAt(sub, prefix + Indent(isLast), tail, 1, j)
    ensures DrawnAt(cur, prefix, path, 2, k)
  {
    assert cur[k] == sub[j] && tail[0] == path[1];
    DrawnFirst(cur, prefix, path, 0);
    HangsUnderHead(prefix, path[0].name, isLast, sub, cur, j);
    DrawnNext(cur, prefix, path, 2, 0, k);
  }

  /**
   * A subtree drawn at `prefix + Indent(isLast)`, all of it deeper than
   * `prefix` and written right after the line of the directory `path[0]`,
   * draws each entry along the rest of `path`, `tail`, under that line:
   * line `j` of the subtree, drawing the `m`-th entry of `tail`, is line
   * `k == 1 + j` of the whole, drawing the `n == m + 1`-th entry of `path`.
   */
  lemma {:induction false} DrawnBelowHead(prefix: string, isLast: bool, sub: seq<Line>, cur: seq<Line>,
                                          path: seq<Entry>, tail: seq<Entry>, m: nat, n: nat, j: int, k: int)
    requires 1 <= m && n == m + 1 && n <= |path| && path[0].node.Dir? && tail == path[1..] && k == 1 + j
    requires cur == [Line(prefix, isLast, path[0].name, true)] + sub
    requires forall i :: 0 <= i < |sub| ==> |sub[i].prefix| > |prefix|
    requires DrawnAt(sub, prefix + Indent(isLast), tail, m, j)
    ensures DrawnAt(cur, prefix, path, n, k)
    decreases m
  {
    if m == 1 {
      BelowHeadFirst(prefix, isLast, sub, cur, path, tail, j, k);
    } else {
      var i :| 0 <= i < j && DrawnAt(sub, prefix + Indent(isLast), tail, m - 1, i) && HangsUnder(sub, i, j);
      DrawnBelowHead(prefix, isLast, sub, cur, path, tail, m - 1, n - 1, i, 1 + i);
      HangsUnderShift([Line(prefix, isLast, path[0].name, true)], sub, cur, i, j);
      assert cur[k] == sub[j] && tail[m - 1] == path[n - 1];
      DrawnNext(cur, prefix, path, n, 1 + i, k);
    }
  }

  /** Every line of a call's subtree for a child is deeper than the call's own prefix. */
  lemma {:induction false} SubtreeDeeper(cfg: Config, prefix: string, isLast: bool, n: Node, depth: int, sub: seq<Line>)
    requires n.Dir? && sub == Render(cfg, prefix + Indent(isLast), n, depth)
    ensures forall m :: 0 <= m < |sub| ==> |sub[m].prefix| > |prefix|
  {
    RenderShape(cfg, prefix + Indent(isLast), n, depth);
    forall m | 0 <= m < |sub| ensures |sub[m].prefix| > |prefix| {
      assert sub[m] in sub;
    }
  }

  /** A drawing within one iteration of the loop is a drawing within the loop's output. */
  lemma {:induction false} IterationInItems(cfg: Config, prefix: string, d: Node, items: seq<Entry>, k: nat, i: nat, depth: int, path: seq<Entry>, j: int)
    returns (j': int)
    requires d.Dir? && i < k <= |items|
    requires forall m :: 0 <= m < |items| ==> items[m] in d.children
    requires |path| >= 1 && DrawnAt(Iteration(cfg, prefix, d, items, i, depth), prefix, path, |path|, j)
    ensures DrawnAt(RenderItems(cfg, prefix, d, items, k, depth), prefix, path, |path|, j')
    decreases k
  {
    var before := RenderItems(cfg, prefix, d, items, k - 1, depth);
    var last := Iteration(cfg, prefix, d, items, k - 1, depth);
    var all := RenderItems(cfg, prefix, d, items, k, depth);
    assert all == before + last;
    if i == k - 1 {
      DrawnAtShift(before, last, all, prefix, path, |path|, j);
      j' := |before| + j;
    } else {
      j' := IterationInItems(cfg, prefix, d, items, k - 1, i, depth, path, j);
      DrawnAtAppend(before, last, all, prefix, path, |path|, j');
    }
  }

  /**
   * Every shown entry `|path|` levels below `d` that is within the depth
   * limit is drawn: a line names it and hangs under the line of its parent
   * entry, with the prefix that parent's line leaves for its children.
   */
  lemma {:induction false} EveryShownEntryRendered(cfg: Config, prefix: string, d: Node, depth: int, path: seq<Entry>)
    returns (j: int)
    requires ShownPath(cfg, d, path)
    requires !Pruned(cfg, depth + |path| - 1)
    ensures DrawnAt(Render(cfg, prefix, d, depth), prefix, path, |path|, j)
    decreases |path|, 2
  {
    var e := path[0];
    var items := Listing(cfg, d.children);
    InListing(cfg, d.children, e);
    var i :| 0 <= i < |items| && items[i] == e;
    var isLast := i == |items| - 1;
    assert Iteration(cfg, prefix, d, items, i, depth) == RenderEntry(cfg, prefix, e, isLast, depth);
    var k := EntryDrawn(cfg, prefix, isLast, depth, path);
    assert Render(cfg, prefix, d, depth) == RenderItems(cfg, prefix, d, items, |items|, depth);
    j := IterationInItems(cfg, prefix, d, items, |items|, i, depth, path, k);
  }

  /** The lines written for a shown entry `path[0]` draw it and every shown entry below it within the depth limit. */
  lemma {:induction false} EntryDrawn(cfg: Config, prefix: string, isLast: bool, depth: int, path: seq<Entry>)
    returns (k: int)
    requires |path| >= 1 && Shown(cfg, path[0])
    requires |path| > 1 ==> ShownPath(cfg, path[0].node, path[1..])
    requires !Pruned(cfg, depth + |path| - 1)
    ensures DrawnAt(RenderEntry(cfg, prefix, path[0], isLast, depth), prefix, path, |path|, k)
    decreases |path|, 1
  {
    var cur := RenderEntry(cfg, prefix, path[0], isLast, depth);
    if |path| == 1 {
      EntryLineDrawn(cfg, prefix, isLast, depth, cur, path);
      k := 0;
    } else {
      k := SubtreeDrawn(cfg, prefix, isLast, depth, path, cur);
    }
  }

  /** Proof step: the subtree written below a shown directory `path[0]` draws the entries along the rest of `path`. */
  lemma {:induction false} SubtreeDrawn(cfg: Config, prefix: string, isLast: bool, depth: int, path: seq<Entry>, cur: seq<Line>)
    returns (k: int)
    requires |path| > 1 && Shown(cfg, path[0]) && ShownPath(cfg, path[0].node, path[1..])
    requires !Pruned(cfg, depth + |path| - 1)
    requires cur == RenderEntry(cfg, prefix, path[0], isLast, depth)
    ensures DrawnAt(cur, prefix, path, |path|, k)
    decreases |path|, 0
  {
    var e := path[0];
    var ext := prefix + Indent(isLast);
    var sub := Render(cfg, ext, e.node, depth + 1);
    assert cur == [Line(prefix, isLast, e.name, true)] + sub;
    var tail := path[1..];
    var below := EveryShownEntryRendered(cfg, ext, e.node, depth + 1, tail);
    SubtreeDeeper(cfg, prefix, isLast, e.node, depth + 1, sub);
    k := 1 + below;
    DrawnBelowHead(prefix, isLast, sub, cur, path, tail, |tail|, |path|, below, k);
  }

  /** Some shown path from `d` within the depth limit leads to the entry line `j` of `ls` draws. */
  ghost predicate FromShownEntry(cfg: Config, d: Node, prefix: string, depth: int, ls: seq<Line>, j: int) {
    exists path: seq<Entry> :: ShownPath(cfg, d, path) && !Pruned(cfg, depth + |path| - 1) && DrawnAt(ls, prefix, path, |path|, j)
  }

  /** Every line of a call draws a shown entry within the depth limit. */
  lemma {:induction false} EveryLineFromShownEntry(cfg: Config, prefix: string, d: Node, depth: int, j: int)
    returns (path: seq<Entry>)
    requires d.Dir? && 0 <= j < |Render(cfg, prefix, d, depth)|
    ensures ShownPath(cfg, d, path) && !Pruned(cfg, depth + |path| - 1)
    ensures DrawnAt(Render(cfg, prefix, d, depth), prefix, path, |path|, j)
    decreases d, 3
  {
    assert !Pruned(cfg, depth);
    var items := Listing(cfg, d.children);
    assert Render(cfg, prefix, d, depth) == RenderItems(cfg, prefix, d, items, |items|, depth);
    path := ItemsLineFromShownEntry(cfg, prefix, d, items, |items|, depth, j);
  }

  /** Every line of the loop draws a shown entry within the depth limit. */
  lemma {:induction false} ItemsLineFromShownEntry(cfg: Config, prefix: string, d: Node, items: seq<Entry>, k: nat, depth: int, j: int)
    returns (path: seq<Entry>)
    requires d.Dir? && k <= |items| && !Pruned(cfg, depth)
    requires forall m :: 0 <= m < |items| ==> items[m] in d.children && Shown(cfg, items[m])
    requires 0 <= j < |RenderItems(cfg, prefix, d, items, k, depth)|
    ensures ShownPath(cfg, d, path) && !Pruned(cfg, depth + |path| - 1)
    ensures DrawnAt(RenderItems(cfg, prefix, d, items, k, depth), prefix, path, |path|, j)
    decreases d, 2, k
  {
    var before := RenderItems(cfg, prefix, d, items, k - 1, depth);
    var last := Iteration(cfg, prefix, d, items, k - 1, depth);
    var all := RenderItems(cfg, prefix, d, items, k, depth);
    assert all == before + last;
    if j < |before| {
      path := ItemsLineFromShownEntry(cfg, prefix, d, items, k - 1, depth, j);
      DrawnAtAppend(before, last, all, prefix, path, |path|, j);
    } else {
      path := LastIterationLine(cfg, prefix, d, items, k, depth, before, last, all, j - |before|);
    }
  }

  /** Proof step: a line of the loop's last iteration draws a shown entry within the depth limit. */
  lemma {:induction false} LastIterationLine(cfg: Config, prefix: string, d: Node, items: seq<Entry>, k: nat, depth: int,
                                             before: seq<Line>, last: seq<Line>, all: seq<Line>, j: int)
    returns (path: seq<Entry>)
    requires d.Dir? && 0 < k <= |items| && !Pruned(cfg, depth)
    requires forall m :: 0 <= m < |items| ==> items[m] in d.children && Shown(cfg, items[m])
    requires last == Iteration(cfg, prefix, d, items, k - 1, depth) && all == before + last
    requires 0 <= j < |last|
    ensures ShownPath(cfg, d, path) && !Pruned(cfg, depth + |path| - 1)
    ensures DrawnAt(all, prefix, path, |path|, |before| + j)
    decreases d, 1
  {
    var e := items[k - 1];
    assert last == RenderEntry(cfg, prefix, e, k - 1 == |items| - 1, depth);
    path := IterationLineFromShownEntry(cfg, prefix, d, depth, e, k - 1 == |items| - 1, j);
    DrawnAtShift(before, last, all, prefix, path, |path|, j);
  }

  /** Every line of one iteration draws its entry, or an entry below it. */
  lemma {:induction false} IterationLineFromShownEntry(cfg: Config, prefix: string, d: Node, depth: int, e: Entry, isLast: bool, j: int)
    returns (path: seq<Entry>)
    requires d.Dir? && !Pruned(cfg, depth) && e in d.children && Shown(cfg, e)
    requires 0 <= j < |RenderEntry(cfg, prefix, e, isLast, depth)|
    ensures ShownPath(cfg, d, path) && !Pruned(cfg, depth + |path| - 1)
    ensures DrawnAt(RenderEntry(cfg, prefix, e, isLast, depth), prefix, path, |path|, j)
    decreases e.node, 5
  {
    var cur := RenderEntry(cfg, prefix, e, isLast, depth);
    if j == 0 {
      path := [e];
      EntryLineDrawn(cfg, prefix, isLast, depth, cur, path);
    } else {
      path := SubtreeLine(cfg, prefix, d, depth, e, isLast, cur, j);
    }
  }

  /** Proof step: the first line written for a shown entry draws that entry. */
  lemma EntryLineDrawn(cfg: Config, prefix: string, isLast: bool, depth: int, cur: seq<Line>, path: seq<Entry>)
    requires |path| >= 1 && Shown(cfg, path[0])
    requires cur == RenderEntry(cfg, prefix, path[0], isLast, depth)
    ensures |cur| >= 1 && DrawnAt(cur, prefix, path, 1, 0)
  {
    assert cur[0] == Line(prefix, isLast, path[0].name, path[0].node.Dir?);
    DrawnFirst(cur, prefix, path, 0);
  }

  /** Proof step: a line of the subtree written below a shown directory `e` draws a shown entry within the depth limit. */
  lemma {:induction false} SubtreeLine(cfg: Config, prefix: string, d: Node, depth: int, e: Entry, isLast: bool, cur: seq<Line>, j: int)
    returns (path: seq<Entry>)
    requires d.Dir? && !Pruned(cfg, depth) && e in d.children && Shown(cfg, e)
    requires cur == RenderEntry(cfg, prefix, e, isLast, depth) && 0 < j < |cur|
    ensures ShownPath(cfg, d, path) && !Pruned(cfg, depth + |path| - 1)
    ensures DrawnAt(cur, prefix, path, |path|, j)
    decreases e.node, 4
  {
    var ext := prefix + Indent(isLast);
    var sub := Render(cfg, ext, e.node, depth + 1);
    assert e.node.Dir? && cur == [Line(prefix, isLast, e.name, true)] + sub;
    var below := EveryLineFromShownEntry(cfg, ext, e.node, depth + 1, j - 1);
    SubtreeDeeper(cfg, prefix, isLast, e.node, depth + 1, sub);
    path := [e] + below;
    assert path[0] == e && path[1..] == below && |path| == |below| + 1;
    assert ShownPath(cfg, d, path);
    assert depth + |path| - 1 == (depth + 1) + |below| - 1;
    DrawnBelowHead(prefix, isLast, sub, cur, path, below, |below|, |path|, j - 1, j);
  }

  /** Some line of `ls` draws the entry `path` leads to. */
  ghost predicate Drawn(ls: seq<Line>, prefix: string, path: seq<Entry>)
    requires |path| >= 1
  {
    exists j :: DrawnAt(ls, prefix, path, |path|, j)
  }

  /** Proof step: the first half of `LinesAreShownEntries`. */
  lemma ShownEntriesDrawn(cfg: Config, root: Node)
    ensures forall path :: ShownPath(cfg, root, path) && (cfg.maxDepth == -1 || |path| <= cfg.maxDepth) ==>
      Drawn(Render(cfg, "", root, 1), "", path)
  {
    forall path | ShownPath(cfg, root, path) && (cfg.maxDepth == -1 || |path| <= cfg.maxDepth)
      ensures Drawn(Render(cfg, "", root, 1), "", path)
    {
      var j := EveryShownEntryRendered(cfg, "", root, 1, path);
    }
  }

  /** Proof step: the second half of `LinesAreShownEntries`. */
  lemma LinesDrawShownEntries(cfg: Config, root: Node)
    requires root.Dir?
    ensures var ls := Render(cfg, "", root, 1);
      forall j :: 0 <= j < |ls| ==> FromShownEntry(cfg, root, "", 1, ls, j)
  {
    var ls := Render(cfg, "", root, 1);
    forall j | 0 <= j < |ls| ensures FromShownEntry(cfg, root, "", 1, ls, j) {
      var path := EveryLineFromShownEntry(cfg, "", root, 1, j);
    }
  }

  /**
   * From the root (index.js:135): every shown entry within the depth limit
   * (all of them when `maxDepth` is -1) is drawn under its parent's line,
   * and every line draws such an entry.
   */
  lemma {:induction false} LinesAreShownEntries(cfg: Config, root: Node)
    requires root.Dir?
    ensures forall path :: ShownPath(cfg, root, path) && (cfg.maxDepth == -1 || |path| <= cfg.maxDepth) ==>
      Drawn(Render(cfg, "", root, 1), "", path)
    ensures var ls := Render(cfg, "", root, 1);
      forall j :: 0 <= j < |ls| ==> FromShownEntry(cfg, root, "", 1, ls, j)
  {
    ShownEntriesDrawn(cfg, root);
    LinesDrawShownEntries(cfg, root);
  }

  // ---------------------------------------------------------------------------
  // Pre-order
  // ---------------------------------------------------------------------------

  /** Line `j` hangs under some earlier directory line. */
  ghost predicate HasParent(ls: seq<Line>, j: int)
    requires 0 <= j < |ls|
  {
    exists i :: 0 <= i < j && HangsUnder(ls, i, j)
  }

  /** Every line deeper than `n` hangs under an earlier directory line. */
  ghost predicate PreOrder(ls: seq<Line>, n: nat) {
    forall j {:trigger HasParent(ls, j)} :: 0 <= j < |ls| && |ls[j].prefix| > n ==> HasParent(ls, j)
  }

  /**
   * Depth-first, pre-order output: every line below a call's own level comes
   * after the line of the directory it belongs to, with that line's prefix
   * plus the indentation below it, and only deeper lines in between.
   */
  lemma {:induction false} RenderPreOrder(cfg: Config, prefix: string, d: Node, depth: int)
    requires d.Dir?
    ensures PreOrder(Render(cfg, prefix, d, depth), |prefix|)
  {
    var ls := Render(cfg, prefix, d, depth);
    forall j | 0 <= j < |ls| && |ls[j].prefix| > |prefix| ensures HasParent(ls, j) {
      var path := EveryLineFromShownEntry(cfg, prefix, d, depth, j);
      assert |path| > 1;
      var i :| 0 <= i < j && DrawnAt(ls, prefix, path, |path| - 1, i) && HangsUnder(ls, i, j);
    }
  }
}
