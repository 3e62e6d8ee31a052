/**
 * The program as a whole: the output file `directory_structure.txt`, the
 * `printTree` walk that appends to it line by line, and the top level of
 * index.js that checks the directory, empties the file, writes the root line
 * and then the tree.
 */
module Output {
  import opened Seqs
  import opened FileTree
  import opened Renderer
  import opened Description
  import opened Cli

  /** `directory_structure.txt`, as the lines written to it so far (each is followed by "\n" in the file). */
  class OutputFile {
    var lines: seq<string>

    constructor ()
      ensures lines == []
    {
      lines := [];
    }

    /** `writeFileSync(outputFile, "")`. */
    method Truncate()
      modifies this
      ensures lines == []
    {
      lines := [];
    }

    /** `appendFileSync(outputFile, line + "\n")`. */
    method Append(line: string)
      modifies this
      ensures lines == old(lines) + [line]
    {
      lines := lines + [line];
    }
  }

  /**
   * Proof step of `PrintItems`: one more pass of the loop appends the text of that
   * iteration to a file that already holds `start` and the earlier passes.
   */
  lemma {:induction false} ItemsTextsSnoc(cfg: Config, prefix: string, d: Node, items: seq<Entry>, k: nat, depth: int, start: seq<string>)
    requires d.Dir? && k < |items|
    requires forall i :: 0 <= i < |items| ==> items[i] in d.children
    ensures start + Texts(RenderItems(cfg, prefix, d, items, k + 1, depth))
         == (start + Texts(RenderItems(cfg, prefix, d, items, k, depth))) + Texts(RenderEntry(cfg, prefix, items[k], k == |items| - 1, depth))
  {
    var done := RenderItems(cfg, prefix, d, items, k, depth);
    var current := RenderEntry(cfg, prefix, items[k], k == |items| - 1, depth);
    assert RenderItems(cfg, prefix, d, items, k + 1, depth) == done + current;
    TextsAppend(done, current);
    assert start + (Texts(done) + Texts(current)) == (start + Texts(done)) + Texts(current);
  }

  /** Proof step of `PrintTree`: a call either is pruned and writes nothing, or writes the text of its whole loop. */
  lemma {:induction false} RenderTexts(cfg: Config, prefix: string, d: Node, depth: int)
    requires d.Dir?
    ensures Pruned(cfg, depth) ==> Texts(Render(cfg, prefix, d, depth)) == []
    ensures !Pruned(cfg, depth) ==> (Texts(Render(cfg, prefix, d, depth))
         == Texts(RenderItems(cfg, prefix, d, Listing(cfg, d.children), |Listing(cfg, d.children)|, depth)))
  {
  }

  /** Proof step of `PrintEntry`: the text of one iteration is the entry's line when it is printed, then its subtree for a directory. */
  lemma {:induction false} EntryTexts(cfg: Config, prefix: string, e: Entry, isLast: bool, depth: int, start: seq<string>)
    ensures e.node.Dir? ==> (start + Texts(RenderEntry(cfg, prefix, e, isLast, depth))
         == (start + [Text(Line(prefix, isLast, e.name, true))]) + Texts(Render(cfg, prefix + Indent(isLast), e.node, depth + 1)))
    ensures e.node.File? && cfg.showAll ==> Texts(RenderEntry(cfg, prefix, e, isLast, depth)) == [Text(Line(prefix, isLast, e.name, false))]
    ensures e.node.File? && !cfg.showAll ==> Texts(RenderEntry(cfg, prefix, e, isLast, depth)) == []
  {
    if e.node.Dir? {
      var head := [Line(prefix, isLast, e.name, true)];
      var sub := Render(cfg, prefix + Indent(isLast), e.node, depth + 1);
      TextsAppend(head, sub);
      assert Texts(head) == [Text(Line(prefix, isLast, e.name, true))];
      assert start + (Texts(head) + Texts(sub)) == (start + Texts(head)) + Texts(sub);
    }
  }

  /**
   * `printTree(prefix, dir, currentDepth)`: appends to the output file the
   * text of exactly the lines `Render` describes, in that order, and touches
   * nothing else.
   */
  method PrintTree(out: OutputFile, cfg: Config, prefix: string, d: Node, depth: int)
    requires d.Dir?
    modifies out
    ensures out.lines == old(out.lines) + Texts(Render(cfg, prefix, d, depth))
    decreases d, 1
  {
    RenderTexts(cfg, prefix, d, depth);
    if cfg.maxDepth != -1 && depth > cfg.maxDepth {
      return;
    }
    var items := Listing(cfg, d.children);
    PrintItems(out, cfg, prefix, d, items, depth);
  }

  /** `items.forEach(...)`: the callback on each entry of the listing in turn, the last one told it is last. */
  method PrintItems(out: OutputFile, cfg: Config, prefix: string, d: Node, items: seq<Entry>, depth: int)
    requires d.Dir? && forall i :: 0 <= i < |items| ==> items[i] in d.children
    modifies out
    ensures out.lines == old(out.lines) + Texts(RenderItems(cfg, prefix, d, items, |items|, depth))
    decreases d, 0
  {
    ghost var start := out.lines;
    var k := 0;
    while k < |items|
      invariant 0 <= k <= |items|
      invariant out.lines == start + Texts(RenderItems(cfg, prefix, d, items, k, depth))
    {
      var isLast := k == |items| - 1;
      PrintEntry(out, cfg, prefix, items[k], isLast, depth);
      ItemsTextsSnoc(cfg, prefix, d, items, k, depth, start);
      k := k + 1;
    }
  }

  /**
   * The `forEach` callback: the entry's line when it is printed, then, for a
   * directory, the subtree below it with the prefix extended.
   */
  method PrintEntry(out: OutputFile, cfg: Config, prefix: string, e: Entry, isLast: bool, depth: int)
    modifies out
    ensures out.lines == old(out.lines) + Texts(RenderEntry(cfg, prefix, e, isLast, depth))
    decreases e.node, 2
  {
    var isDirectory := e.node.Dir?;
    EntryTexts(cfg, prefix, e, isLast, depth, out.lines);
    if isDirectory || cfg.showAll {
      var text := Text(Line(prefix, isLast, e.name, isDirectory));
      out.Append(text);
      if isDirectory {
        PrintTree(out, cfg, prefix + Indent(isLast), e.node, depth + 1);
      }
    }
  }

  /** How a run ends. */
  datatype Outcome =
    | Saved                         // "Directory structure has been saved to ..."
    | Usage(reason: UsageError)     // the usage text and exit status 1
    | NoSuchDirectory               // "Error: Directory does not exist" and exit status 1
    | Crashed(failure: Failure)     // `findDescription` threw; nothing catches it

  /**
   * What the output file holds after a run on a directory: the root line,
   * then the tree; or the failure that stopped the run after the file was
   * emptied.
   */
  function Report(cfg: Config, rootName: string, root: Node, parse: string -> Package): (r: Result<seq<string>, Failure>)
    requires root.Dir?
    ensures r.Ok? ==> |r.value| == 1 + |Render(cfg, "", root, 1)|
    ensures r.Ok? ==> r.value[1..] == Texts(Render(cfg, "", root, 1))
    ensures r.Ok? ==> exists desc :: FindDescription(root.children, parse) == Ok(desc) && r.value[0] == RootLine(rootName, desc)
    ensures r.Err? <==> FindDescription(root.children, parse).Err?
  {
    match FindDescription(root.children, parse)
    case Err(f) => Err(f)
    case Ok(desc) =>
      var r := [RootLine(rootName, desc)] + Texts(Render(cfg, "", root, 1));
      assert r[1..] == Texts(Render(cfg, "", root, 1));
      Ok(r)
  }

  /** `existsSync(directory) && statSync(directory).isDirectory()`. */
  predicate NamesDirectory(n: Option<Node>) {
    n.Some? && n.value.Dir?
  }

  /**
   * index.js from the argument loop to the last `appendFileSync`. `resolve`
   * stands for `existsSync`/`statSync` on the directory path: the node the
   * path names, if any. The output file is left alone unless the path names
   * a directory; then it is emptied, and holds the report once the run
   * completes.
   */
  method Run(args: seq<string>, resolve: string -> Option<Node>, parse: string -> Package, out: OutputFile)
    returns (outcome: Outcome)
    modifies out
    ensures outcome == Usage(Help) <==> HelpReached(args)
    ensures outcome.Usage? <==> HelpReached(args) || TooManyPaths(args, |args|) || DirectoryAfter(args, |args|) == ""
    ensures outcome.Usage? || outcome == NoSuchDirectory ==> out.lines == old(out.lines)
    ensures !outcome.Usage? ==> (outcome == NoSuchDirectory <==> !NamesDirectory(resolve(DirectoryAfter(args, |args|))))
    ensures !outcome.Usage? && NamesDirectory(resolve(DirectoryAfter(args, |args|))) ==>
      var directory := DirectoryAfter(args, |args|);
      var cfg := Config(ShowAllAfter(args, |args|), DepthAfter(args, |args|));
      var report := Report(cfg, Basename(directory), resolve(directory).value, parse);
      && (report.Ok? ==> outcome == Saved && out.lines == report.value)
      && (report.Err? ==> outcome == Crashed(report.error) && out.lines == [])
  {
    var parsed := ParseArgs(args);
    DirectoryAfterIsPath(args, |args|);
    if parsed.Err? {
      match parsed.error {
        case Help =>
        case MultiplePaths =>
        case NoDirectory => assert DirectoryAfter(args, |args|) == "";
      }
      return Usage(parsed.error);
    }
    var opts := parsed.value;
    var root := resolve(opts.directory);
    if root.None? || !root.value.Dir? {
      return NoSuchDirectory;
    }
    out.Truncate();
    var rootName := Basename(opts.directory);
    var rootComment := FindDescription(root.value.children, parse);
    if rootComment.Err? {
      return Crashed(rootComment.error);
    }
    var rootLine := RootLine(rootName, rootComment.value);
    out.Append(rootLine);
    assert out.lines == [rootLine];
    var cfg := Config(opts.showAll, opts.maxDepth);
    PrintTree(out, cfg, "", root.value, 1);
    assert Report(cfg, rootName, root.value, parse) == Ok([rootLine] + Texts(Render(cfg, "", root.value, 1)));
    return Saved;
  }
}
