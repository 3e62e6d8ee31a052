/**
 * The command line of index.js: `[--A | --F] [--<number>] /path/to/directory`,
 * read left to right into three module-level settings, with `-h`/`--help`,
 * a second path and a missing path ending the program with the usage text.
 */
module Cli {
  import opened Seqs

  /** Why the usage text is printed and the program exits with status 1. */
  datatype UsageError = Help | MultiplePaths | NoDirectory

  /** The settings the argument loop leaves behind. */
  datatype Options = Options(showAll: bool, maxDepth: int, directory: string)

  predicate IsDigit(c: char) {
    '0' <= c <= '9'
  }

  /** `arg.match(/^--\d+$/)`: two dashes followed by one or more ASCII digits. */
  predicate IsDepthFlag(arg: string) {
    |arg| > 2 && arg[0] == '-' && arg[1] == '-' && forall i :: 2 <= i < |arg| ==> IsDigit(arg[i])
  }

  predicate IsHelp(arg: string) {
    arg == "-h" || arg == "--help"
  }

  /** An argument that is none of the options, and so is taken as the directory path. */
  predicate IsPositional(arg: string) {
    arg != "--A" && arg != "--F" && !IsDepthFlag(arg) && !IsHelp(arg)
  }

  function DigitValue(c: char): (v: nat)
    requires IsDigit(c)
    ensures v < 10
  {
    c as int - '0' as int
  }

  /** `parseInt` of a string of decimal digits. */
  function DecimalValue(s: string): nat
    requires forall i :: 0 <= i < |s| ==> IsDigit(s[i])
  {
    if s == [] then 0
    else DecimalValue(s[..|s| - 1]) * 10 + DigitValue(s[|s| - 1])
  }

  /** Leading zeros do not change the value: `--03` limits the depth to 3. */
  lemma {:induction false} DecimalLeadingZero(s: string)
    requires forall i :: 0 <= i < |s| ==> IsDigit(s[i])
    ensures DecimalValue("0" + s) == DecimalValue(s)
  {
    if s != [] {
      var z := "0" + s;
      assert z[..|z| - 1] == "0" + s[..|s| - 1];
      DecimalLeadingZero(s[..|s| - 1]);
    }
  }

  /** The digits of a number, most significant first: the inverse of `DecimalValue` on canonical strings. */
  function Digits(n: nat): (s: string)
    ensures forall i :: 0 <= i < |s| ==> IsDigit(s[i])
    ensures |s| > 0 && (s[0] == '0' ==> n == 0)
  {
    if n < 10 then [('0' as int + n) as char]
    else Digits(n / 10) + [('0' as int + n % 10) as char]
  }

  /** Every depth written without leading zeros is read back exactly. */
  lemma {:induction false} DecimalDigits(n: nat)
    ensures DecimalValue(Digits(n)) == n
  {
    if n >= 10 {
      DecimalDigits(n / 10);
      var s := Digits(n);
      assert s[..|s| - 1] == Digits(n / 10);
    }
  }

  /** The value `--<digits>` sets `maxDepth` to. */
  function DepthOf(arg: string): nat
    requires IsDepthFlag(arg)
  {
    DecimalValue(arg[2..])
  }

  // ---------------------------------------------------------------------------
  // What the loop computes, stated over the first `n` arguments
  // ---------------------------------------------------------------------------

  /** `showAll` after the first `n` arguments: set by the last `--A` or `--F` among them, false when none. */
  function ShowAllAfter(args: seq<string>, n: nat): bool
    requires n <= |args|
  {
    if n == 0 then false
    else if args[n - 1] == "--A" then true
    else if args[n - 1] == "--F" then false
    else ShowAllAfter(args, n - 1)
  }

  /** `maxDepth` after the first `n` arguments: the last `--<digits>` among them, -1 when none. */
  function DepthAfter(args: seq<string>, n: nat): int
    requires n <= |args|
  {
    if n == 0 then -1
    else if IsDepthFlag(args[n - 1]) then DepthOf(args[n - 1])
    else DepthAfter(args, n - 1)
  }

  /** `directory` after the first `n` arguments: the first non-empty path among them, "" when none. */
  function DirectoryAfter(args: seq<string>, n: nat): string
    requires n <= |args|
  {
    if n == 0 then ""
    else if DirectoryAfter(args, n - 1) != "" then DirectoryAfter(args, n - 1)
    else if IsPositional(args[n - 1]) then args[n - 1]
    else ""
  }

  /** The directory is "" exactly when every path given is empty, and otherwise it is one of the paths given. */
  lemma {:induction false} DirectoryAfterIsPath(args: seq<string>, n: nat)
    requires n <= |args|
    ensures DirectoryAfter(args, n) == "" <==> forall i :: 0 <= i < n && IsPositional(args[i]) ==> args[i] == ""
    ensures DirectoryAfter(args, n) != "" ==> exists i :: 0 <= i < n && IsPositional(args[i]) && args[i] == DirectoryAfter(args, n)
  {
    if n > 0 {
      DirectoryAfterIsPath(args, n - 1);
    }
  }

  /** Among the first `n` arguments, a non-empty path is followed by another path. */
  ghost predicate TooManyPaths(args: seq<string>, n: nat)
    requires n <= |args|
  {
    exists i, j :: 0 <= i < j < n && IsPositional(args[i]) && args[i] != "" && IsPositional(args[j])
  }

  /** Some `-h`/`--help` is reached before a second path has ended the loop. */
  ghost predicate HelpReached(args: seq<string>)
  {
    exists h :: 0 <= h < |args| && IsHelp(args[h]) && !TooManyPaths(args, h)
  }

  /**
   * Without a second path among the first `n` arguments, every non-empty
   * path among them is the directory chosen.
   */
  lemma {:induction false} DirectoryAfterOnly(args: seq<string>, n: nat)
    requires n <= |args| && !TooManyPaths(args, n)
    ensures forall i :: 0 <= i < n && IsPositional(args[i]) && args[i] != "" ==> args[i] == DirectoryAfter(args, n)
  {
    if n > 0 {
      assert !TooManyPaths(args, n - 1);
      DirectoryAfterOnly(args, n - 1);
      if IsPositional(args[n - 1]) && args[n - 1] != "" {
        assert forall i :: 0 <= i < n - 1 && IsPositional(args[i]) ==> args[i] == "";
        DirectoryAfterIsPath(args, n - 1);
      }
    }
  }

  /** A path after a non-empty directory is a second path. */
  lemma {:induction false} SecondPath(args: seq<string>, n: nat)
    requires n < |args| && IsPositional(args[n]) && DirectoryAfter(args, n) != ""
    ensures TooManyPaths(args, n + 1)
  {
    DirectoryAfterIsPath(args, n);
    var i :| 0 <= i < n && IsPositional(args[i]) && args[i] == DirectoryAfter(args, n);
    assert IsPositional(args[i]) && args[i] != "" && IsPositional(args[n]);
  }

  /** An argument that is no path, or a path while none is set, adds no second path. */
  lemma {:induction false} PathsStep(args: seq<string>, n: nat)
    requires n < |args| && !TooManyPaths(args, n)
    requires IsPositional(args[n]) ==> DirectoryAfter(args, n) == ""
    ensures !TooManyPaths(args, n + 1)
  {
    DirectoryAfterIsPath(args, n);
  }

  /**
   * The argument loop and the check after it. The empty string counts as
   * "no directory yet" (`!directory`), so an empty path may be followed by
   * another.
   */
  method ParseArgs(args: seq<string>) returns (r: Result<Options, UsageError>)
    ensures r == Err(Help) <==> HelpReached(args)
    ensures r == Err(MultiplePaths) <==> !HelpReached(args) && TooManyPaths(args, |args|)
    ensures r == Err(NoDirectory) <==> (!HelpReached(args) && !TooManyPaths(args, |args|)
      && forall i :: 0 <= i < |args| && IsPositional(args[i]) ==> args[i] == "")
    ensures r.Ok? ==> r.value.directory != ""
    ensures r.Ok? ==> exists i :: 0 <= i < |args| && IsPositional(args[i]) && args[i] == r.value.directory
    ensures r.Ok? ==> forall i :: 0 <= i < |args| && IsPositional(args[i]) && args[i] != "" ==> args[i] == r.value.directory
    ensures r.Ok? ==> r.value == Options(ShowAllAfter(args, |args|), DepthAfter(args, |args|), DirectoryAfter(args, |args|))
  {
    var showAll := false;
    var directory := "";
    var maxDepth: int := -1;
    var n := 0;
    while n < |args|
      invariant 0 <= n <= |args|
      invariant showAll == ShowAllAfter(args, n) && maxDepth == DepthAfter(args, n)
      invariant directory == DirectoryAfter(args, n)
      invariant forall h :: 0 <= h < n ==> !IsHelp(args[h])
      invariant !TooManyPaths(args, n)
    {
      var arg := args[n];
      if arg == "--A" {
        showAll := true;
      } else if arg == "--F" {
        showAll := false;
      } else if IsDepthFlag(arg) {
        maxDepth := DepthOf(arg);
      } else if IsHelp(arg) {
        assert IsHelp(args[n]) && !TooManyPaths(args, n);
        return Err(Help);
      } else if directory == "" {
        directory := arg;
      } else {
        SecondPath(args, n);
        NoHelpBefore(args, n);
        return Err(MultiplePaths);
      }
      PathsStep(args, n);
      n := n + 1;
    }
    NoHelpAt(args);
    DirectoryAfterIsPath(args, |args|);
    DirectoryAfterOnly(args, |args|);
    if directory == "" {
      return Err(NoDirectory);
    }
    return Ok(Options(showAll, maxDepth, directory));
  }

  /** Once a second path ends the loop, no earlier `-h` was seen. */
  lemma {:induction false} NoHelpBefore(args: seq<string>, n: nat)
    requires n < |args| && TooManyPaths(args, n + 1) && !TooManyPaths(args, n)
    requires forall h :: 0 <= h < n ==> !IsHelp(args[h])
    requires !IsHelp(args[n])
    ensures !HelpReached(args)
  {
    forall h | 0 <= h < |args| && IsHelp(args[h]) ensures TooManyPaths(args, h) {
      var i, j :| 0 <= i < j < n + 1 && IsPositional(args[i]) && args[i] != "" && IsPositional(args[j]);
      assert h > n;
    }
  }

  /** When the loop ran to the end, no argument asked for help. */
  lemma {:induction false} NoHelpAt(args: seq<string>)
    requires forall h :: 0 <= h < |args| ==> !IsHelp(args[h])
    ensures !HelpReached(args)
  {
  }

  // ---------------------------------------------------------------------------
  // The root line
  // ---------------------------------------------------------------------------

  /** Drops the slashes at the end of a path. */
  function StripTrailingSlashes(path: string): (r: string)
    ensures r <= path
    ensures r == [] || r[|r| - 1] != '/'
    ensures forall i :: |r| <= i < |path| ==> path[i] == '/'
  {
    if path != [] && path[|path| - 1] == '/' then StripTrailingSlashes(path[..|path| - 1]) else path
  }

  /** The part of a path after its last slash. */
  function LastSegment(path: string): (r: string)
    ensures |r| <= |path| && r == path[|path| - |r|..]
    ensures '/' !in r
    ensures |r| < |path| ==> path[|path| - |r| - 1] == '/'
  {
    if path == [] || path[|path| - 1] == '/' then []
    else
      var r := LastSegment(path[..|path| - 1]) + [path[|path| - 1]];
      assert path[..|path| - 1][|path| - |r|..] + [path[|path| - 1]] == path[|path| - |r|..];
      r
  }

  /** `path.basename(directory)`: the last component, trailing slashes ignored. */
  function Basename(path: string): (r: string)
    ensures '/' !in r
  {
    LastSegment(StripTrailingSlashes(path))
  }

  /** A path without slashes is its own base name. */
  lemma {:induction false} BasenamePlain(path: string)
    requires '/' !in path
    ensures Basename(path) == path
  {
    assert StripTrailingSlashes(path) == path;
    assert |LastSegment(path)| == |path|;
  }

  /** Nine spaces separate the root name from its description. */
  const RootGap: string := "         "

  /** The first line of the output: the root's name and "/", then its description when there is one. */
  function RootLine(rootName: string, description: string): (r: string)
    ensures |r| > |rootName| && r[..|rootName|] == rootName && r[|rootName|] == '/'
    ensures description == "" ==> |r| == |rootName| + 1
    ensures description != "" ==> r[|rootName| + 1..] == RootGap + description
  {
    if description != "" then rootName + "/" + RootGap + description else rootName + "/"
  }

  /** Index of the first "/" at or after `i`, or `|s|`. */
  function SlashFrom(s: string, i: nat): (j: nat)
    requires i <= |s|
    ensures i <= j <= |s|
    ensures forall k :: i <= k < j ==> s[k] != '/'
    ensures j == |s| || s[j] == '/'
    decreases |s| - i
  {
    if i < |s| && s[i] != '/' then SlashFrom(s, i + 1) else i
  }

  /** Reads a root line back: the text before its first "/", and what follows the gap. */
  function SplitRootLine(line: string): (string, string) {
    var k := SlashFrom(line, 0);
    (line[..k], if k + 10 <= |line| then line[k + 10..] else "")
  }

  /** The root line keeps both parts apart: a base name (which has no "/") and the description can be read back. */
  lemma {:induction false} RootLineRoundTrip(rootName: string, description: string)
    requires '/' !in rootName
    ensures SplitRootLine(RootLine(rootName, description)) == (rootName, description)
  {
    var r := RootLine(rootName, description);
    var k := SlashFrom(r, 0);
    assert k == |rootName|;
    if description != "" {
      assert r[|rootName| + 1..][9..] == description;
    }
  }
}
