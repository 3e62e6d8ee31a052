/**
 * String helpers shared by the description resolver and the tree renderer:
 * the JavaScript notions of white space, `trim` and `split("\n")`, the suffix
 * test, and the order `Array.prototype.sort` uses, compared here by code point
 * (which differs from `sort()`'s UTF-16 code-unit order only above U+FFFF).
 */
module Strings {

  /** The characters JavaScript's `String.prototype.trim` and the regular-expression class `\s` treat as white space. */
  predicate IsSpace(c: char) {
    || c == ' ' || c == '\t' || c == '\n' || c == '\r'
    || c == '\U{000B}' || c == '\U{000C}' || c == '\U{00A0}' || c == '\U{FEFF}'
    || c == '\U{1680}' || ('\U{2000}' <= c <= '\U{200A}')
    || c == '\U{2028}' || c == '\U{2029}' || c == '\U{202F}' || c == '\U{205F}' || c == '\U{3000}'
  }

  predicate AllSpace(s: string) {
    forall i :: 0 <= i < |s| ==> IsSpace(s[i])
  }

  /** Where the run of white space starting at index `i` ends. */
  function SpaceRunEnd(s: string, i: nat): (j: nat)
    requires i <= |s|
    ensures i <= j <= |s|
    ensures forall k :: i <= k < j ==> IsSpace(s[k])
    ensures j == |s| || !IsSpace(s[j])
    decreases |s| - i
  {
    if i < |s| && IsSpace(s[i]) then SpaceRunEnd(s, i + 1) else i
  }

  /** Where the run of `#` starting at index `i` ends. */
  function HashRunEnd(s: string, i: nat): (j: nat)
    requires i <= |s|
    ensures i <= j <= |s|
    ensures forall k :: i <= k < j ==> s[k] == '#'
    ensures j == |s| || s[j] != '#'
    decreases |s| - i
  {
    if i < |s| && s[i] == '#' then HashRunEnd(s, i + 1) else i
  }

  /** Drops leading white space (the `\s*` at the head of a pattern). */
  function TrimStart(s: string): (r: string)
    ensures |r| <= |s| && r == s[|s| - |r|..]
    ensures forall i :: 0 <= i < |s| - |r| ==> IsSpace(s[i])
    ensures r == [] || !IsSpace(r[0])
  {
    s[SpaceRunEnd(s, 0)..]
  }

  /**
   * Where `/^#*\s*\/` stops matching: what it removes is a run of `#` followed
   * by a run of white space, each as long as it can be, so what is left does
   * not start with white space, nor with `#` unless white space came before it.
   */
  function HeadingEnd(line: string): (k: nat)
    ensures k <= |line|
    ensures forall i :: 0 <= i < k ==> line[i] == '#' || IsSpace(line[i])
    ensures forall i, j :: 0 <= i < j < k && line[j] == '#' ==> line[i] == '#'
    ensures k == |line| || !IsSpace(line[k])
    ensures k < |line| && line[k] == '#' ==> k > 0 && IsSpace(line[k - 1])
  {
    var h := HashRunEnd(line, 0);
    assert !IsSpace('#');
    SpaceRunEnd(line, h)
  }

  /** `line.replace(/^#*\s*\/, "")`: the heading marks and the white space after them removed. */
  function StripHeading(line: string): string {
    line[HeadingEnd(line)..]
  }

  /** Leading white space in front of a text that does not start with white space is dropped exactly. */
  lemma {:induction false} TrimStartSpaces(ws: string, s: string)
    requires AllSpace(ws) && (s == [] || !IsSpace(s[0]))
    ensures TrimStart(ws + s) == s
  {
    var t := ws + s;
    var j := SpaceRunEnd(t, 0);
    assert forall i :: 0 <= i < |ws| ==> t[i] == ws[i];
    assert s != [] ==> t[|ws|] == s[0];
    assert j == |ws|;
    assert t[|ws|..] == s;
  }

  /** Drops trailing white space. */
  function TrimEnd(s: string): (r: string)
    ensures |r| <= |s| && r == s[..|r|]
    ensures forall i :: |r| <= i < |s| ==> IsSpace(s[i])
    ensures r == [] || !IsSpace(r[|r| - 1])
  {
    if s != [] && IsSpace(s[|s| - 1]) then TrimEnd(s[..|s| - 1]) else s
  }

  /** JavaScript's `s.trim()`. */
  function Trim(s: string): string {
    TrimEnd(TrimStart(s))
  }

  /** `s.trim()` is the empty (falsy) string exactly when `s` is all white space. */
  lemma {:induction false} TrimEmpty(s: string)
    ensures Trim(s) == [] <==> AllSpace(s)
  {
    var t := TrimStart(s);
    var k := |s| - |t|;
    if Trim(s) != [] && t != [] {
      assert t[0] == s[k];
    }
  }

  /** `s.trim().startsWith(p)` for a `p` without white space: trimming the end never cuts into `p`. */
  lemma {:induction false} TrimStartsWith(s: string, p: string)
    requires forall i :: 0 <= i < |p| ==> !IsSpace(p[i])
    ensures p <= Trim(s) <==> p <= TrimStart(s)
  {
    var t := TrimStart(s);
    var u := TrimEnd(t);
    if p <= t && p != [] {
      assert !IsSpace(t[|p| - 1]);
    }
  }

  /** JavaScript's `s.split("\n")`: the lines of `s`, at least one, none containing a newline. */
  function Lines(s: string): (r: seq<string>)
    ensures |r| >= 1
    ensures forall i :: 0 <= i < |r| ==> '\n' !in r[i]
  {
    if s == [] then [""]
    else if s[0] == '\n' then [""] + Lines(s[1..])
    else
      var rest := Lines(s[1..]);
      [[s[0]] + rest[0]] + rest[1..]
  }

  /** A text without a newline is a single line. */
  lemma {:induction false} SingleLine(s: string)
    requires '\n' !in s
    ensures Lines(s) == [s]
  {
    if s != [] {
      SingleLine(s[1..]);
      assert s == [s[0]] + s[1..];
    }
  }

  /** A first line without a newline, then a newline: the line comes first and the rest splits on its own. */
  lemma {:induction false} LinesCons(a: string, b: string)
    requires '\n' !in a
    ensures Lines(a + "\n" + b) == [a] + Lines(b)
  {
    var s := a + "\n" + b;
    if a == [] {
      assert s == "\n" + b && s[1..] == b;
    } else {
      assert s[0] == a[0] && s[1..] == a[1..] + "\n" + b;
      LinesCons(a[1..], b);
      assert [a[0]] + a[1..] == a;
    }
  }

  /** Joins lines with newlines: the inverse of `Lines`. */
  function JoinLines(ls: seq<string>): string
    requires |ls| >= 1
  {
    if |ls| == 1 then ls[0] else ls[0] + "\n" + JoinLines(ls[1..])
  }

  /** Splitting loses nothing: joining the pieces with newlines gives back the text. */
  lemma {:induction false} JoinLinesOfLines(s: string)
    ensures JoinLines(Lines(s)) == s
  {
    if s == [] {
    } else if s[0] == '\n' {
      JoinLinesOfLines(s[1..]);
      assert s == "\n" + s[1..];
    } else {
      JoinLinesOfLines(s[1..]);
      var rest := Lines(s[1..]);
      if |rest| == 1 {
        assert s == [s[0]] + s[1..];
      } else {
        assert JoinLines(rest) == rest[0] + "\n" + JoinLines(rest[1..]);
        assert Lines(s)[1..] == rest[1..];
        assert JoinLines(Lines(s)) == ([s[0]] + rest[0]) + "\n" + JoinLines(rest[1..]);
        assert s == [s[0]] + s[1..];
      }
    }
  }

  /** `s.split("\n")[0]`: the text before the first newline (all of `s` when it has none). */
  lemma {:induction false} FirstLineIsPrefix(s: string)
    ensures Lines(s)[0] <= s
    ensures |Lines(s)[0]| == |s| || s[|Lines(s)[0]|] == '\n'
  {
    if s != [] && s[0] != '\n' {
      FirstLineIsPrefix(s[1..]);
    }
  }

  predicate EndsWith(s: string, suffix: string) {
    |suffix| <= |s| && s[|s| - |suffix|..] == suffix
  }

  /**
   * The order `Array.prototype.sort` uses when no comparator is given:
   * lexicographic on characters, a proper prefix first.
   */
  predicate StrLe(a: string, b: string) {
    if a == [] then true
    else if b == [] then false
    else if a[0] != b[0] then a[0] < b[0]
    else StrLe(a[1..], b[1..])
  }

  lemma {:induction false} StrLeTotal(a: string, b: string)
    ensures StrLe(a, b) || StrLe(b, a)
  {
    if a != [] && b != [] && a[0] == b[0] {
      StrLeTotal(a[1..], b[1..]);
    }
  }

  lemma {:induction false} StrLeTransitive(a: string, b: string, c: string)
    requires StrLe(a, b) && StrLe(b, c)
    ensures StrLe(a, c)
  {
    if a != [] && b != [] && c != [] && a[0] == b[0] && b[0] == c[0] {
      StrLeTransitive(a[1..], b[1..], c[1..]);
    }
  }

  lemma {:induction false} StrLeAntisymmetric(a: string, b: string)
    requires StrLe(a, b) && StrLe(b, a)
    ensures a == b
  {
    if a != [] && b != [] {
      StrLeAntisymmetric(a[1..], b[1..]);
      assert a == [a[0]] + a[1..];
      assert b == [b[0]] + b[1..];
    }
  }
}
