/** Sequence helpers: the `Array.prototype.find` and `Array.prototype.filter` of the source. */
module Seqs {

  datatype Option<+T> = None | Some(value: T)

  datatype Result<+T, +E> = Ok(value: T) | Err(error: E)

  /** The position of the first element of `s` that satisfies `p` (`Array.prototype.find`). */
  function Find<T>(s: seq<T>, p: T -> bool): (r: Option<nat>)
    ensures r.Some? ==> r.value < |s| && p(s[r.value])
    ensures r.Some? ==> forall i :: 0 <= i < r.value ==> !p(s[i])
    ensures r.None? ==> forall i :: 0 <= i < |s| ==> !p(s[i])
  {
    if s == [] then None
    else if p(s[0]) then Some(0)
    else match Find(s[1..], p)
      case None => None
      case Some(i) => Some(i + 1)
  }

  /** The elements of `s` that satisfy `p`, in their order (`Array.prototype.filter`). */
  function Filter<T>(s: seq<T>, p: T -> bool): (r: seq<T>)
    ensures |r| <= |s|
    ensures forall i :: 0 <= i < |r| ==> r[i] in s && p(r[i])
    ensures forall i :: 0 <= i < |s| && p(s[i]) ==> s[i] in r
  {
    if s == [] then []
    else if p(s[0]) then [s[0]] + Filter(s[1..], p)
    else Filter(s[1..], p)
  }

  /** Nothing passes the test: nothing is kept. */
  lemma {:induction false} FilterNone<T>(s: seq<T>, p: T -> bool)
    requires forall i :: 0 <= i < |s| ==> !p(s[i])
    ensures Filter(s, p) == []
  {
    if s != [] {
      FilterNone(s[1..], p);
    }
  }

  /** Filtering keeps every copy of a kept element and drops every copy of the others. */
  lemma {:induction false} FilterCount<T>(s: seq<T>, p: T -> bool, x: T)
    ensures multiset(Filter(s, p))[x] == if p(x) then multiset(s)[x] else 0
  {
    if s != [] {
      FilterCount(s[1..], p, x);
      assert s == [s[0]] + s[1..];
    }
  }

  /** Filtering two arrangements of the same elements gives two arrangements of the same elements. */
  lemma {:induction false} FilterPermutation<T>(a: seq<T>, b: seq<T>, p: T -> bool)
    requires multiset(a) == multiset(b)
    ensures multiset(Filter(a, p)) == multiset(Filter(b, p))
  {
    forall x ensures multiset(Filter(a, p))[x] == multiset(Filter(b, p))[x] {
      FilterCount(a, p, x);
      FilterCount(b, p, x);
    }
  }

  /** `Filter(s, p)` keeps elements in their relative order: it is a subsequence of `s`. */
  lemma {:induction false} FilterSubsequence<T>(s: seq<T>, p: T -> bool, le: (T, T) -> bool)
    requires forall i, j :: 0 <= i < j < |s| ==> le(s[i], s[j])
    ensures forall i, j :: 0 <= i < j < |Filter(s, p)| ==> le(Filter(s, p)[i], Filter(s, p)[j])
  {
    if s != [] {
      FilterSubsequence(s[1..], p, le);
      var r := Filter(s[1..], p);
      forall x | x in r ensures le(s[0], x) {
        var k :| 0 <= k < |s[1..]| && s[1..][k] == x;
        assert s[k + 1] == x;
      }
    }
  }

  /** A sequence in which no element occurs twice has no element at two positions. */
  lemma {:induction false} NoRepeats<T>(s: seq<T>)
    requires forall x :: multiset(s)[x] <= 1
    ensures forall i, j :: 0 <= i < j < |s| ==> s[i] != s[j]
  {
    if s != [] {
      var rest := s[1..];
      assert s == [s[0]] + rest;
      assert forall x :: multiset(rest)[x] <= multiset(s)[x];
      NoRepeats(rest);
      assert multiset(rest)[s[0]] == 0;
      forall i, j | 0 <= i < j < |s| ensures s[i] != s[j] {
        if i == 0 {
          assert s[j] == rest[j - 1] && s[j] in rest;
        } else {
          assert s[i] == rest[i - 1] && s[j] == rest[j - 1];
        }
      }
    }
  }
}
