/** Sequence operations shared by every store: the `filter`, `some` and
    newest-first ordering that the hooks and the backend tables rely on. */
module Seqs {

  /** The elements of `s` for which `keep` holds, in their original order
      (JavaScript's `Array.prototype.filter`). */
  function Filter<T>(keep: T -> bool, s: seq<T>): (r: seq<T>)
    ensures |r| <= |s|
    ensures forall i :: 0 <= i < |r| ==> r[i] in s && keep(r[i])
    ensures forall i :: 0 <= i < |s| && keep(s[i]) ==> s[i] in r
  {
    if s == [] then []
    else (if keep(s[0]) then [s[0]] else []) + Filter(keep, s[1..])
  }

  /** Filtering distributes over concatenation: what is kept from each part
      stays in place, so the relative order of the kept elements is that of `s`. */
  lemma {:induction false} FilterAppend<T>(keep: T -> bool, a: seq<T>, b: seq<T>)
    ensures Filter(keep, a + b) == Filter(keep, a) + Filter(keep, b)
  {
    if a == [] {
      assert a + b == b;
    } else {
      assert (a + b)[1..] == a[1..] + b;
      FilterAppend(keep, a[1..], b);
    }
  }

  /** A filter that rejects nothing returns its input unchanged. */
  lemma {:induction false} FilterKeepsAll<T>(keep: T -> bool, s: seq<T>)
    requires forall i :: 0 <= i < |s| ==> keep(s[i])
    ensures Filter(keep, s) == s
  {
    if s != [] {
      FilterKeepsAll(keep, s[1..]);
    }
  }

  /** Filtering twice by the same test is filtering once. */
  lemma FilterIdempotent<T>(keep: T -> bool, s: seq<T>)
    ensures Filter(keep, Filter(keep, s)) == Filter(keep, s)
  {
    FilterKeepsAll(keep, Filter(keep, s));
  }

  /** `rel` holds of every pair of elements taken in sequence order. */
  ghost predicate Pairwise<T>(s: seq<T>, rel: (T, T) -> bool) {
    forall i, j :: 0 <= i < j < |s| ==> rel(s[i], s[j])
  }

  /** A filter keeps a subsequence, so every pairwise property survives it. */
  lemma {:induction false} FilterPairwise<T>(keep: T -> bool, s: seq<T>, rel: (T, T) -> bool)
    requires Pairwise(s, rel)
    ensures Pairwise(Filter(keep, s), rel)
  {
    if s != [] {
      var tail := Filter(keep, s[1..]);
      assert Pairwise(s[1..], rel);
      FilterPairwise(keep, s[1..], rel);
      if keep(s[0]) {
        forall j | 0 <= j < |tail|
          ensures rel(s[0], tail[j])
        {
          var k :| 0 <= k < |s[1..]| && s[1..][k] == tail[j];
          assert s[1 + k] == tail[j];
        }
        assert Filter(keep, s) == [s[0]] + tail;
      }
    }
  }

  /** `p` holds of some element of `s` (JavaScript's `Array.prototype.some`). */
  function Any<T>(p: T -> bool, s: seq<T>): (r: bool)
    ensures r <==> exists i :: 0 <= i < |s| && p(s[i])
  {
    if s == [] then false
    else if p(s[0]) then true
    else
      var r := Any(p, s[1..]);
      assert forall i :: 1 <= i < |s| ==> s[i] == s[1..][i - 1];
      r
  }

  /** Rows ordered from the most recent to the oldest by `time`. */
  ghost predicate NewestFirst<T>(s: seq<T>, time: T -> nat) {
    Pairwise(s, (a: T, b: T) => time(a) >= time(b))
  }

  /** Inserts `x` in front of the first row that is not more recent than it,
      which is where an `order(..., { ascending: false })` select returns it. */
  function InsertNewestFirst<T>(s: seq<T>, x: T, time: T -> nat): (r: seq<T>)
    ensures |r| == |s| + 1
    ensures multiset(r) == multiset(s) + multiset{x}
    ensures (forall i :: 0 <= i < |s| ==> time(s[i]) <= time(x)) ==> r == [x] + s
  {
    if s == [] || time(x) >= time(s[0]) then
      [x] + s
    else
      assert s == [s[0]] + s[1..];
      [s[0]] + InsertNewestFirst(s[1..], x, time)
  }

  /** Every element of a newest-first sequence is no more recent than its head. */
  lemma HeadIsNewest<T>(s: seq<T>, time: T -> nat, y: T)
    requires NewestFirst(s, time) && s != []
    requires y in multiset(s)
    ensures time(s[0]) >= time(y)
  {
    var m :| 0 <= m < |s| && s[m] == y;
  }

  /** The insertion keeps a newest-first sequence newest-first. */
  lemma {:induction false} InsertKeepsNewestFirst<T>(s: seq<T>, x: T, time: T -> nat)
    requires NewestFirst(s, time)
    ensures NewestFirst(InsertNewestFirst(s, x, time), time)
  {
    if s != [] && time(x) < time(s[0]) {
      var rest := InsertNewestFirst(s[1..], x, time);
      assert NewestFirst(s[1..], time);
      InsertKeepsNewestFirst(s[1..], x, time);
      forall k | 0 <= k < |rest|
        ensures time(s[0]) >= time(rest[k])
      {
        assert rest[k] in multiset(rest);
        if rest[k] != x {
          HeadIsNewest(s, time, rest[k]);
        }
      }
    }
  }

  /** Inserting an element related both ways to every existing one keeps a
      pairwise property. */
  lemma {:induction false} InsertPairwise<T>(s: seq<T>, x: T, time: T -> nat, rel: (T, T) -> bool)
    requires Pairwise(s, rel)
    requires forall i :: 0 <= i < |s| ==> rel(x, s[i]) && rel(s[i], x)
    ensures Pairwise(InsertNewestFirst(s, x, time), rel)
  {
    if s != [] && time(x) < time(s[0]) {
      var rest := InsertNewestFirst(s[1..], x, time);
      assert Pairwise(s[1..], rel);
      InsertPairwise(s[1..], x, time, rel);
      forall k | 0 <= k < |rest|
        ensures rel(s[0], rest[k])
      {
        assert rest[k] in multiset(rest);
        if rest[k] != x {
          assert rest[k] in multiset(s[1..]);
          var m :| 0 <= m < |s[1..]| && s[1..][m] == rest[k];
          assert s[1 + m] == rest[k];
        }
      }
    }
  }

  /** Inserting an element the filter rejects does not change what the filter
      keeps, nor its order. */
  lemma {:induction false} FilterInsertRejected<T>(keep: T -> bool, s: seq<T>, x: T, time: T -> nat)
    requires !keep(x)
    ensures Filter(keep, InsertNewestFirst(s, x, time)) == Filter(keep, s)
  {
    if s == [] || time(x) >= time(s[0]) {
      FilterAppend(keep, [x], s);
    } else {
      FilterInsertRejected(keep, s[1..], x, time);
      FilterAppend(keep, [s[0]], InsertNewestFirst(s[1..], x, time));
      FilterAppend(keep, [s[0]], s[1..]);
      assert s == [s[0]] + s[1..];
    }
  }

  /** `n` copies of `x`. */
  function Repeat<T>(x: T, n: nat): (r: seq<T>)
    ensures |r| == n
    ensures forall i :: 0 <= i < n ==> r[i] == x
  {
    if n == 0 then [] else Repeat(x, n - 1) + [x]
  }
}
