/** `Array.prototype.sort` with a comparator, as ECMAScript 2019 and later
    define it: a stable sort. The comparator is given as the relation
    "may come first" (`compare(a, b) <= 0`), which must be a total preorder. */
module Sorting {
  import opened Seqs

  ghost predicate Total<T(!new)>(leq: (T, T) -> bool) {
    forall a, b :: leq(a, b) || leq(b, a)
  }

  ghost predicate Transitive<T(!new)>(leq: (T, T) -> bool) {
    forall a, b, c :: leq(a, b) && leq(b, c) ==> leq(a, c)
  }

  ghost predicate TotalPreorder<T(!new)>(leq: (T, T) -> bool) {
    Total(leq) && Transitive(leq)
  }

  ghost predicate SortedBy<T>(leq: (T, T) -> bool, s: seq<T>) {
    forall i, j :: 0 <= i < j < |s| ==> leq(s[i], s[j])
  }

  /** The elements that compare equal to `z`: the ones a stable sort must keep in order. */
  function Ties<T>(leq: (T, T) -> bool, z: T): T -> bool {
    y => leq(z, y) && leq(y, z)
  }

  /** Insert `x` in front of the first element it may precede. */
  function Insert<T(==,!new)>(x: T, s: seq<T>, leq: (T, T) -> bool): (r: seq<T>)
    requires TotalPreorder(leq)
    requires SortedBy(leq, s)
    ensures SortedBy(leq, r)
    ensures multiset(r) == multiset(s) + multiset{x}
  {
    if s == [] || leq(x, s[0]) then
      assert forall j :: 0 <= j < |s| ==> leq(x, s[j]);
      [x] + s
    else
      var rest := Insert(x, s[1..], leq);
      assert s == [s[0]] + s[1..];
      LowerBoundKept(s[0], x, s[1..], rest, leq);
      [s[0]] + rest
  }

  /** `[...s].sort(compare)`: a stable insertion sort. */
  function Sort<T(==,!new)>(s: seq<T>, leq: (T, T) -> bool): (r: seq<T>)
    requires TotalPreorder(leq)
    ensures SortedBy(leq, r)
    ensures multiset(r) == multiset(s)
    ensures |r| == |s|
  {
    if s == [] then []
    else
      assert s == [s[0]] + s[1..];
      Insert(s[0], Sort(s[1..], leq), leq)
  }

  /** A lower bound of `x` and of every element of `s` bounds every
      element of a rearrangement of `s` with `x`. */
  lemma LowerBoundKept<T>(y: T, x: T, s: seq<T>, rest: seq<T>, leq: (T, T) -> bool)
    requires leq(y, x) && forall k :: 0 <= k < |s| ==> leq(y, s[k])
    requires multiset(rest) == multiset(s) + multiset{x}
    ensures forall j :: 0 <= j < |rest| ==> leq(y, rest[j])
  {
    forall j | 0 <= j < |rest|
      ensures leq(y, rest[j])
    {
      assert rest[j] in multiset(rest);
      if rest[j] != x {
        assert rest[j] in multiset(s);
        var k :| 0 <= k < |s| && s[k] == rest[j];
      }
    }
  }

  lemma {:induction false} InsertKeepsTies<T(!new)>(x: T, s: seq<T>, leq: (T, T) -> bool, z: T)
    requires TotalPreorder(leq)
    requires SortedBy(leq, s)
    ensures Filter(Insert(x, s, leq), Ties(leq, z)) ==
            (if Ties(leq, z)(x) then [x] else []) + Filter(s, Ties(leq, z))
  {
    var tz := Ties(leq, z);
    if s == [] || leq(x, s[0]) {
      assert Insert(x, s, leq) == [x] + s;
      FilterAppend([x], s, tz);
    } else {
      var rest := Insert(x, s[1..], leq);
      assert Insert(x, s, leq) == [s[0]] + rest;
      InsertKeepsTies(x, s[1..], leq, z);
      FilterAppend([s[0]], rest, tz);
      assert s == [s[0]] + s[1..];
      FilterAppend([s[0]], s[1..], tz);
      TiesExclusive(leq, z, x, s[0]);
    }
  }

  /** When `x` may not precede `y`, the two are not both tied with one `z`. */
  lemma TiesExclusive<T(!new)>(leq: (T, T) -> bool, z: T, x: T, y: T)
    requires Transitive(leq)
    requires !leq(x, y)
    ensures !(Ties(leq, z)(x) && Ties(leq, z)(y))
  {
  }

  /** The sort is stable: elements that compare equal keep their relative order. */
  lemma {:induction false} SortIsStable<T(!new)>(s: seq<T>, leq: (T, T) -> bool, z: T)
    requires TotalPreorder(leq)
    ensures Filter(Sort(s, leq), Ties(leq, z)) == Filter(s, Ties(leq, z))
  {
    if s != [] {
      SortIsStable(s[1..], leq, z);
      InsertKeepsTies(s[0], Sort(s[1..], leq), leq, z);
      assert s == [s[0]] + s[1..];
      FilterAppend([s[0]], s[1..], Ties(leq, z));
    }
  }
}
