/** std::sort by a string key. Its order among equal keys is unspecified; here
    equal keys keep their order. */
module Sorting {
  import opened Text

  function Insert<R>(x: R, xs: seq<R>, key: R -> string): (r: seq<R>)
    ensures multiset(r) == multiset(xs) + multiset{x}
  {
    if xs == [] then [x]
    else if Less(key(xs[0]), key(x)) then
      assert xs == [xs[0]] + xs[1..];
      [xs[0]] + Insert(x, xs[1..], key)
    else [x] + xs
  }

  function SortBy<R>(xs: seq<R>, key: R -> string): (r: seq<R>)
    ensures multiset(r) == multiset(xs)
    ensures |r| == |xs|
  {
    if xs == [] then []
    else
      assert xs == [xs[0]] + xs[1..];
      var r := Insert(xs[0], SortBy(xs[1..], key), key);
      assert |r| == |multiset(r)| == |multiset(xs)| == |xs|;
      r
  }

  ghost predicate Sorted<R>(xs: seq<R>, key: R -> string)
  {
    forall i, j :: 0 <= i < j < |xs| ==> !Less(key(xs[j]), key(xs[i]))
  }

  ghost predicate DistinctKeys<R>(xs: seq<R>, key: R -> string)
  {
    forall i, j :: 0 <= i < j < |xs| ==> key(xs[i]) != key(xs[j])
  }

  lemma {:induction false} InsertSorted<R>(x: R, xs: seq<R>, key: R -> string)
    requires Sorted(xs, key)
    ensures Sorted(Insert(x, xs, key), key)
  {
    if xs != [] && Less(key(xs[0]), key(x)) {
      InsertSorted(x, xs[1..], key);
      var r := Insert(x, xs[1..], key);
      LessTrichotomy(key(xs[0]), key(x));
      forall j | 0 <= j < |r|
        ensures !Less(key(r[j]), key(xs[0]))
      {
        assert r[j] in multiset(r);
        if r[j] != x {
          assert r[j] in multiset(xs[1..]);
          var k :| 0 <= k < |xs[1..]| && xs[1..][k] == r[j];
          assert xs[k + 1] == r[j];
        }
      }
    } else if xs != [] {
      forall j | 0 <= j < |xs|
        ensures !Less(key(xs[j]), key(x))
      {
        if Less(key(xs[j]), key(x)) {
          LessTrichotomy(key(xs[0]), key(xs[j]));
          LessTrichotomy(key(xs[0]), key(x));
          if Less(key(xs[0]), key(xs[j])) { LessTransitive(key(xs[0]), key(xs[j]), key(x)); }
        }
      }
    }
  }

  lemma {:induction false} SortBySorted<R>(xs: seq<R>, key: R -> string)
    ensures Sorted(SortBy(xs, key), key)
  {
    if xs != [] {
      SortBySorted(xs[1..], key);
      InsertSorted(xs[0], SortBy(xs[1..], key), key);
    }
  }

  lemma SameHead<R>(a: seq<R>, b: seq<R>, key: R -> string)
    requires a != [] && b != [] && multiset(a) == multiset(b)
    requires Sorted(a, key) && Sorted(b, key) && DistinctKeys(a, key)
    ensures a[0] == b[0]
  {
    assert b[0] in multiset(b) && a[0] in multiset(a);
    var j :| 0 <= j < |a| && a[j] == b[0];
    var i :| 0 <= i < |b| && b[i] == a[0];
    LessTrichotomy(key(a[0]), key(b[0]));
  }

  lemma TailMultiset<R>(a: seq<R>)
    requires a != []
    ensures multiset(a[1..]) == multiset(a) - multiset{a[0]}
  {
    assert a == [a[0]] + a[1..];
  }

  /** Distinct keys leave only one sorted order, so any sort gives it. */
  lemma {:induction false} SortedUnique<R>(a: seq<R>, b: seq<R>, key: R -> string)
    requires multiset(a) == multiset(b) && Sorted(a, key) && Sorted(b, key) && DistinctKeys(a, key)
    ensures a == b
  {
    assert |a| == |multiset(a)| == |multiset(b)| == |b|;
    if a != [] {
      SameHead(a, b, key);
      TailMultiset(a);
      TailMultiset(b);
      hide Less;
      SortedUnique(a[1..], b[1..], key);
      assert a == [a[0]] + a[1..] && b == [b[0]] + b[1..];
    }
  }

  lemma AlreadySorted<R>(xs: seq<R>, key: R -> string)
    requires Sorted(xs, key) && DistinctKeys(xs, key)
    ensures SortBy(xs, key) == xs
  {
    SortBySorted(xs, key);
    SortedUnique(xs, SortBy(xs, key), key);
  }
}
