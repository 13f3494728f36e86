/** A stable sort by an integer key: what sort.Ints and sort.SliceStable promise their callers. */
module Sorting {

  function Insert<T>(x: T, s: seq<T>, key: T -> int): (r: seq<T>)
    ensures multiset(r) == multiset(s) + multiset{x}
  {
    if s == [] || key(x) <= key(s[0]) then
      [x] + s
    else
      assert s == [s[0]] + s[1..];
      [s[0]] + Insert(x, s[1..], key)
  }

  /** The elements of `s` by increasing key, equal keys in their original order. */
  function StableSort<T>(s: seq<T>, key: T -> int): (r: seq<T>)
    ensures multiset(r) == multiset(s)
  {
    if s == [] then
      []
    else
      assert s == [s[0]] + s[1..];
      Insert(s[0], StableSort(s[1..], key), key)
  }

  /** `a` belongs ahead of `b`: a smaller key, or the same key and `before`. */
  ghost predicate Ahead<T>(a: T, b: T, key: T -> int, before: (T, T) -> bool) {
    key(a) < key(b) || (key(a) == key(b) && before(a, b))
  }

  ghost predicate Ranked<T>(s: seq<T>, key: T -> int, before: (T, T) -> bool) {
    forall i, j | 0 <= i < j < |s| :: Ahead(s[i], s[j], key, before)
  }

  lemma SameElements<T>(s: seq<T>, r: seq<T>)
    requires multiset(r) == multiset(s)
    ensures |r| == |s|
    ensures forall x :: x in r <==> x in s
  {
    assert |multiset(r)| == |multiset(s)|;
    forall x
      ensures x in r <==> x in s
    {
      assert x in r <==> x in multiset(r);
      assert x in s <==> x in multiset(s);
    }
  }

  lemma ConsRanked<T>(x: T, s: seq<T>, key: T -> int, before: (T, T) -> bool)
    requires Ranked(s, key, before)
    requires forall y | y in s :: Ahead(x, y, key, before)
    ensures Ranked([x] + s, key, before)
  {
    var r := [x] + s;
    forall i, j | 0 <= i < j < |r|
      ensures Ahead(r[i], r[j], key, before)
    {
      assert r[j] == s[j - 1];
      if i > 0 {
        assert r[i] == s[i - 1];
      }
    }
  }

  lemma {:induction false} InsertRanked<T>(x: T, s: seq<T>, key: T -> int, before: (T, T) -> bool)
    requires Ranked(s, key, before)
    requires forall y | y in s :: before(x, y)
    ensures Ranked(Insert(x, s, key), key, before)
  {
    if s == [] {
    } else if key(x) <= key(s[0]) {
      forall y | y in s
        ensures Ahead(x, y, key, before)
      {
        var k :| 0 <= k < |s| && s[k] == y;
        assert k == 0 || Ahead(s[0], s[k], key, before);
      }
      ConsRanked(x, s, key, before);
    } else {
      var tail := s[1..];
      InsertRanked(x, tail, key, before);
      var r := Insert(x, tail, key);
      forall y | y in r
        ensures Ahead(s[0], y, key, before)
      {
        assert y in multiset(r);
        if y != x {
          assert y in multiset(tail);
          var k :| 0 <= k < |tail| && tail[k] == y;
          assert Ahead(s[0], s[k + 1], key, before);
        }
      }
      ConsRanked(s[0], r, key, before);
    }
  }

  /** Stability: any relation from every earlier element of the input to every later one still holds
      between neighbours of equal key in the result. */
  lemma {:induction false} StableSortRanks<T>(s: seq<T>, key: T -> int, before: (T, T) -> bool)
    requires forall i, j | 0 <= i < j < |s| :: before(s[i], s[j])
    ensures Ranked(StableSort(s, key), key, before)
  {
    if s != [] {
      var tail := s[1..];
      StableSortRanks(tail, key, before);
      var r := StableSort(tail, key);
      forall y | y in r
        ensures before(s[0], y)
      {
        assert y in multiset(r) && y in tail;
        var k :| 0 <= k < |tail| && tail[k] == y;
        assert s[k + 1] == y;
      }
      InsertRanked(s[0], r, key, before);
    }
  }
}
