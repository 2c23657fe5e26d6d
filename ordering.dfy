/**
 * `orderBy: { createdAt: "desc" }`: the storage returns rows newest first.
 * Rows with equal timestamps may come in any order, so the listings are
 * specified by `NewestFirst` and a multiset equation rather than by one
 * fixed order; `SortNewestFirst` is one such order (stable insertion sort).
 */
module Ordering {

  /** Keys never increase along `s`. */
  predicate NewestFirst<T>(s: seq<T>, key: T -> int) {
    forall i, j :: 0 <= i < j < |s| ==> key(s[i]) >= key(s[j])
  }

  /** `r` is `s` rearranged newest first. */
  predicate IsNewestFirstOrder<T(==)>(r: seq<T>, s: seq<T>, key: T -> int) {
    NewestFirst(r, key) && multiset(r) == multiset(s)
  }

  /** Putting a key no smaller than every key of a newest-first list in front keeps it newest first. */
  lemma PrependNewest<T>(h: T, t: seq<T>, key: T -> int)
    requires NewestFirst(t, key)
    requires forall k :: 0 <= k < |t| ==> key(t[k]) <= key(h)
    ensures NewestFirst([h] + t, key)
  {
  }

  function Insert<T(==)>(x: T, s: seq<T>, key: T -> int): (r: seq<T>)
    requires NewestFirst(s, key)
    ensures NewestFirst(r, key)
    ensures multiset(r) == multiset(s) + multiset{x}
  {
    if s == [] || key(x) >= key(s[0]) then
      PrependNewest(x, s, key);
      [x] + s
    else
      var t := Insert(x, s[1..], key);
      InsertBound(x, s, t, key);
      PrependNewest(s[0], t, key);
      assert s == [s[0]] + s[1..];
      [s[0]] + t
  }

  lemma InsertBound<T>(x: T, s: seq<T>, t: seq<T>, key: T -> int)
    requires NewestFirst(s, key) && s != [] && key(x) < key(s[0])
    requires multiset(t) == multiset(s[1..]) + multiset{x}
    ensures forall k :: 0 <= k < |t| ==> key(t[k]) <= key(s[0])
  {
    forall k | 0 <= k < |t| ensures key(t[k]) <= key(s[0]) {
      assert t[k] in multiset(t);
      if t[k] != x {
        assert t[k] in multiset(s[1..]);
        var m :| 0 <= m < |s[1..]| && s[1..][m] == t[k];
        assert s[m + 1] == t[k];
      }
    }
  }

  function SortNewestFirst<T(==)>(s: seq<T>, key: T -> int): (r: seq<T>)
    ensures IsNewestFirstOrder(r, s, key)
  {
    if s == [] then []
    else
      assert s == [s[0]] + s[1..];
      Insert(s[0], SortNewestFirst(s[1..], key), key)
  }

  lemma NewestFirstOrderLength<T>(r: seq<T>, s: seq<T>, key: T -> int)
    requires IsNewestFirstOrder(r, s, key)
    ensures |r| == |s|
  {
    assert |multiset(r)| == |multiset(s)|;
  }
}
