/** The store's `.sort({ key: -1 })` and `.limit(n)`: an insertion sort on a numeric key,
    newest first, and the prefix window cut from its result. */
module Ordering {

  /** Keys never increase from left to right (newest first). */
  predicate SortedDesc<T>(s: seq<T>, key: T -> int) {
    forall i, j :: 0 <= i < j < |s| ==> key(s[i]) >= key(s[j])
  }

  /** Puts `x` into `s` before the first element whose key is not larger. */
  function InsertDesc<T>(x: T, s: seq<T>, key: T -> int): (r: seq<T>)
    ensures multiset(r) == multiset(s) + multiset{x}
    ensures |r| == |s| + 1
    ensures r[0] == x || (|s| > 0 && r[0] == s[0])
  {
    if s == [] then [x]
    else if key(x) >= key(s[0]) then [x] + s
    else
      assert s == [s[0]] + s[1..];
      [s[0]] + InsertDesc(x, s[1..], key)
  }

  /** Inserting into a sorted sequence keeps it sorted. */
  lemma {:induction false} InsertDescSorted<T>(x: T, s: seq<T>, key: T -> int)
    requires SortedDesc(s, key)
    ensures SortedDesc(InsertDesc(x, s, key), key)
  {
    if s == [] {
    } else if key(x) >= key(s[0]) {
      ConsSorted(x, s, key);
    } else {
      var rest := InsertDesc(x, s[1..], key);
      assert SortedDesc(s[1..], key);
      InsertDescSorted(x, s[1..], key);
      assert rest[0] == x || rest[0] == s[1];
      ConsSorted(s[0], rest, key);
    }
  }

  /** A sorted sequence stays sorted under a head at least as large as its first element. */
  lemma ConsSorted<T>(h: T, rest: seq<T>, key: T -> int)
    requires SortedDesc(rest, key) && (rest != [] ==> key(rest[0]) <= key(h))
    ensures SortedDesc([h] + rest, key)
  {
    var r := [h] + rest;
    forall i, j | 0 <= i < j < |r| ensures key(r[i]) >= key(r[j]) {
      if i == 0 {
        assert r[j] == rest[j - 1];
        assert key(rest[0]) >= key(rest[j - 1]) || j == 1;
      } else {
        assert r[i] == rest[i - 1] && r[j] == rest[j - 1];
      }
    }
  }

  /** The documents of `s` ordered by descending `key`; documents with equal keys keep their input order. */
  function SortDesc<T>(s: seq<T>, key: T -> int): (r: seq<T>)
    ensures SortedDesc(r, key)
    ensures multiset(r) == multiset(s)
    ensures |r| == |s|
  {
    if s == [] then []
    else
      assert s == [s[0]] + s[1..];
      InsertDescSorted(s[0], SortDesc(s[1..], key), key);
      InsertDesc(s[0], SortDesc(s[1..], key), key)
  }

  /** `.limit(n)`: at most the first `n` documents. */
  function Take<T>(s: seq<T>, n: nat): (r: seq<T>)
    ensures |r| == if |s| < n then |s| else n
    ensures r == s[..|r|]
  {
    if |s| <= n then s else s[..n]
  }

  /** The first `n` documents of a sorted sequence are its newest: nothing left out is newer than
      anything kept, and the window is itself sorted and drawn from `s`. */
  lemma NewestWindow<T>(s: seq<T>, key: T -> int, n: nat)
    requires SortedDesc(s, key)
    ensures SortedDesc(Take(s, n), key)
    ensures multiset(Take(s, n)) <= multiset(s)
    ensures forall x, y | x in Take(s, n) && y in multiset(s) - multiset(Take(s, n)) :: key(y) <= key(x)
  {
    var w := Take(s, n);
    var k := |w|;
    assert s == w + s[k..];
    assert multiset(s) == multiset(w) + multiset(s[k..]);
    forall x, y | x in w && y in multiset(s) - multiset(w) ensures key(y) <= key(x) {
      assert y in multiset(s[k..]);
      PrefixDominates(s, key, k, x, y);
    }
  }

  /** In a sorted sequence, nothing after position `k` has a larger key than anything before it. */
  lemma PrefixDominates<T>(s: seq<T>, key: T -> int, k: nat, x: T, y: T)
    requires SortedDesc(s, key) && k <= |s| && x in s[..k] && y in s[k..]
    ensures key(y) <= key(x)
  {
    var i :| 0 <= i < k && s[..k][i] == x;
    var j :| 0 <= j < |s| - k && s[k..][j] == y;
    assert s[i] == x && s[k + j] == y;
  }
}
