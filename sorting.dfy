/**
 * `orderBy: { <field>: "desc" }`: rows in non-increasing order of an integer
 * key. The database does not promise an order among rows with equal keys;
 * the model fixes one (insertion sort) and its contract states only what the
 * database promises: the result is sorted and is a permutation of the input.
 */
module Sorting {

  ghost predicate NonIncreasing<T>(s: seq<T>, key: T -> int) {
    forall i, j :: 0 <= i < j < |s| ==> key(s[i]) >= key(s[j])
  }

  /** Inserts `x` into a sequence already in non-increasing key order. */
  function Insert<T(==)>(x: T, s: seq<T>, key: T -> int): (r: seq<T>)
    requires NonIncreasing(s, key)
    ensures NonIncreasing(r, key)
    ensures multiset(r) == multiset(s) + multiset{x}
    ensures |r| == |s| + 1
  {
    if s == [] then [x]
    else if key(s[0]) >= key(x) then
      var tail := Insert(x, s[1..], key);
      assert s == [s[0]] + s[1..];
      HeadDominates(s[0], x, s[1..], tail, key);
      [s[0]] + tail
    else [x] + s
  }

  /** A head at least as large as `x` and as every element of `s` stays ahead of any arrangement of them. */
  lemma HeadDominates<T>(h: T, x: T, s: seq<T>, t: seq<T>, key: T -> int)
    requires key(h) >= key(x)
    requires forall j :: 0 <= j < |s| ==> key(h) >= key(s[j])
    requires multiset(t) == multiset(s) + multiset{x}
    requires NonIncreasing(t, key)
    ensures NonIncreasing([h] + t, key)
  {
    forall j | 0 <= j < |t|
      ensures key(h) >= key(t[j])
    {
      assert t[j] in multiset(t);
      if t[j] != x {
        assert t[j] in multiset(s);
        var k :| 0 <= k < |s| && s[k] == t[j];
      }
    }
  }

  function SortDesc<T(==)>(s: seq<T>, key: T -> int): (r: seq<T>)
    ensures NonIncreasing(r, key)
    ensures multiset(r) == multiset(s)
    ensures |r| == |s|
  {
    if s == [] then []
    else
      assert s == [s[0]] + s[1..];
      Insert(s[0], SortDesc(s[1..], key), key)
  }

  /** Sorting neither drops nor invents rows. */
  lemma SortDescMembers<T>(s: seq<T>, key: T -> int)
    ensures forall i :: 0 <= i < |SortDesc(s, key)| ==> SortDesc(s, key)[i] in s
    ensures forall i :: 0 <= i < |s| ==> s[i] in SortDesc(s, key)
  {
    var r := SortDesc(s, key);
    forall i | 0 <= i < |r|
      ensures r[i] in s
    {
      assert r[i] in multiset(r);
    }
    forall i | 0 <= i < |s|
      ensures s[i] in r
    {
      assert s[i] in multiset(s);
    }
  }

  /**
   * `findMany({ orderBy: { <key>: "desc" }, take: limit })`: the first
   * `limit` rows in non-increasing key order.
   */
  function Top<T(==)>(s: seq<T>, key: T -> int, limit: nat): (r: seq<T>)
    ensures |r| == if |s| < limit then |s| else limit
    ensures NonIncreasing(r, key)
    ensures multiset(r) <= multiset(s)
    ensures forall x, i :: x in s && x !in r && 0 <= i < |r| ==> key(r[i]) >= key(x)
  {
    var sorted := SortDesc(s, key);
    var n := if |s| < limit then |s| else limit;
    TopDominatesRest(s, sorted, n, key);
    sorted[..n]
  }

  lemma PrefixSubMultiset<T>(s: seq<T>, n: nat)
    requires n <= |s|
    ensures multiset(s[..n]) <= multiset(s)
  {
    assert s == s[..n] + s[n..];
  }

  lemma PrefixMembers<T>(s: seq<T>, n: nat)
    requires n <= |s|
    ensures forall k :: 0 <= k < n ==> s[k] in s[..n]
  {
    forall k | 0 <= k < n
      ensures s[k] in s[..n]
    {
      assert s[..n][k] == s[k];
    }
  }

  /**
   * The first `n` sorted rows are sorted, are drawn from the rows, and
   * whatever is cut off after them ranks no higher than any row kept.
   */
  lemma TopDominatesRest<T>(s: seq<T>, sorted: seq<T>, n: nat, key: T -> int)
    requires sorted == SortDesc(s, key) && n <= |sorted|
    ensures NonIncreasing(sorted[..n], key)
    ensures multiset(sorted[..n]) <= multiset(s)
    ensures forall x, i :: x in s && x !in sorted[..n] && 0 <= i < n ==> key(sorted[i]) >= key(x)
  {
    PrefixSubMultiset(sorted, n);
    PrefixMembers(sorted, n);
    SortDescMembers(s, key);
    forall x, i | x in s && x !in sorted[..n] && 0 <= i < n
      ensures key(sorted[i]) >= key(x)
    {
      var k :| 0 <= k < |s| && s[k] == x;
      var j :| 0 <= j < |sorted| && sorted[j] == x;
    }
  }

  /**
   * `findMany({ orderBy: { <key>: "desc" }, take: -n })`: a negative `take`
   * counts from the end, so the last `n` rows of the same ordering, still in
   * non-increasing key order.
   */
  function Bottom<T(==)>(s: seq<T>, key: T -> int, n: nat): (r: seq<T>)
    ensures |r| == if |s| < n then |s| else n
    ensures NonIncreasing(r, key)
    ensures multiset(r) <= multiset(s)
    ensures forall x, i :: x in s && x !in r && 0 <= i < |r| ==> key(r[i]) <= key(x)
  {
    var sorted := SortDesc(s, key);
    var m := if |s| < n then |s| else n;
    RestDominatesBottom(s, sorted, |s| - m, key);
    sorted[|s| - m..]
  }

  lemma SuffixSubMultiset<T>(s: seq<T>, n: nat)
    requires n <= |s|
    ensures multiset(s[n..]) <= multiset(s)
  {
    assert s == s[..n] + s[n..];
  }

  lemma SuffixMembers<T>(s: seq<T>, n: nat)
    requires n <= |s|
    ensures forall k :: n <= k < |s| ==> s[k] in s[n..]
  {
    forall k | n <= k < |s|
      ensures s[k] in s[n..]
    {
      assert s[n..][k - n] == s[k];
    }
  }

  /**
   * The sorted rows from position `n` on are sorted, are drawn from the rows,
   * and whatever is cut off before them ranks no lower than any row kept.
   */
  lemma RestDominatesBottom<T>(s: seq<T>, sorted: seq<T>, n: nat, key: T -> int)
    requires sorted == SortDesc(s, key) && n <= |sorted|
    ensures NonIncreasing(sorted[n..], key)
    ensures multiset(sorted[n..]) <= multiset(s)
    ensures forall x, i :: x in s && x !in sorted[n..] && 0 <= i < |sorted| - n ==> key(sorted[n..][i]) <= key(x)
  {
    SuffixSubMultiset(sorted, n);
    SuffixMembers(sorted, n);
    SortDescMembers(s, key);
    forall i, j | 0 <= i < j < |sorted| - n
      ensures key(sorted[n..][i]) >= key(sorted[n..][j])
    {
      assert sorted[n..][i] == sorted[n + i] && sorted[n..][j] == sorted[n + j];
    }
    forall x, i | x in s && x !in sorted[n..] && 0 <= i < |sorted| - n
      ensures key(sorted[n..][i]) <= key(x)
    {
      var k :| 0 <= k < |s| && s[k] == x;
      var j :| 0 <= j < |sorted| && sorted[j] == x;
      assert sorted[n..][i] == sorted[n + i];
    }
  }

  /**
   * `findMany({ orderBy: { <key>: "desc" }, take })`: a non-negative `take`
   * keeps the first rows of the ordering, a negative one the last.
   */
  function Take<T(==)>(s: seq<T>, key: T -> int, take: int): (r: seq<T>)
    ensures |r| == if take >= 0 then (if |s| < take then |s| else take)
                   else (if |s| < -take then |s| else -take)
    ensures NonIncreasing(r, key)
    ensures multiset(r) <= multiset(s)
    ensures take >= 0 ==> forall x, i :: x in s && x !in r && 0 <= i < |r| ==> key(r[i]) >= key(x)
    ensures take < 0 ==> forall x, i :: x in s && x !in r && 0 <= i < |r| ==> key(r[i]) <= key(x)
  {
    if take >= 0 then Top(s, key, take) else Bottom(s, key, -take)
  }
}
