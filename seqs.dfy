/**
 * Sequence operations the store is built from: `Array.prototype.filter`,
 * `findIndex` by id, and the read-modify-write upsert of an entry by id.
 */
module Seqs {

  /** The entries of `s` that satisfy `p`, in their original order. */
  function Filter<T(!new)>(s: seq<T>, p: T -> bool): (r: seq<T>)
    ensures forall x :: x in r <==> x in s && p(x)
    ensures |r| <= |s|
  {
    if s == [] then [] else (if p(s[0]) then [s[0]] else []) + Filter(s[1..], p)
  }

  /** Filtering distributes over concatenation: order is kept, nothing is reordered. */
  lemma {:induction false} FilterConcat<T(!new)>(a: seq<T>, b: seq<T>, p: T -> bool)
    ensures Filter(a + b, p) == Filter(a, p) + Filter(b, p)
  {
    if a == [] {
      assert a + b == b;
    } else {
      assert (a + b)[0] == a[0];
      assert (a + b)[1..] == a[1..] + b;
      FilterConcat(a[1..], b, p);
    }
  }

  /** When every entry satisfies `p`, filtering keeps the whole sequence. */
  lemma {:induction false} FilterKeepsAll<T(!new)>(s: seq<T>, p: T -> bool)
    requires forall i :: 0 <= i < |s| ==> p(s[i])
    ensures Filter(s, p) == s
  {
    if s != [] {
      FilterKeepsAll(s[1..], p);
    }
  }

  /** Nothing passes, nothing is kept. */
  lemma {:induction false} FilterKeepsNone<T(!new)>(s: seq<T>, p: T -> bool)
    requires forall i :: 0 <= i < |s| ==> !p(s[i])
    ensures Filter(s, p) == []
  {
    if s != [] {
      FilterKeepsNone(s[1..], p);
    }
  }

  /** Index of the first entry satisfying `p`, or -1 (`find` / `findIndex` with a predicate). */
  function FirstWhere<T>(s: seq<T>, p: T -> bool): (r: int)
    ensures -1 <= r < |s|
    ensures 0 <= r ==> p(s[r]) && forall j :: 0 <= j < r ==> !p(s[j])
    ensures r == -1 <==> forall j :: 0 <= j < |s| ==> !p(s[j])
  {
    if s == [] then -1
    else if p(s[0]) then 0
    else
      var k := FirstWhere(s[1..], p);
      if k < 0 then -1 else k + 1
  }

  /** Index of the first entry whose key is `id`, or -1 (`findIndex`). */
  function IndexOf<T>(s: seq<T>, key: T -> string, id: string): (r: int)
    ensures -1 <= r < |s|
    ensures 0 <= r ==> key(s[r]) == id && forall j :: 0 <= j < r ==> key(s[j]) != id
    ensures r == -1 <==> forall j :: 0 <= j < |s| ==> key(s[j]) != id
  {
    if s == [] then -1
    else if key(s[0]) == id then 0
    else
      var k := IndexOf(s[1..], key, id);
      if k < 0 then -1 else k + 1
  }

  /** The linear scan `findIndex` performs. */
  method FindIndex<T>(s: seq<T>, key: T -> string, id: string) returns (i: int)
    ensures i == IndexOf(s, key, id)
  {
    i := 0;
    while i < |s|
      invariant 0 <= i <= |s|
      invariant forall j :: 0 <= j < i ==> key(s[j]) != id
    {
      if key(s[i]) == id {
        return;
      }
      i := i + 1;
    }
    i := -1;
  }

  /**
   * Replace the first entry with key `id` by `updated` at the same index, or,
   * when there is none, append `created`.
   */
  function Upsert<T>(s: seq<T>, key: T -> string, id: string, updated: T, created: T): seq<T>
  {
    var i := IndexOf(s, key, id);
    if 0 <= i then s[i := updated] else s + [created]
  }

  /** Number of entries whose key is `id`. */
  function CountKey<T>(s: seq<T>, key: T -> string, id: string): nat
  {
    if s == [] then 0
    else CountKey(s[..|s| - 1], key, id) + (if key(s[|s| - 1]) == id then 1 else 0)
  }

  lemma {:induction false} CountKeyZero<T>(s: seq<T>, key: T -> string, id: string)
    ensures CountKey(s, key, id) == 0 <==> forall j :: 0 <= j < |s| ==> key(s[j]) != id
  {
    if s != [] {
      CountKeyZero(s[..|s| - 1], key, id);
      assert forall j :: 0 <= j < |s| - 1 ==> s[..|s| - 1][j] == s[j];
    }
  }

  lemma {:induction false} CountKeyAppend<T>(s: seq<T>, x: T, key: T -> string, id: string)
    ensures CountKey(s + [x], key, id) == CountKey(s, key, id) + (if key(x) == id then 1 else 0)
  {
    assert (s + [x])[..|s|] == s;
  }

  /** Overwriting an entry by one with the same key keeps every key's count. */
  lemma {:induction false} CountKeyUpdate<T>(s: seq<T>, i: nat, x: T, key: T -> string, id: string)
    requires i < |s| && key(x) == key(s[i])
    ensures CountKey(s[i := x], key, id) == CountKey(s, key, id)
  {
    var n := |s| - 1;
    if i < n {
      CountKeyUpdate(s[..n], i, x, key, id);
      assert s[i := x][..n] == s[..n][i := x];
    } else {
      assert s[i := x][..n] == s[..n];
    }
  }

  /**
   * After an upsert of an entry carrying key `id`, the key is present; it is
   * present exactly once when it was present at most once before.
   */
  lemma UpsertCount<T>(s: seq<T>, key: T -> string, id: string, updated: T, created: T)
    requires key(updated) == id && key(created) == id
    ensures var c := CountKey(s, key, id);
      CountKey(Upsert(s, key, id, updated, created), key, id) == if c == 0 then 1 else c
  {
    var i := IndexOf(s, key, id);
    CountKeyZero(s, key, id);
    if 0 <= i {
      CountKeyUpdate(s, i, updated, key, id);
    } else {
      CountKeyAppend(s, created, key, id);
    }
  }

  /** Entries with the same keys, position by position, have the same key counts. */
  lemma {:induction false} CountKeySameKeys<T, U>(s: seq<T>, t: seq<U>, key: T -> string, key': U -> string, id: string)
    requires |s| == |t| && forall j :: 0 <= j < |s| ==> key(s[j]) == key'(t[j])
    ensures CountKey(s, key, id) == CountKey(t, key', id)
  {
    if s != [] {
      var n := |s| - 1;
      CountKeySameKeys(s[..n], t[..n], key, key', id);
    }
  }

  /** A key present exactly once is carried by a single position. */
  lemma {:induction false} CountKeyOne<T>(s: seq<T>, key: T -> string, id: string, i: nat, j: nat)
    requires CountKey(s, key, id) <= 1
    requires i < |s| && j < |s| && key(s[i]) == id && key(s[j]) == id
    ensures i == j
  {
    var n := |s| - 1;
    if i < n && j < n {
      CountKeyOne(s[..n], key, id, i, j);
    } else if i < n || j < n {
      var k := if i < n then i else j;
      assert key(s[..n][k]) == id;
      CountKeyZero(s[..n], key, id);
    }
  }
}
