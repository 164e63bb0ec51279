/**
 * Ordering results: JavaScript's stable `Array.prototype.sort` and SQL `ORDER BY`.
 * Both are modelled by a stable insertion sort under a total preorder `le`.
 */
module Sorting {

  ghost predicate TotalPreorder<T(!new)>(le: (T, T) -> bool) {
    && (forall a, b :: le(a, b) || le(b, a))
    && (forall a, b, c :: le(a, b) && le(b, c) ==> le(a, c))
  }

  predicate Sorted<T>(s: seq<T>, le: (T, T) -> bool) {
    forall i, j :: 0 <= i < j < |s| ==> le(s[i], s[j])
  }

  /** Puts `x` in front of the first element it is not after. */
  function Insert<T>(x: T, s: seq<T>, le: (T, T) -> bool): (r: seq<T>)
    ensures multiset(r) == multiset(s) + multiset{x}
  {
    if s == [] || le(x, s[0]) then [x] + s
    else
      assert s == [s[0]] + s[1..];
      [s[0]] + Insert(x, s[1..], le)
  }

  lemma {:induction false} InsertSorted<T(!new)>(x: T, s: seq<T>, le: (T, T) -> bool)
    requires TotalPreorder(le) && Sorted(s, le)
    ensures Sorted(Insert(x, s, le), le)
  {
    if s != [] && !le(x, s[0]) {
      InsertSorted(x, s[1..], le);
      var r := Insert(x, s[1..], le);
      assert multiset(r) == multiset(s[1..]) + multiset{x};
      forall j | 0 <= j < |r| ensures le(s[0], r[j]) {
        assert r[j] in multiset(r);
        if r[j] != x {
          assert r[j] in multiset(s[1..]);
          var k :| 0 <= k < |s[1..]| && s[1..][k] == r[j];
          assert s[k + 1] == r[j];
        }
      }
    }
  }

  function Sort<T>(s: seq<T>, le: (T, T) -> bool): (r: seq<T>)
    ensures multiset(r) == multiset(s)
    ensures |r| == |s|
  {
    if s == [] then []
    else
      assert s == [s[0]] + s[1..];
      Insert(s[0], Sort(s[1..], le), le)
  }

  lemma {:induction false} SortSorted<T(!new)>(s: seq<T>, le: (T, T) -> bool)
    requires TotalPreorder(le)
    ensures Sorted(Sort(s, le), le)
  {
    if s != [] {
      SortSorted(s[1..], le);
      InsertSorted(s[0], Sort(s[1..], le), le);
    }
  }

  // ---------------------------------------------------------------------------
  // Stability: elements that compare equal keep their relative order.

  /** The elements of `s` equivalent to `k` under `le`, in their order in `s`. */
  function Class<T>(s: seq<T>, le: (T, T) -> bool, k: T): seq<T> {
    if s == [] then []
    else (if le(s[0], k) && le(k, s[0]) then [s[0]] else []) + Class(s[1..], le, k)
  }

  lemma ClassCons<T>(y: T, t: seq<T>, le: (T, T) -> bool, k: T)
    ensures Class([y] + t, le, k) == (if le(y, k) && le(k, y) then [y] else []) + Class(t, le, k)
  {
    assert ([y] + t)[1..] == t;
  }

  lemma {:induction false} InsertClass<T(!new)>(x: T, s: seq<T>, le: (T, T) -> bool, k: T)
    requires TotalPreorder(le)
    ensures Class(Insert(x, s, le), le, k)
         == (if le(x, k) && le(k, x) then [x] else []) + Class(s, le, k)
  {
    if s == [] || le(x, s[0]) {
      ClassCons(x, s, le, k);
    } else {
      var y, t := s[0], s[1..];
      assert s == [y] + t;
      InsertClass(x, t, le, k);
      ClassCons(y, Insert(x, t, le), le, k);
      ClassCons(y, t, le, k);
      var cx := if le(x, k) && le(k, x) then [x] else [];
      var cy := if le(y, k) && le(k, y) then [y] else [];
      // Two elements equivalent to k are equivalent to each other, and x is not before y.
      assert le(x, k) && le(k, y) ==> le(x, y);
      assert cx == [] || cy == [];
      assert cy + (cx + Class(t, le, k)) == cx + (cy + Class(t, le, k));
    }
  }

  lemma {:induction false} SortStable<T(!new)>(s: seq<T>, le: (T, T) -> bool, k: T)
    requires TotalPreorder(le)
    ensures Class(Sort(s, le), le, k) == Class(s, le, k)
  {
    if s != [] {
      SortStable(s[1..], le, k);
      InsertClass(s[0], Sort(s[1..], le), le, k);
    }
  }

  // ---------------------------------------------------------------------------
  // Listing the rows of a table (a map keyed by id) in `ORDER BY` order.

  ghost function Pick<K, V>(m: map<K, V>): K
    requires m != map[]
  {
    var k :| k in m; k
  }

  /** The rows of a table, counted with multiplicity. */
  ghost function Bag<K, V>(m: map<K, V>): multiset<V>
    decreases |m|
  {
    if m == map[] then multiset{}
    else
      var k := Pick(m);
      assert k in m && m.Keys - {k} < m.Keys;
      Bag(m - {k}) + multiset{m[k]}
  }

  lemma {:induction false} BagRemove<K, V>(m: map<K, V>, k: K)
    requires k in m
    ensures Bag(m) == Bag(m - {k}) + multiset{m[k]}
    decreases m.Keys
  {
    var p := Pick(m);
    if p != k {
      var mp, mk := m - {p}, m - {k};
      assert mp.Keys < m.Keys && mk.Keys < m.Keys;
      var rest := mp - {k};
      assert rest == mk - {p};
      BagRemove(mp, k);
      BagRemove(mk, p);
      var a, b := Bag(rest), Bag(mp);
      assert b == a + multiset{m[k]};
      assert Bag(mk) == a + multiset{m[p]};
      assert Bag(m) == b + multiset{m[p]};
    }
  }

  lemma {:induction false} BagMember<K, V>(m: map<K, V>, v: V)
    ensures v in Bag(m) <==> exists k :: k in m && m[k] == v
    decreases |m|
  {
    if m != map[] {
      var p := Pick(m);
      var mp := m - {p};
      assert mp.Keys < m.Keys;
      BagMember(mp, v);
      assert Bag(m) == Bag(mp) + multiset{m[p]};
      if v in Bag(m) && v != m[p] {
        var k :| k in mp && mp[k] == v;
        assert k in m && m[k] == v;
      }
      if exists k :: k in m && m[k] == v {
        var k :| k in m && m[k] == v;
        if k != p {
          assert k in mp && mp[k] == v;
        }
      }
    }
  }

  /** A table has as many rows as keys. */
  lemma {:induction false} BagSize<K, V>(m: map<K, V>)
    ensures |Bag(m)| == |m|
    decreases |m|
  {
    if m != map[] {
      var p := Pick(m);
      var mp := m - {p};
      assert |mp| == |m| - 1;
      BagSize(mp);
    }
  }

  /** In a sorted sequence, every element of a prefix comes no later than every element after it. */
  lemma SortedPrefixFirst<T>(s: seq<T>, n: nat, le: (T, T) -> bool)
    requires Sorted(s, le) && n <= |s|
    ensures multiset(s[..n]) <= multiset(s)
    ensures forall x, y :: x in s[..n] && y in multiset(s) - multiset(s[..n]) ==> le(x, y)
  {
    assert s == s[..n] + s[n..];
    assert multiset(s) - multiset(s[..n]) == multiset(s[n..]);
    forall x, y | x in s[..n] && y in multiset(s[n..]) ensures le(x, y) {
      var i :| 0 <= i < n && s[..n][i] == x;
      assert y in s[n..];
      var j :| 0 <= j < |s| - n && s[n..][j] == y;
      assert s[i] == x && s[n + j] == y;
    }
  }

  /** One step of listing: inserting a row of `rest` keeps `rows` sorted and moves it out of `rest`. */
  lemma ListMapStep<K, V(!new)>(rows: seq<V>, rest: map<K, V>, k: K, le: (V, V) -> bool)
    requires TotalPreorder(le) && Sorted(rows, le) && k in rest
    ensures Sorted(Insert(rest[k], rows, le), le)
    ensures multiset(Insert(rest[k], rows, le)) + Bag(rest - {k}) == multiset(rows) + Bag(rest)
  {
    BagRemove(rest, k);
    InsertSorted(rest[k], rows, le);
  }

  /** All rows of the table `m`, ordered by `le` (ties in no particular order). */
  method ListMap<K, V(!new)>(m: map<K, V>, le: (V, V) -> bool) returns (rows: seq<V>)
    requires TotalPreorder(le)
    ensures Sorted(rows, le)
    ensures multiset(rows) == Bag(m)
  {
    var rest := m;
    rows := [];
    while rest != map[]
      invariant Sorted(rows, le)
      invariant multiset(rows) + Bag(rest) == Bag(m)
      decreases |rest|
    {
      var k :| k in rest;
      ListMapStep(rows, rest, k, le);
      rows := Insert(rest[k], rows, le);
      assert rest.Keys - {k} < rest.Keys;
      rest := rest - {k};
    }
  }

  /** The first `n` rows of the table `m` in `le` order (`ORDER BY ... LIMIT n`). */
  method ListMapTop<K, V(!new)>(m: map<K, V>, le: (V, V) -> bool, n: nat) returns (rows: seq<V>)
    requires TotalPreorder(le)
    ensures Sorted(rows, le)
    ensures |rows| == if |m| < n then |m| else n
    ensures multiset(rows) <= Bag(m)
    ensures forall x, y :: x in rows && y in Bag(m) - multiset(rows) ==> le(x, y)
  {
    var all := ListMap(m, le);
    BagSize(m);
    assert |all| == |multiset(all)| == |m|;
    var k := if |all| < n then |all| else n;
    SortedPrefixFirst(all, k, le);
    rows := all[..k];
  }
}
