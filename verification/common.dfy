/** Building blocks shared by the point-of-sale, storefront and admin models:
    an Option type, integer min/max, order-preserving filtering, the key order of
    a JavaScript object, and sums over the values of a dictionary. */
module Common {

  datatype Option<+T> = None | Some(value: T)

  function Min(a: int, b: int): int { if a <= b then a else b }

  function Max(a: int, b: int): int { if a >= b then a else b }

  // ---------------------------------------------------------------------------
  // Array.prototype.filter

  /** `sub` can be obtained from `s` by deleting elements (order is kept). */
  ghost predicate IsSubsequence<T>(sub: seq<T>, s: seq<T>)
    decreases |s|
  {
    if sub == [] then true
    else if s == [] then false
    else if sub[0] == s[0] then IsSubsequence(sub[1..], s[1..])
    else IsSubsequence(sub, s[1..])
  }

  /** The elements of `s` that satisfy `keep`, in their original order. */
  function Filter<T(==, !new)>(s: seq<T>, keep: T -> bool): (r: seq<T>)
    ensures IsSubsequence(r, s)
    ensures forall x :: x in r <==> x in s && keep(x)
    ensures forall x :: multiset(r)[x] == if keep(x) then multiset(s)[x] else 0
    ensures |r| <= |s|
  {
    if s == [] then []
    else
      var rest := Filter(s[1..], keep);
      assert s == [s[0]] + s[1..];
      if keep(s[0]) then [s[0]] + rest
      else
        assert rest != [] ==> rest[0] in rest && rest[0] != s[0];
        rest
  }

  /** Filtering one more element at the end appends it when it passes the test. */
  lemma {:induction false} FilterSnoc<T(!new)>(s: seq<T>, x: T, keep: T -> bool)
    ensures Filter(s + [x], keep) == Filter(s, keep) + (if keep(x) then [x] else [])
    decreases |s|
  {
    if s == [] {
      assert [] + [x] == [x];
      assert [x][1..] == [];
    } else {
      assert (s + [x])[1..] == s[1..] + [x];
      FilterSnoc(s[1..], x, keep);
    }
  }

  /** The same, for a sequence split before its last element. */
  lemma FilterDropLast<T(!new)>(s: seq<T>, keep: T -> bool)
    requires s != []
    ensures Filter(s, keep) == Filter(s[..|s| - 1], keep) + (if keep(s[|s| - 1]) then [s[|s| - 1]] else [])
  {
    FilterSnoc(s[..|s| - 1], s[|s| - 1], keep);
    assert s[..|s| - 1] + [s[|s| - 1]] == s;
  }

  lemma {:induction false} FilterKeepsAll<T(!new)>(s: seq<T>, keep: T -> bool)
    requires forall x :: x in s ==> keep(x)
    ensures Filter(s, keep) == s
  {
    if s != [] {
      assert forall x :: x in s[1..] ==> x in s;
      FilterKeepsAll(s[1..], keep);
    }
  }

  // ---------------------------------------------------------------------------
  // JavaScript objects used as dictionaries

  ghost predicate Distinct<T>(s: seq<T>)
  {
    forall i, j :: 0 <= i < j < |s| ==> s[i] != s[j]
  }

  /** `keys` is `Object.keys(m)`: every key of `m` exactly once. */
  ghost predicate KeyOrder<V>(keys: seq<string>, m: map<string, V>)
  {
    Distinct(keys) && forall k :: k in keys <==> k in m
  }

  /** `Object.keys(m).length === 0` exactly when `m` is empty. */
  lemma KeyOrderEmpty<V>(keys: seq<string>, m: map<string, V>)
    requires KeyOrder(keys, m)
    ensures keys == [] <==> m == map[]
  {
    if keys != [] {
      assert keys[0] in m;
    } else {
      assert forall k :: k !in m;
      assert m.Keys == {};
    }
  }

  /** `dict[k] || 0` for a dictionary of quantities. */
  function QtyOf(m: map<string, int>, k: string): int
  {
    if k in m then m[k] else 0
  }

  /** Key order after `obj[k] = v`: an existing key keeps its place, a new one goes last. */
  function WithKey(keys: seq<string>, k: string): (r: seq<string>)
    ensures forall x :: x in r <==> x in keys || x == k
  {
    if k in keys then keys else keys + [k]
  }

  /** Key order after `delete obj[k]`. */
  function WithoutKey(keys: seq<string>, k: string): (r: seq<string>)
    ensures forall x :: x in r <==> x in keys && x != k
    ensures Distinct(keys) ==> Distinct(r)
  {
    if keys == [] then []
    else
      var rest := WithoutKey(keys[1..], k);
      assert forall x :: x in rest ==> x in keys[1..];
      assert Distinct(keys) ==> keys[0] !in keys[1..] && Distinct(keys[1..]);
      if keys[0] == k then rest else [keys[0]] + rest
  }

  lemma WithKeyOrder<V>(keys: seq<string>, m: map<string, V>, k: string, v: V)
    requires KeyOrder(keys, m)
    ensures KeyOrder(WithKey(keys, k), m[k := v])
  {
  }

  lemma WithoutKeyOrder<V>(keys: seq<string>, m: map<string, V>, k: string)
    requires KeyOrder(keys, m)
    ensures KeyOrder(WithoutKey(keys, k), m - {k})
  {
  }

  // ---------------------------------------------------------------------------
  // Sums of the values of a dictionary

  /** `Object.values(m).reduce((sum, v) => sum + v, 0)` when `Object.keys(m)` is `keys`. */
  function ValueSum(keys: seq<string>, m: map<string, int>): int
    decreases |keys|
  {
    if keys == [] then 0
    else ValueSum(keys[..|keys| - 1], m) + QtyOf(m, keys[|keys| - 1])
  }

  /** The sum of the values of `m`, independent of any key order. */
  ghost function MapSum(m: map<string, int>): int
    decreases |m|
  {
    if m == map[] then 0
    else
      var k :| k in m;
      m[k] + MapSum(m - {k})
  }

  /** Any key can be taken out first: the order in which MapSum visits keys does not matter. */
  lemma {:induction false} MapSumRemove(m: map<string, int>, k: string)
    requires k in m
    ensures MapSum(m) == m[k] + MapSum(m - {k})
    decreases |m|
  {
    var j :| j in m && MapSum(m) == m[j] + MapSum(m - {j});
    if j != k {
      assert |m - {j}| < |m|;
      MapSumRemove(m - {j}, k);
      MapSumRemove(m - {k}, j);
      assert (m - {j}) - {k} == (m - {k}) - {j};
    }
  }

  lemma {:induction false} ValueSumOnlyReadsKeys(keys: seq<string>, m: map<string, int>, m': map<string, int>)
    requires forall k :: k in keys ==> QtyOf(m, k) == QtyOf(m', k)
    ensures ValueSum(keys, m) == ValueSum(keys, m')
    decreases |keys|
  {
    if keys != [] {
      var init := keys[..|keys| - 1];
      assert forall k :: k in init ==> k in keys;
      ValueSumOnlyReadsKeys(init, m, m');
    }
  }

  /** Summing along any key order of `m` gives the order-free sum. */
  lemma {:induction false} ValueSumIsMapSum(keys: seq<string>, m: map<string, int>)
    requires KeyOrder(keys, m)
    ensures ValueSum(keys, m) == MapSum(m)
    decreases |keys|
  {
    if keys == [] {
      assert m == map[];
    } else {
      var last := keys[|keys| - 1];
      var init := keys[..|keys| - 1];
      var rest := m - {last};
      assert forall k :: k in init <==> k in keys && k != last by {
        forall k | k in init ensures k != last {
          var i :| 0 <= i < |init| && init[i] == k;
          assert keys[i] == k;
        }
        forall k | k in keys && k != last ensures k in init {
          var i :| 0 <= i < |keys| && keys[i] == k;
          assert i < |keys| - 1;
          assert init[i] == k;
        }
      }
      assert KeyOrder(init, rest);
      ValueSumOnlyReadsKeys(init, m, rest);
      ValueSumIsMapSum(init, rest);
      MapSumRemove(m, last);
    }
  }

  /** The sum does not depend on the order in which the keys are enumerated. */
  lemma ValueSumOrderIrrelevant(a: seq<string>, b: seq<string>, m: map<string, int>)
    requires KeyOrder(a, m) && KeyOrder(b, m)
    ensures ValueSum(a, m) == ValueSum(b, m)
  {
    ValueSumIsMapSum(a, m);
    ValueSumIsMapSum(b, m);
  }

  /** Overwriting one value changes the sum by the difference. */
  lemma MapSumUpdate(m: map<string, int>, k: string, v: int)
    ensures MapSum(m[k := v]) == MapSum(m) - QtyOf(m, k) + v
  {
    MapSumRemove(m[k := v], k);
    assert m[k := v] - {k} == m - {k};
    if k in m {
      MapSumRemove(m, k);
    } else {
      assert m - {k} == m;
    }
  }

  /** Deleting a key takes its value out of the sum. */
  lemma MapSumDelete(m: map<string, int>, k: string)
    ensures MapSum(m - {k}) == MapSum(m) - QtyOf(m, k)
  {
    if k in m {
      MapSumRemove(m, k);
    } else {
      assert m - {k} == m;
    }
  }
}
