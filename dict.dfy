/**
 * Python dicts as key/value pairs in insertion order, and `dict(items)`,
 * which keeps each key once, at the place it first appears, with the last
 * value given for it.
 */
module Dict {
  import opened Wrappers

  predicate HasKey<V>(d: seq<(string, V)>, k: string) {
    exists i :: 0 <= i < |d| && d[i].0 == k
  }

  /** What every Python dict satisfies: no key is bound twice. */
  predicate DistinctKeys<V>(d: seq<(string, V)>) {
    forall i, j :: 0 <= i < j < |d| ==> d[i].0 != d[j].0
  }

  /** The keys of `d`, in order. */
  function Keys<V>(d: seq<(string, V)>): seq<string> {
    seq(|d|, i requires 0 <= i < |d| => d[i].0)
  }

  lemma KeysHasKey<V>(d: seq<(string, V)>, x: string)
    ensures x in Keys(d) <==> HasKey(d, x)
  {
    if HasKey(d, x) {
      var i :| 0 <= i < |d| && d[i].0 == x;
      assert Keys(d)[i] == x;
    }
  }

  /** `ks` followed by those of `xs` it does not hold yet, each once, in the
      order they first appear in `xs`. */
  function AddKeys(ks: seq<string>, xs: seq<string>): seq<string>
    decreases |xs|
  {
    if xs == [] then ks
    else
      var r := AddKeys(ks, xs[..|xs| - 1]);
      if xs[|xs| - 1] in r then r else r + [xs[|xs| - 1]]
  }

  /** The keys of `items`, each once, in the order they first appear: the
      order of the keys of `dict(items)`. */
  function FirstKeys<V>(items: seq<(string, V)>): seq<string> {
    AddKeys([], Keys(items))
  }

  lemma {:induction false} AddKeysMember(ks: seq<string>, xs: seq<string>, x: string)
    ensures x in AddKeys(ks, xs) <==> x in ks || x in xs
    decreases |xs|
  {
    if xs != [] {
      AddKeysMember(ks, xs[..|xs| - 1], x);
      assert xs == xs[..|xs| - 1] + [xs[|xs| - 1]];
    }
  }

  lemma {:induction false} AddKeysConcat(ks: seq<string>, a: seq<string>, b: seq<string>)
    ensures AddKeys(ks, a + b) == AddKeys(AddKeys(ks, a), b)
    decreases |b|
  {
    if b == [] {
      assert a + b == a;
    } else {
      assert (a + b)[..|a + b| - 1] == a + b[..|b| - 1];
      assert (a + b)[|a + b| - 1] == b[|b| - 1];
      AddKeysConcat(ks, a, b[..|b| - 1]);
    }
  }

  /** Adding the keys of `xs` once each in first-appearance order adds the
      same keys as adding all of `xs`. */
  lemma {:induction false} AddKeysOfFirst(ks: seq<string>, xs: seq<string>)
    ensures AddKeys(ks, AddKeys([], xs)) == AddKeys(ks, xs)
    decreases |xs|
  {
    if xs != [] {
      var init := xs[..|xs| - 1];
      var x := xs[|xs| - 1];
      var s := AddKeys([], init);
      AddKeysOfFirst(ks, init);
      AddKeysMember([], init, x);
      AddKeysMember(ks, init, x);
      if x !in s {
        assert (s + [x])[..|s + [x]| - 1] == s;
      }
    }
  }

  /** The keys of `a + b` in first-appearance order are those of `a`, then
      the new ones of `b`. */
  lemma FirstKeysConcat<V>(a: seq<(string, V)>, b: seq<(string, V)>)
    ensures FirstKeys(a + b) == AddKeys(FirstKeys(a), FirstKeys(b))
  {
    assert Keys(a + b) == Keys(a) + Keys(b);
    AddKeysConcat([], Keys(a), Keys(b));
    AddKeysOfFirst(FirstKeys(a), Keys(b));
  }

  lemma HasKeyConcat<V>(a: seq<(string, V)>, b: seq<(string, V)>, k: string)
    ensures HasKey(a + b, k) <==> HasKey(a, k) || HasKey(b, k)
  {
    if HasKey(a + b, k) {
      var i :| 0 <= i < |a + b| && (a + b)[i].0 == k;
      if i >= |a| {
        assert b[i - |a|].0 == k;
      }
    }
    if HasKey(a, k) {
      var i :| 0 <= i < |a| && a[i].0 == k;
      assert (a + b)[i].0 == k;
    }
    if HasKey(b, k) {
      var i :| 0 <= i < |b| && b[i].0 == k;
      assert (a + b)[|a| + i].0 == k;
    }
  }

  lemma HasKeyCons<V>(d: seq<(string, V)>)
    requires d != []
    ensures forall x :: HasKey(d, x) <==> d[0].0 == x || HasKey(d[1..], x)
  {
    assert d == [d[0]] + d[1..];
    forall x {
      HasKeyConcat([d[0]], d[1..], x);
    }
  }

  /** The position of the first pair for `k`. */
  function IndexOf<V>(d: seq<(string, V)>, k: string): (i: nat)
    requires HasKey(d, k)
    ensures i < |d| && d[i].0 == k
    ensures forall j :: 0 <= j < i ==> d[j].0 != k
  {
    HasKeyCons(d);
    if d[0].0 == k then 0 else 1 + IndexOf(d[1..], k)
  }

  /** `k in d` and `d[k]`: the value of the first pair for `k`, if any. */
  function Lookup<V>(d: seq<(string, V)>, k: string): Option<V> {
    if d == [] then None
    else if d[0].0 == k then Some(d[0].1)
    else Lookup(d[1..], k)
  }

  /** A key is found exactly when some pair binds it, and then the value
      found is that of its first pair. */
  lemma {:induction false} LookupIndex<V>(d: seq<(string, V)>, k: string)
    ensures Lookup(d, k) == if HasKey(d, k) then Some(d[IndexOf(d, k)].1) else None
  {
    if d != [] {
      HasKeyCons(d);
      if d[0].0 != k {
        LookupIndex(d[1..], k);
        if HasKey(d[1..], k) {
          assert d[1..][IndexOf(d[1..], k)] == d[IndexOf(d, k)];
        }
      }
    }
  }

  /** The value of the last pair for `k` in `items`. */
  function LastValue<V>(items: seq<(string, V)>, k: string): (r: Option<V>)
    ensures r.Some? <==> HasKey(items, k)
  {
    if items == [] then None
    else
      assert forall i :: 0 < i < |items| ==> items[i] == items[1..][i - 1];
      match LastValue(items[1..], k)
      case Some(v) => Some(v)
      case None => if items[0].0 == k then Some(items[0].1) else None
  }

  lemma {:induction false} LastValueConcat<V>(a: seq<(string, V)>, b: seq<(string, V)>, k: string)
    ensures LastValue(a + b, k) == if HasKey(b, k) then LastValue(b, k) else LastValue(a, k)
  {
    if a == [] {
      assert a + b == b;
    } else {
      assert (a + b)[1..] == a[1..] + b;
      LastValueConcat(a[1..], b, k);
    }
  }

  /** `a` and `b` bind `x` alike, counting only the last binding. */
  ghost predicate AgreeOn<V>(a: seq<(string, V)>, b: seq<(string, V)>, x: string) {
    (HasKey(a, x) <==> HasKey(b, x)) && LastValue(a, x) == LastValue(b, x)
  }

  lemma AgreeOnConcat<V>(a: seq<(string, V)>, b: seq<(string, V)>, c: seq<(string, V)>, d: seq<(string, V)>, x: string)
    requires AgreeOn(a, c, x) && AgreeOn(b, d, x)
    ensures AgreeOn(a + b, c + d, x)
  {
    HasKeyConcat(a, b, x);
    HasKeyConcat(c, d, x);
    LastValueConcat(a, b, x);
    LastValueConcat(c, d, x);
  }

  /** In a dict, the last binding of a key is its only one. */
  lemma {:induction false} LastValueOfDistinct<V>(d: seq<(string, V)>, k: string)
    requires DistinctKeys(d)
    ensures LastValue(d, k) == Lookup(d, k)
  {
    if d != [] {
      LastValueOfDistinct(d[1..], k);
      if d[0].0 == k {
        assert !HasKey(d[1..], k) by {
          forall i | 0 <= i < |d[1..]| ensures d[1..][i].0 != k {
            assert d[1..][i] == d[i + 1];
          }
        }
      }
    }
  }

  /** Two dicts whose keys agree position by position. */
  predicate SameKeys<V>(d: seq<(string, V)>, e: seq<(string, V)>) {
    |d| == |e| && forall j :: 0 <= j < |d| ==> d[j].0 == e[j].0
  }

  lemma SameKeysIndex<V>(d: seq<(string, V)>, e: seq<(string, V)>, x: string)
    requires SameKeys(d, e)
    ensures HasKey(d, x) <==> HasKey(e, x)
    ensures HasKey(d, x) ==> IndexOf(d, x) == IndexOf(e, x)
  {
    if HasKey(d, x) {
      var i := IndexOf(d, x);
      assert e[i].0 == x;
    }
    if HasKey(e, x) {
      var i := IndexOf(e, x);
      assert d[i].0 == x;
    }
  }

  lemma AppendIndex<V>(d: seq<(string, V)>, k: string, v: V, x: string)
    requires !HasKey(d, k)
    ensures HasKey(d + [(k, v)], x) <==> HasKey(d, x) || x == k
    ensures Lookup(d + [(k, v)], x) == if x == k then Some(v) else Lookup(d, x)
  {
    var r := d + [(k, v)];
    LookupIndex(r, x);
    LookupIndex(d, x);
    HasKeyConcat(d, [(k, v)], x);
    assert HasKey([(k, v)], x) <==> x == k by {
      if x == k { assert [(k, v)][0].0 == x; }
    }
    if HasKey(d, x) {
      var i := IndexOf(d, x);
      assert r[i] == d[i];
      assert IndexOf(r, x) == i;
    } else if x == k {
      assert r[|d|] == (k, v);
      assert IndexOf(r, x) == |d|;
    }
  }

  /** `d[k] = v`: overwrites the binding of `k` in place, or appends one. */
  function Store<V>(d: seq<(string, V)>, k: string, v: V): (r: seq<(string, V)>)
    ensures forall x :: HasKey(r, x) <==> HasKey(d, x) || x == k
    ensures forall x :: Lookup(r, x) == if x == k then Some(v) else Lookup(d, x)
    ensures DistinctKeys(d) ==> DistinctKeys(r)
    ensures !HasKey(d, k) ==> r == d + [(k, v)]
    ensures Keys(r) == if HasKey(d, k) then Keys(d) else Keys(d) + [k]
  {
    if HasKey(d, k) then
      var i := IndexOf(d, k);
      var r := d[i := (k, v)];
      assert SameKeys(d, r);
      assert Keys(r) == Keys(d);
      assert forall x :: HasKey(r, x) <==> HasKey(d, x) by {
        forall x { SameKeysIndex(d, r, x); }
      }
      assert forall x :: Lookup(r, x) == if x == k then Some(v) else Lookup(d, x) by {
        forall x
          ensures Lookup(r, x) == if x == k then Some(v) else Lookup(d, x)
        {
          SameKeysIndex(d, r, x);
          LookupIndex(d, x);
          LookupIndex(r, x);
          if HasKey(d, x) {
            assert r[IndexOf(d, x)] == if x == k then (k, v) else d[IndexOf(d, x)];
          }
        }
      }
      r
    else
      var r := d + [(k, v)];
      assert Keys(r) == Keys(d) + [k];
      assert forall x :: (HasKey(r, x) <==> HasKey(d, x) || x == k) && Lookup(r, x) == (if x == k then Some(v) else Lookup(d, x)) by {
        forall x { AppendIndex(d, k, v, x); }
      }
      assert DistinctKeys(d) ==> DistinctKeys(r) by {
        if DistinctKeys(d) {
          forall i, j | 0 <= i < j < |r| ensures r[i].0 != r[j].0 {
            if j == |d| {
              assert r[i] == d[i];
            }
          }
        }
      }
      r
  }

  /** Stores the pairs of `items` into `d` one after another. */
  function StoreAll<V>(d: seq<(string, V)>, items: seq<(string, V)>): seq<(string, V)>
    decreases |items|
  {
    if items == [] then d
    else StoreAll(Store(d, items[0].0, items[0].1), items[1..])
  }

  /** After storing `items`, a key is bound when `d` or `items` binds it,
      to its last value in `items` if there is one. */
  lemma {:induction false} StoreAllBinds<V>(d: seq<(string, V)>, items: seq<(string, V)>, x: string)
    ensures HasKey(StoreAll(d, items), x) <==> HasKey(d, x) || HasKey(items, x)
    ensures Lookup(StoreAll(d, items), x) == if HasKey(items, x) then LastValue(items, x) else Lookup(d, x)
    decreases |items|
  {
    if items != [] {
      StoreAllBinds(Store(d, items[0].0, items[0].1), items[1..], x);
      HasKeyCons(items);
    }
  }

  lemma {:induction false} StoreAllDistinct<V>(d: seq<(string, V)>, items: seq<(string, V)>)
    requires DistinctKeys(d)
    ensures DistinctKeys(StoreAll(d, items))
    decreases |items|
  {
    if items != [] {
      StoreAllDistinct(Store(d, items[0].0, items[0].1), items[1..]);
    }
  }

  lemma {:induction false} StoreAllSnoc<V>(d: seq<(string, V)>, items: seq<(string, V)>, p: (string, V))
    ensures StoreAll(d, items + [p]) == Store(StoreAll(d, items), p.0, p.1)
    decreases |items|
  {
    if items == [] {
      assert items + [p] == [p];
    } else {
      assert (items + [p])[1..] == items[1..] + [p];
      StoreAllSnoc(Store(d, items[0].0, items[0].1), items[1..], p);
    }
  }

  lemma FirstKeysSnoc<V>(items: seq<(string, V)>, p: (string, V))
    ensures FirstKeys(items + [p]) == if p.0 in FirstKeys(items) then FirstKeys(items) else FirstKeys(items) + [p.0]
  {
    var ks := Keys(items + [p]);
    assert ks[..|ks| - 1] == Keys(items) && ks[|ks| - 1] == p.0;
  }

  /** Storing `items` into an empty dict places each key where it first appears. */
  lemma {:induction false} StoreAllKeys<V>(items: seq<(string, V)>)
    ensures Keys(StoreAll([], items)) == FirstKeys(items)
    decreases |items|
  {
    if items != [] {
      var init := items[..|items| - 1];
      var p := items[|items| - 1];
      assert items == init + [p];
      FirstKeysSnoc(init, p);
      StoreAllSnoc([], init, p);
      StoreAllKeys(init);
      KeysHasKey(StoreAll([], init), p.0);
    }
  }

  /** `dict(items)`. */
  function DictOf<V>(items: seq<(string, V)>): (r: seq<(string, V)>)
    ensures DistinctKeys(r)
    ensures forall x :: HasKey(r, x) <==> HasKey(items, x)
    ensures forall x :: Lookup(r, x) == LastValue(items, x)
    ensures Keys(r) == FirstKeys(items)
  {
    StoreAllKeys(items);
    StoreAllDistinct([], items);
    assert forall x :: (HasKey(StoreAll([], items), x) <==> HasKey(items, x)) && Lookup(StoreAll([], items), x) == LastValue(items, x) by {
      forall x {
        StoreAllBinds([], items, x);
      }
    }
    StoreAll([], items)
  }

  lemma {:induction false} StoreAllFresh<V>(d: seq<(string, V)>, items: seq<(string, V)>)
    requires DistinctKeys(d + items)
    ensures StoreAll(d, items) == d + items
    decreases |items|
  {
    if items == [] {
      assert d + items == d;
    } else {
      var k := items[0].0;
      assert !HasKey(d, k) by {
        forall i | 0 <= i < |d| ensures d[i].0 != k {
          assert d[i] == (d + items)[i] && items[0] == (d + items)[|d|];
        }
      }
      var d' := Store(d, k, items[0].1);
      assert d' == d + [items[0]];
      assert d' + items[1..] == d + items;
      StoreAllFresh(d', items[1..]);
    }
  }

  /** `dict(items)` of pairs whose keys are distinct is those pairs, in order. */
  lemma DictOfDistinct<V>(items: seq<(string, V)>)
    requires DistinctKeys(items)
    ensures DictOf(items) == items
  {
    assert [] + items == items;
    StoreAllFresh([], items);
  }

  /** In a dict, a key found at position `i` is looked up to the value there. */
  lemma LookupAt<V>(d: seq<(string, V)>, i: nat)
    requires DistinctKeys(d) && i < |d|
    ensures Lookup(d, d[i].0) == Some(d[i].1)
  {
    LookupIndex(d, d[i].0);
  }

  /** Two dicts with the same keys in the same order and the same lookups are equal. */
  lemma DictsEqual<V>(r: seq<(string, V)>, s: seq<(string, V)>)
    requires DistinctKeys(r) && DistinctKeys(s)
    requires Keys(r) == Keys(s)
    requires forall x :: Lookup(r, x) == Lookup(s, x)
    ensures r == s
  {
    assert |r| == |Keys(r)| == |s|;
    forall i | 0 <= i < |r| ensures r[i] == s[i] {
      assert r[i].0 == Keys(r)[i] == s[i].0;
      LookupAt(r, i);
      LookupAt(s, i);
    }
  }

  /** The contract of `DictOf` pins its result down: any dict with the keys
      of `items` in first-appearance order and their last values is it. */
  lemma DictOfUnique<V>(items: seq<(string, V)>, r: seq<(string, V)>)
    requires DistinctKeys(r) && Keys(r) == FirstKeys(items)
    requires forall x :: Lookup(r, x) == LastValue(items, x)
    ensures r == DictOf(items)
  {
    DictsEqual(r, DictOf(items));
  }

  /** `dict(items)` keeps the keys it meets again where they first appeared. */
  lemma FirstKeysOfDictOf<V>(items: seq<(string, V)>)
    ensures FirstKeys(DictOf(items)) == FirstKeys(items)
  {
    AddKeysOfFirst([], Keys(items));
  }

  lemma RepeatedKeyLookup(x: string)
    ensures Lookup([("a", 3), ("b", 2)], x) == LastValue([("a", 1), ("b", 2), ("a", 3)], x)
  {
    var items: seq<(string, int)> := [("a", 1), ("b", 2), ("a", 3)];
    var r: seq<(string, int)> := [("a", 3), ("b", 2)];
    var last: seq<(string, int)> := [("a", 3)];
    assert items[1..] == [("b", 2)] + last && items[1..][1..] == last && |last[1..]| == 0;
    assert r[1..] == [("b", 2)] && |r[1..][1..]| == 0;
    assert LastValue(last, x) == if x == "a" then Some(3) else None;
    assert LastValue(items[1..], x) == if x == "a" then Some(3) else if x == "b" then Some(2) else None;
    assert LastValue(items, x) == if x == "a" then Some(3) else if x == "b" then Some(2) else None;
    assert Lookup(r[1..], x) == if x == "b" then Some(2) else None;
    assert Lookup(r, x) == if x == "a" then Some(3) else if x == "b" then Some(2) else None;
  }

  /** A repeated key stays where it first appeared, with its last value. */
  lemma DictOfRepeatedKey()
    ensures DictOf([("a", 1), ("b", 2), ("a", 3)]) == [("a", 3), ("b", 2)]
  {
    var items: seq<(string, int)> := [("a", 1), ("b", 2), ("a", 3)];
    var r: seq<(string, int)> := [("a", 3), ("b", 2)];
    var ks := ["a", "b", "a"];
    assert Keys(items) == ks;
    assert ks[..2] == ["a", "b"] && ks[..2][..1] == ["a"] && |["a"][..0]| == 0;
    assert AddKeys([], ["a"]) == ["a"];
    assert AddKeys([], ["a", "b"]) == ["a", "b"];
    assert FirstKeys(items) == AddKeys([], ks) == ["a", "b"];
    assert Keys(r) == ["a", "b"];
    forall x ensures Lookup(r, x) == LastValue(items, x) {
      RepeatedKeyLookup(x);
    }
    DictOfUnique(items, r);
  }
}
