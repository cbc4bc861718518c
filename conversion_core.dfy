/**
 * The rate table of the conversion engine: a `Map` from currency code to rate, filled from
 * plain rates objects, one per engine instance plus one shared default table
 * (src/lib/conversion-core.abstract.ts).
 */
module ConversionCore {
  import opened Wrappers

  /**
   * A plain rates object as callers pass it: its own keys in `Object.keys` order, each with
   * a rate or `undefined` (`None`).
   */
  type RatesObject = seq<(string, Option<real>)>

  /** The keys of a rates object, in order. */
  function KeysOf(obj: RatesObject): seq<string> {
    seq(|obj|, i requires 0 <= i < |obj| => obj[i].0)
  }

  /** No key is listed twice, as in every JavaScript object. */
  ghost predicate DistinctKeys(obj: RatesObject) {
    forall i, j :: 0 <= i < j < |obj| ==> obj[i].0 != obj[j].0
  }

  /** No value is `undefined`. */
  ghost predicate AllDefined(obj: RatesObject) {
    forall i :: 0 <= i < |obj| ==> obj[i].1.Some?
  }

  /** The content of a `Map<string, number>`: its keys in insertion order and the rate of each. */
  datatype RateTable = RateTable(keys: seq<string>, rates: map<string, real>) {

    /** Every key is listed exactly once, and the listed keys are the mapped ones. */
    ghost predicate Valid() {
      && (forall i, j :: 0 <= i < j < |keys| ==> keys[i] != keys[j])
      && (forall k :: k in rates <==> k in keys)
    }

    /** `Map.prototype.get`: the rate of `k`, or `undefined`. */
    function Get(k: string): Option<real> {
      if k in rates then Some(rates[k]) else None
    }

    /** `Map.prototype.set`: a key already present keeps its place, a new key goes last. */
    function Set(k: string, v: real): RateTable {
      if k in rates then RateTable(keys, rates[k := v])
      else RateTable(keys + [k], rates[k := v])
    }
  }

  /** A `new Map()`. */
  const Empty := RateTable([], map[])

  /**
   * The table after `setConversionRates(obj)`: the own keys of `obj` are visited in order;
   * a defined rate is set (whatever its sign), an `undefined` one is skipped.
   */
  function Merge(t: RateTable, obj: RatesObject): (r: RateTable)
    ensures |t.keys| <= |r.keys| <= |t.keys| + |obj| && r.keys[..|t.keys|] == t.keys
    decreases |obj|
  {
    if obj == [] then t
    else
      var prev := Merge(t, obj[..|obj| - 1]);
      var last := obj[|obj| - 1];
      if last.1.Some? then prev.Set(last.0, last.1.value) else prev
  }

  /** The rate that the last defined entry for `k` in `obj` gives, if there is one. */
  function LastDefined(obj: RatesObject, k: string): Option<real>
    decreases |obj|
  {
    if obj == [] then None
    else if obj[|obj| - 1].0 == k && obj[|obj| - 1].1.Some? then obj[|obj| - 1].1
    else LastDefined(obj[..|obj| - 1], k)
  }

  /**
   * `getConversionRates()`: a fresh plain object with the table's entries, in key order.
   * For a valid table the keys are the table's keys and every value is the key's rate.
   */
  function Snapshot(t: RateTable): (obj: RatesObject)
    ensures |obj| == |t.keys|
    ensures forall i :: 0 <= i < |obj| ==> obj[i].0 == t.keys[i]
    ensures t.Valid() ==> forall i :: 0 <= i < |obj| ==> obj[i].1 == Some(t.rates[t.keys[i]])
  {
    seq(|t.keys|, i requires 0 <= i < |t.keys| => (t.keys[i], t.Get(t.keys[i])))
  }

  /** `Map.prototype.set` keeps the keys listed once each and in step with the mapping. */
  lemma SetValid(t: RateTable, k: string, v: real)
    requires t.Valid()
    ensures t.Set(k, v).Valid()
  {
    if k !in t.rates {
      var s := t.Set(k, v);
      forall i, j | 0 <= i < j < |s.keys| ensures s.keys[i] != s.keys[j] {
        if j == |t.keys| {
          assert s.keys[i] == t.keys[i];
        }
      }
    }
  }

  /** The rate of any key after a merge: the last defined rate `obj` gives it, else its old rate. */
  lemma {:induction false} MergeGet(t: RateTable, obj: RatesObject, k: string)
    ensures Merge(t, obj).Get(k) == if LastDefined(obj, k).Some? then LastDefined(obj, k) else t.Get(k)
    decreases |obj|
  {
    if obj != [] {
      MergeGet(t, obj[..|obj| - 1], k);
    }
  }

  /** With no defined entry for `k`, there is no last defined rate for it. */
  lemma {:induction false} LastDefinedAbsent(obj: RatesObject, k: string)
    requires forall i :: 0 <= i < |obj| && obj[i].0 == k ==> obj[i].1.None?
    ensures LastDefined(obj, k) == None
    decreases |obj|
  {
    if obj != [] {
      LastDefinedAbsent(obj[..|obj| - 1], k);
    }
  }

  /** In an object whose keys are distinct, the last defined rate of a key is its own value. */
  lemma {:induction false} LastDefinedOfDistinct(obj: RatesObject, i: int)
    requires DistinctKeys(obj) && 0 <= i < |obj|
    ensures LastDefined(obj, obj[i].0) == obj[i].1
    decreases |obj|
  {
    var n := |obj| - 1;
    if i == n {
      if obj[i].1.None? {
        LastDefinedAbsent(obj[..n], obj[i].0);
      }
    } else {
      LastDefinedOfDistinct(obj[..n], i);
    }
  }

  /**
   * After `setConversionRates(obj)`, every key of `obj` with a defined value maps to that
   * value; zero and negative rates are stored like any other.
   */
  lemma DefinedEntryStored(t: RateTable, obj: RatesObject, i: int)
    requires DistinctKeys(obj) && 0 <= i < |obj| && obj[i].1.Some?
    ensures Merge(t, obj).Get(obj[i].0) == obj[i].1
  {
    MergeGet(t, obj, obj[i].0);
    LastDefinedOfDistinct(obj, i);
  }

  /**
   * A key that `obj` does not list, or lists only with `undefined`, keeps its old rate, or
   * stays absent.
   */
  lemma UndefinedKeyUntouched(t: RateTable, obj: RatesObject, k: string)
    requires forall i :: 0 <= i < |obj| && obj[i].0 == k ==> obj[i].1.None?
    ensures Merge(t, obj).Get(k) == t.Get(k)
  {
    MergeGet(t, obj, k);
    LastDefinedAbsent(obj, k);
  }

  /**
   * A merge keeps the table valid and its keys in place: overwritten keys do not move, and
   * the keys it adds come last and were absent before.
   */
  lemma {:induction false} MergeOrder(t: RateTable, obj: RatesObject)
    requires t.Valid()
    ensures Merge(t, obj).Valid()
    ensures forall j :: |t.keys| <= j < |Merge(t, obj).keys| ==> Merge(t, obj).keys[j] !in t.rates
    decreases |obj|
  {
    if obj != [] {
      var prefix := obj[..|obj| - 1];
      var prev := Merge(t, prefix);
      MergeOrder(t, prefix);
      var last := obj[|obj| - 1];
      if last.1.Some? {
        SetValid(prev, last.0, last.1.value);
        var m := prev.Set(last.0, last.1.value);
        assert m.keys[..|prev.keys|] == prev.keys;
        assert m.keys[..|t.keys|] == prev.keys[..|t.keys|];
        forall j | |t.keys| <= j < |m.keys| ensures m.keys[j] !in t.rates {
          if j == |prev.keys| {
            assert m.keys[j] == last.0 && last.0 !in prev.rates;
            MergeGet(t, prefix, last.0);
          }
        }
      }
    }
  }

  /**
   * Constructing from a rates object whose values are all defined gives back exactly that
   * object from `getConversionRates()`, keys in the same order.
   */
  lemma {:induction false} SnapshotOfMerge(obj: RatesObject)
    requires DistinctKeys(obj) && AllDefined(obj)
    ensures Snapshot(Merge(Empty, obj)) == obj
    decreases |obj|
  {
    if obj != [] {
      var n := |obj| - 1;
      var prefix := obj[..n];
      var prev := Merge(Empty, prefix);
      SnapshotOfMerge(prefix);
      MergeOrder(Empty, prefix);
      var (k, v) := obj[n];
      forall j | 0 <= j < |prev.keys| ensures prev.keys[j] != k {
        assert prev.keys[j] == Snapshot(prev)[j].0 == prefix[j].0 == obj[j].0;
      }
      var m := Merge(Empty, obj);
      assert m == RateTable(prev.keys + [k], prev.rates[k := v.value]);
      MergeOrder(Empty, obj);
      forall i | 0 <= i < |obj| ensures Snapshot(m)[i] == obj[i] {
        if i < n {
          assert Snapshot(prev)[i] == prefix[i];
        }
      }
    }
  }

  /** Two valid tables with the same snapshot are the same table. */
  lemma SnapshotInjective(t1: RateTable, t2: RateTable)
    requires t1.Valid() && t2.Valid() && Snapshot(t1) == Snapshot(t2)
    ensures t1 == t2
  {
    assert t1.keys == t2.keys by {
      forall i | 0 <= i < |t1.keys| ensures t1.keys[i] == t2.keys[i] {
        assert Snapshot(t1)[i].0 == Snapshot(t2)[i].0;
      }
    }
    forall k | k in t1.rates ensures k in t2.rates && t1.rates[k] == t2.rates[k] {
      var i :| 0 <= i < |t1.keys| && t1.keys[i] == k;
      assert Snapshot(t1)[i].1 == Snapshot(t2)[i].1;
    }
  }

  /**
   * Merging a table's snapshot into a new `Map` rebuilds the same table: this is how an engine
   * constructed without rates starts with a copy of the default table.
   */
  lemma CopyOfSnapshot(t: RateTable)
    requires t.Valid()
    ensures Merge(Empty, Snapshot(t)) == t
  {
    var obj := Snapshot(t);
    forall i, j | 0 <= i < j < |obj| ensures obj[i].0 != obj[j].0 { }
    SnapshotOfMerge(obj);
    MergeOrder(Empty, obj);
    SnapshotInjective(Merge(Empty, obj), t);
  }

  /** A live `Map<string, number>` object, updated in place by `set`. */
  class RateMap {
    var table: RateTable

    ghost predicate Valid()
      reads this
    {
      table.Valid()
    }

    /** `new Map()` */
    constructor ()
      ensures Valid() && table == Empty
    {
      table := Empty;
    }

    /** `map.set(k, v)` */
    method Set(k: string, v: real)
      requires Valid()
      modifies this
      ensures Valid() && table == old(table).Set(k, v)
    {
      SetValid(table, k, v);
      table := table.Set(k, v);
    }
  }

  /**
   * The `forEach` loop of both `setConversionRates`: every own key of `obj` whose value is
   * not `undefined` is `set` on `m`, in order.
   */
  method MergeInto(m: RateMap, obj: RatesObject)
    requires m.Valid()
    modifies m
    ensures m.Valid() && m.table == Merge(old(m.table), obj)
  {
    var i := 0;
    while i < |obj|
      invariant 0 <= i <= |obj|
      invariant m.Valid() && m.table == Merge(old(m.table), obj[..i])
    {
      var (currency, rate) := obj[i];
      assert obj[..i + 1][..i] == obj[..i];
      if rate.Some? {
        m.Set(currency, rate.value);
      }
      i := i + 1;
    }
    assert obj[..|obj|] == obj;
  }

  /**
   * The class-level state of `ConversionCore`: the shared default table read by the static
   * `conversionRates` and `getConversionRates` and filled by the static `setConversionRates`.
   */
  class DefaultRates {
    const defaultConversionRates: RateMap

    ghost predicate Valid()
      reads defaultConversionRates
    {
      defaultConversionRates.Valid()
    }

    /** The table starts as an empty `Map`. */
    constructor ()
      ensures Valid() && fresh(defaultConversionRates) && defaultConversionRates.table == Empty
    {
      defaultConversionRates := new RateMap();
    }

    /** Static `getConversionRates()`: a plain-object copy from which the table can be rebuilt. */
    function GetConversionRates(): (obj: RatesObject)
      requires Valid()
      reads defaultConversionRates
      ensures Merge(Empty, obj) == defaultConversionRates.table
      ensures KeysOf(obj) == defaultConversionRates.table.keys
    {
      CopyOfSnapshot(defaultConversionRates.table);
      Snapshot(defaultConversionRates.table)
    }

    /** Static `setConversionRates(obj)`: merges into the shared table and returns the class. */
    method SetConversionRates(obj: RatesObject) returns (self: DefaultRates)
      requires Valid()
      modifies defaultConversionRates
      ensures Valid() && self == this
      ensures defaultConversionRates.table == Merge(old(defaultConversionRates.table), obj)
    {
      MergeInto(defaultConversionRates, obj);
      self := this;
    }
  }
}
