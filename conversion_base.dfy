/**
 * The conversion engine: an amount, a fixed base currency and the instance's own rate table
 * (src/lib/conversion-base.abstract.ts with the instance part of
 * src/lib/conversion-core.abstract.ts; the concrete class of src/lib/conversion.class.ts
 * adds nothing).
 */
module ConversionBase {
  import opened Wrappers
  import opened ConversionCore

  class Conversion {
    /** `#amount`, replaced by `setAmount`. */
    var amount: real
    /** `#currency`, the base currency. */
    const currency: string
    /** `#conversionRates`, the live `Map` the `conversionRates` getter exposes. */
    const conversionRates: RateMap

    ghost predicate Valid()
      reads conversionRates
    {
      conversionRates.Valid()
    }

    /**
     * `new Conversion(amount, currency, conversionRates?)`: the table is a new `Map` filled
     * from the given object or, when it is omitted, from a copy of the default table.
     */
    constructor (amount: real, currency: string, rates: Option<RatesObject>, defaults: DefaultRates)
      requires defaults.Valid()
      ensures Valid() && fresh(conversionRates)
      ensures this.amount == amount && this.currency == currency
      ensures rates.Some? ==> conversionRates.table == Merge(Empty, rates.value)
      ensures rates.None? ==> conversionRates.table == defaults.defaultConversionRates.table
    {
      this.amount := amount;
      this.currency := currency;
      conversionRates := new RateMap();
      new;
      MergeInto(conversionRates, if rates.Some? then rates.value else defaults.GetConversionRates());
    }

    /** The `currencies` getter: the currencies that have a rate, each once, in insertion order. */
    function Currencies(): (cs: seq<string>)
      requires Valid()
      reads conversionRates
      ensures forall c :: c in cs <==> c in conversionRates.table.rates
      ensures forall i, j :: 0 <= i < j < |cs| ==> cs[i] != cs[j]
    {
      conversionRates.table.keys
    }

    /** `getConversionRates()`: a plain-object copy from which the table can be rebuilt. */
    function GetConversionRates(): (obj: RatesObject)
      requires Valid()
      reads conversionRates
      ensures Merge(Empty, obj) == conversionRates.table
      ensures KeysOf(obj) == Currencies()
    {
      CopyOfSnapshot(conversionRates.table);
      Snapshot(conversionRates.table)
    }

    /** `setConversionRates(obj)`: merges into this instance's table and returns the instance. */
    method SetConversionRates(obj: RatesObject) returns (self: Conversion)
      requires Valid()
      modifies conversionRates
      ensures Valid() && self == this
      ensures conversionRates.table == Merge(old(conversionRates.table), obj)
    {
      MergeInto(conversionRates, obj);
      self := this;
    }

    /** `setAmount(amount)`: replaces the amount and returns the instance. */
    method SetAmount(amount: real) returns (self: Conversion)
      modifies this
      ensures self == this && this.amount == amount
      ensures unchanged(conversionRates)
    {
      this.amount := amount;
      self := this;
    }

    /**
     * `to(c, amount = this.amount)`: the amount times the rate of `c`; a currency without a
     * rate leaves the amount as it is (rate 1, no error).
     */
    function To(c: string, amount: Option<real>): (r: real)
      reads this, conversionRates
      ensures c in conversionRates.table.rates ==> r == amount.GetOr(this.amount) * conversionRates.table.rates[c]
      ensures c !in conversionRates.table.rates ==> r == amount.GetOr(this.amount)
    {
      var x := amount.GetOr(this.amount);
      match conversionRates.table.Get(c)
      case Some(rate) => x * rate
      case None => x * 1.0
    }

    /**
     * `from(c, amount = this.amount)`: the amount divided by the rate of `c`. Dividing by a
     * missing rate (`undefined`) or by zero gives no finite number (`None`); otherwise the
     * result is the amount in `c` that the rate turns back into the given amount.
     */
    function From(c: string, amount: Option<real>): (r: Option<real>)
      reads this, conversionRates
      ensures r.Some? <==> c in conversionRates.table.rates && conversionRates.table.rates[c] != 0.0
      ensures r.Some? ==> r.value * conversionRates.table.rates[c] == amount.GetOr(this.amount)
    {
      var x := amount.GetOr(this.amount);
      match conversionRates.table.Get(c)
      case Some(rate) => if rate != 0.0 then Some(x / rate) else None
      case None => None
    }

    /** `toMany(cs, amount)`: an object with exactly the currencies of `cs`, each converted by `to`. */
    function ToMany(cs: seq<string>, amount: Option<real>): (r: map<string, real>)
      reads this, conversionRates
      ensures r.Keys == set c | c in cs
      ensures forall c :: c in r ==> r[c] == To(c, amount)
      decreases |cs|
    {
      if cs == [] then map[]
      else ToMany(cs[..|cs| - 1], amount)[cs[|cs| - 1] := To(cs[|cs| - 1], amount)]
    }

    /** `fromMany(cs, amount)`: an object with exactly the currencies of `cs`, each converted by `from`. */
    function FromMany(cs: seq<string>, amount: Option<real>): (r: map<string, Option<real>>)
      reads this, conversionRates
      ensures r.Keys == set c | c in cs
      ensures forall c :: c in r ==> r[c] == From(c, amount)
      decreases |cs|
    {
      if cs == [] then map[]
      else FromMany(cs[..|cs| - 1], amount)[cs[|cs| - 1] := From(cs[|cs| - 1], amount)]
    }
  }

  /** `from` undoes `to`, and `to` undoes `from`, for every currency with a nonzero rate. */
  lemma ToFromRoundTrip(e: Conversion, c: string, a: real)
    requires c in e.conversionRates.table.rates && e.conversionRates.table.rates[c] != 0.0
    ensures e.From(c, Some(e.To(c, Some(a)))) == Some(a)
    ensures e.From(c, Some(a)).Some? && e.To(c, Some(e.From(c, Some(a)).value)) == a
  {
    var r := e.conversionRates.table.rates[c];
    assert e.To(c, Some(a)) == a * r;
    assert e.From(c, Some(a * r)) == Some((a * r) / r);
    assert (a * r) / r == a;
    assert (a / r) * r == a;
  }

  /**
   * For a currency without a rate the two directions disagree: `to` returns the amount
   * unchanged, `from` gives no finite number.
   */
  lemma UnknownCurrency(e: Conversion, c: string, a: real)
    requires c !in e.conversionRates.table.rates
    ensures e.To(c, Some(a)) == a && e.From(c, Some(a)) == None
  {
  }

  /** `toMany` over three currencies, written out. */
  lemma ToManyOfThree(e: Conversion, x: string, y: string, z: string, amount: Option<real>)
    ensures e.ToMany([x, y, z], amount) == map[x := e.To(x, amount), y := e.To(y, amount), z := e.To(z, amount)]
  {
    var r := e.ToMany([x, y, z], amount);
    assert (set c | c in [x, y, z]) == {x, y, z};
  }

  /** The rates the engine's test expectations imply for 15 PLN: USD 0.275, EUR 0.2347, GBP 0.2031. */
  function TestRates(): RatesObject {
    [("USD", Some(0.275)), ("EUR", Some(0.2347)), ("GBP", Some(0.2031))]
  }

  /** A table built from three distinct keys, written out. */
  lemma TableOfThree(x: string, y: string, z: string, rx: real, ry: real, rz: real)
    requires x != y && y != z && x != z
    ensures Merge(Empty, [(x, Some(rx)), (y, Some(ry)), (z, Some(rz))]).keys == [x, y, z]
    ensures Merge(Empty, [(x, Some(rx)), (y, Some(ry)), (z, Some(rz))]).rates == map[x := rx, y := ry, z := rz]
  {
    var obj: RatesObject := [(x, Some(rx)), (y, Some(ry)), (z, Some(rz))];
    var m := Merge(Empty, obj);
    SnapshotOfMerge(obj);
    MergeOrder(Empty, obj);
    assert m.keys == KeysOf(Snapshot(m)) == KeysOf(obj) == [x, y, z];
    DefinedEntryStored(Empty, obj, 0);
    DefinedEntryStored(Empty, obj, 1);
    DefinedEntryStored(Empty, obj, 2);
  }

  /** The table built from `TestRates()`. */
  lemma TestTable()
    ensures Merge(Empty, TestRates()).keys == ["USD", "EUR", "GBP"]
    ensures Merge(Empty, TestRates()).rates == map["USD" := 0.275, "EUR" := 0.2347, "GBP" := 0.2031]
  {
    TableOfThree("USD", "EUR", "GBP", 0.275, 0.2347, 0.2031);
  }

  /** The test scenario for `to`, `toMany`, `from` and `currencies`. */
  method ConversionScenario() returns (toUsd: real, toMany: map<string, real>, fromUsd: Option<real>, currencies: seq<string>)
    ensures toUsd == 4.125
    ensures toMany == map["USD" := 4.125, "EUR" := 3.5205, "GBP" := 3.0465]
    ensures fromUsd.Some? && fromUsd.value * 0.275 == 15.0
    ensures currencies == ["USD", "EUR", "GBP"]
  {
    var defaults := new DefaultRates();
    var e := new Conversion(15.0, "PLN", Some(TestRates()), defaults);
    TestTable();
    assert e.conversionRates.table.rates == map["USD" := 0.275, "EUR" := 0.2347, "GBP" := 0.2031];
    toUsd := e.To("USD", None);
    toMany := e.ToMany(["USD", "EUR", "GBP"], None);
    ToManyOfThree(e, "USD", "EUR", "GBP", None);
    assert e.To("EUR", None) == 3.5205 && e.To("GBP", None) == 3.0465;
    fromUsd := e.From("USD", None);
    currencies := e.Currencies();
  }

  /** The test scenario for `setAmount(5)` followed by `to("EUR")`. */
  method SetAmountScenario() returns (toEur: real)
    ensures toEur == 1.1735
  {
    var defaults := new DefaultRates();
    var e := new Conversion(15.0, "PLN", Some(TestRates()), defaults);
    TestTable();
    var same := e.SetAmount(5.0);
    toEur := same.To("EUR", None);
  }

  /** The test scenario for constructing from {USD: 111, GBP: 222}. */
  method ExactRatesScenario() returns (rates: RatesObject)
    ensures rates == [("USD", Some(111.0)), ("GBP", Some(222.0))]
  {
    var defaults := new DefaultRates();
    var pair: RatesObject := [("USD", Some(111.0)), ("GBP", Some(222.0))];
    var e := new Conversion(15.0, "PLN", Some(pair), defaults);
    SnapshotOfMerge(pair);
    MergeOrder(Empty, pair);
    rates := e.GetConversionRates();
    SnapshotInjective(Merge(Empty, rates), e.conversionRates.table);
  }
}
