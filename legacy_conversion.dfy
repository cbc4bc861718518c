/**
 * The older conversion engine behind `Exchange` (src/lib/conversion.abstract.ts): an amount,
 * a fixed source currency and a rate table that admits only positive numbers. Its `to`
 * divides by the rate and returns the result formatted with the target currency.
 */
module LegacyConversion {
  import opened Wrappers
  import opened ConversionCore
  import CurrencyValue

  /** The initial value of the static `api` setting. */
  const DefaultApi: string := "https://api.exchangerate-api.com/v4/latest/"

  /** The class-level `api` setting: the endpoint the rates are fetched from. */
  class ApiSetting {
    var api: string

    constructor ()
      ensures api == DefaultApi
    {
      api := DefaultApi;
    }

    /** Static `setApi(api)` */
    method SetApi(api: string)
      modifies this
      ensures this.api == api
    {
      this.api := api;
    }
  }

  /** Every stored rate is above zero. */
  ghost predicate AllPositive(m: map<string, real>) {
    forall c :: c in m ==> m[c] > 0.0
  }

  /**
   * The table after the private `setConversionRates(obj)`: the own keys of `obj` are visited
   * in order and a rate is stored only when it is a number above zero.
   */
  function Admit(m: map<string, real>, obj: RatesObject): (r: map<string, real>)
    ensures forall k :: k in m ==> k in r
    ensures forall k :: k in r ==>
              k in m || exists i :: 0 <= i < |obj| && obj[i].0 == k && obj[i].1.Some? && obj[i].1.value > 0.0
    decreases |obj|
  {
    if obj == [] then m
    else
      var prev := Admit(m, obj[..|obj| - 1]);
      var last := obj[|obj| - 1];
      if last.1.Some? && last.1.value > 0.0 then prev[last.0 := last.1.value] else prev
  }

  /** `obj` with every rate that is not above zero turned into `undefined`. */
  function OnlyPositive(obj: RatesObject): (p: RatesObject)
    ensures |p| == |obj|
    ensures forall i :: 0 <= i < |obj| ==>
              p[i].0 == obj[i].0 && (p[i].1.Some? <==> obj[i].1.Some? && obj[i].1.value > 0.0)
    ensures forall i :: 0 <= i < |obj| && p[i].1.Some? ==> p[i].1 == obj[i].1
  {
    seq(|obj|, i requires 0 <= i < |obj| =>
      (obj[i].0, if obj[i].1.Some? && obj[i].1.value > 0.0 then obj[i].1 else None))
  }

  /** The stricter filter is the general merge applied to the positive rates only. */
  lemma {:induction false} AdmitIsMergeOfPositive(t: RateTable, obj: RatesObject)
    ensures Admit(t.rates, obj) == Merge(t, OnlyPositive(obj)).rates
    decreases |obj|
  {
    if obj != [] {
      var n := |obj| - 1;
      AdmitIsMergeOfPositive(t, obj[..n]);
      assert OnlyPositive(obj)[..n] == OnlyPositive(obj[..n]);
    }
  }

  /** Admitting never brings in a rate that is not above zero. */
  lemma {:induction false} AdmitKeepsPositive(m: map<string, real>, obj: RatesObject)
    requires AllPositive(m)
    ensures AllPositive(Admit(m, obj))
    decreases |obj|
  {
    if obj != [] {
      AdmitKeepsPositive(m, obj[..|obj| - 1]);
    }
  }

  /** A positive rate of an object with distinct keys is stored under its key. */
  lemma PositiveEntryStored(m: map<string, real>, obj: RatesObject, i: int)
    requires DistinctKeys(obj) && 0 <= i < |obj| && obj[i].1.Some? && obj[i].1.value > 0.0
    ensures obj[i].0 in Admit(m, obj) && Admit(m, obj)[obj[i].0] == obj[i].1.value
  {
    var t := RateTable([], m);
    AdmitIsMergeOfPositive(t, obj);
    DefinedEntryStored(t, OnlyPositive(obj), i);
  }

  /**
   * A key whose every entry is `undefined`, zero or negative is skipped: the table neither
   * gains it nor changes its rate.
   */
  lemma NonPositiveSkipped(m: map<string, real>, obj: RatesObject, k: string)
    requires forall i :: 0 <= i < |obj| && obj[i].0 == k ==> obj[i].1.None? || obj[i].1.value <= 0.0
    ensures k in Admit(m, obj) <==> k in m
    ensures k in m ==> Admit(m, obj)[k] == m[k]
  {
    var t := RateTable([], m);
    AdmitIsMergeOfPositive(t, obj);
    UndefinedKeyUntouched(t, OnlyPositive(obj), k);
  }

  class Conversion {
    /** `#amount`, replaced by `setAmount`. */
    var amount: real
    /** `#fromCurrency`, the currency the amount is in. */
    const fromCurrency: string
    /** `#conversionRate`; its key order is never observed. */
    var conversionRate: map<string, real>

    /** Only positive rates are ever stored, so `to` never divides by zero. */
    ghost predicate Valid()
      reads this
    {
      AllPositive(conversionRate)
    }

    /**
     * `new Exchange(amount, fromCurrency, conversionRate?)`: without a rates object the
     * table stays empty.
     */
    constructor (amount: real, fromCurrency: string, rates: Option<RatesObject>)
      ensures Valid()
      ensures this.amount == amount && this.fromCurrency == fromCurrency
      ensures conversionRate == if rates.Some? then Admit(map[], rates.value) else map[]
    {
      this.amount := amount;
      this.fromCurrency := fromCurrency;
      conversionRate := map[];
      new;
      SetConversionRates(rates);
    }

    /**
     * The private `setConversionRates(obj?)`: does nothing unless given an object, and then
     * stores each rate that is a number above zero.
     */
    method SetConversionRates(rates: Option<RatesObject>)
      requires Valid()
      modifies this
      ensures Valid() && amount == old(amount)
      ensures conversionRate == if rates.Some? then Admit(old(conversionRate), rates.value) else old(conversionRate)
    {
      if rates.Some? {
        var obj := rates.value;
        var i := 0;
        while i < |obj|
          invariant 0 <= i <= |obj| && amount == old(amount)
          invariant conversionRate == Admit(old(conversionRate), obj[..i])
          invariant AllPositive(conversionRate)
        {
          var (conversionCurrency, rate) := obj[i];
          assert obj[..i + 1][..i] == obj[..i];
          if rate.Some? && rate.value > 0.0 {
            conversionRate := conversionRate[conversionCurrency := rate.value];
          }
          i := i + 1;
        }
        assert obj[..|obj|] == obj;
      }
    }

    /** `setAmount(amount)`: replaces the amount and returns the instance. */
    method SetAmount(amount: real) returns (self: Conversion)
      requires Valid()
      modifies this
      ensures Valid() && self == this && this.amount == amount
      ensures conversionRate == old(conversionRate)
    {
      this.amount := amount;
      self := this;
    }

    /**
     * The number `to(c)` formats: the amount in `c`, the amount that the rate of `c` turns
     * back into the stored amount; a currency without a rate leaves the amount as it is.
     */
    function ToValue(c: string): (r: real)
      requires Valid()
      reads this
      ensures c in conversionRate ==> r * conversionRate[c] == amount
      ensures c in conversionRate ==> (r > 0.0 <==> amount > 0.0)
      ensures c !in conversionRate ==> r == amount
    {
      if c in conversionRate then amount / conversionRate[c] else amount * 1.0
    }

    /** `to(c)`: that number formatted with the currency `c`, as `CurrencyValue.withCurrency` does. */
    function To(host: CurrencyValue.Host, settings: CurrencyValue.StaticSettings, c: string): (r: string)
      requires Valid()
      reads this
      ensures |c| == 3 ==> r == host.numberFormat(CurrencyValue.FormatRequest(
                 settings.locales, CurrencyValue.CurrencyStyle(c),
                 settings.maximumFractionDigits, settings.minimumFractionDigits), ToValue(c))
      ensures |c| != 3 ==> r == c + " " + host.numberToString(ToValue(c))
    {
      CurrencyValue.WithCurrency(host, settings, CurrencyValue.New(ToValue(c), c, None, settings))
    }
  }

  /**
   * The `Exchange` test scenario: 3500 PLN with {USD: 3.88} gives 3500 / 3.88 dollars,
   * formatted by the host in currency style with the static settings.
   */
  method ExchangeScenario(host: CurrencyValue.Host, hostLanguage: string) returns (usd: string, from: string)
    ensures usd == host.numberFormat(CurrencyValue.FormatRequest(hostLanguage, CurrencyValue.CurrencyStyle("USD"), 2, 2),
                                     3500.0 / 3.88)
    ensures from == "PLN"
  {
    var obj: RatesObject := [("USD", Some(3.88))];
    var exchange := new Conversion(3500.0, "PLN", Some(obj));
    PositiveEntryStored(map[], obj, 0);
    usd := exchange.To(host, CurrencyValue.InitialSettings(hostLanguage), "USD");
    from := exchange.fromCurrency;
  }

  /** `setApi(s)` makes `api` read back `s`; before it, `api` is the default endpoint. */
  method ApiScenario(s: string) returns (before: string, after: string)
    ensures before == DefaultApi && after == s
  {
    var setting := new ApiSetting();
    before := setting.api;
    setting.SetApi(s);
    after := setting.api;
  }
}
