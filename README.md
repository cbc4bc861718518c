# currency — a Dafny model

This project models the core of the `@typescript-package/currency` library:

- **`ConversionCore` / `ConversionBase` / `Conversion`** (`conversion_core.dfy`, `conversion_base.dfy`).
  A conversion engine holds an amount, a base currency and its own `Map` of currency rates.
  - The map is filled from plain rates objects. Every own key whose value is not `undefined` is `set`, in `Object.keys` order.
  - A class-level default map is copied into every engine built without rates.
  - `to` multiplies by the rate and `from` divides by it; `toMany` and `fromMany` apply them to several currencies.
  - `getConversionRates` copies the map back into a plain object.
- **The older `Conversion` engine behind `Exchange`** (`legacy_conversion.dfy`).
  - It admits only rates that are numbers above zero.
  - Its `to` divides the amount by the rate and formats the result with the target currency.
  - Its `api` endpoint is a class-level setting.
- **`CurrencyValue`** (`currency_value.dfy`). A number paired with a currency code and display options.
  - Its static helpers format a value, in decimal or in currency style.
  - `extractCurrencySymbol` strips digits, dots, commas and spaces from a formatted string.
  - Options fall back to the static settings with JavaScript's `||`, so `""` and `0` fall back too.
  - Per-call options override the instance's options by object spread.
- **`Currencies`** (`currencies.dfy`). A `Set` of currency codes with variadic `add`, `delete`, `has` and `clear`.

Modelling choices:

- **Rates and amounts** are `real`.
- **A JavaScript `Map`** is a `RateTable`: its keys in insertion order plus a `map`. The live `Map` object is the class `RateMap`, which engines update in place.
- **The class-level default map** is the object `DefaultRates`. It is handed to the engine's constructor.
- **A plain rates object** is a sequence of (key, rate-or-`undefined`) pairs in `Object.keys` order.
- **A `Set`** is a sequence without repeats, in insertion order.
- **Host services are a `Host` parameter:** `Intl.NumberFormat(...).format` and the conversion of a number to a string. The static `CurrencyValue` settings (`navigator.language`, 2, 2) are a `StaticSettings` parameter.
- **An options property** is missing, present as `undefined`, or present with a value. Object spread tells the first two apart.
- **`from`** in the newer engine returns `None` where JavaScript divides by a missing or zero rate and gets `NaN` or an infinity.

## Model

| member | source | states |
|---|---|---|
| ConversionCore.Snapshot | src/lib/conversion-core.abstract.ts:129-134 | the copied object lists the map's keys in insertion order, each with the rate the map holds for it |
| ConversionCore.SetValid | src/lib/conversion-core.abstract.ts:150-154 | `Map.set` keeps every key listed once and the listing in step with the stored rates |
| ConversionCore.Merge | src/lib/conversion-core.abstract.ts:150-154 | merging never moves or drops a key already listed, and adds at most one key per entry of the object |
| ConversionCore.MergeGet | src/lib/conversion-core.abstract.ts:150-154 | after `setConversionRates(obj)`, a key's rate is the last defined value `obj` gives it, and otherwise its previous rate or absence |
| ConversionCore.DefinedEntryStored | src/lib/conversion-core.abstract.ts:150-154 | every defined value of the object ends up stored under its key, whatever its sign |
| ConversionCore.UndefinedKeyUntouched | src/lib/conversion-core.abstract.ts:150-154 | a key whose value is `undefined` is skipped: the map neither gains it nor changes it |
| ConversionCore.MergeOrder | src/lib/conversion-core.abstract.ts:150-154 | merging keeps the map well formed, and the keys it adds after the old ones were not there before |
| ConversionCore.SnapshotOfMerge | src/lib/conversion-core.abstract.ts:129-134 | a map built from an object without `undefined` values copies back to exactly that object |
| ConversionCore.SnapshotInjective | src/lib/conversion-core.abstract.ts:129-134 | two maps with the same copy are the same map, order included |
| ConversionCore.CopyOfSnapshot | src/lib/conversion-core.abstract.ts:111-113 | building a map from a map's copy reproduces the map, so an engine built from the default copy has the default map |
| ConversionCore.RateMap.constructor | src/lib/conversion-core.abstract.ts:104 | an engine's map starts empty |
| ConversionCore.RateMap.Set | src/lib/conversion-core.abstract.ts:151-152 | `set` updates the map in place, as `Map.set` does, and keeps it well formed |
| ConversionCore.MergeInto | src/lib/conversion-core.abstract.ts:150-154 | the `forEach` loop leaves the map equal to the merge of its old content with the object |
| ConversionCore.DefaultRates.constructor | src/lib/conversion-core.abstract.ts:64 | the shared default map starts empty |
| ConversionCore.DefaultRates.GetConversionRates | src/lib/conversion-core.abstract.ts:35-41 | the static copy lists the default map's keys in insertion order, and the default map can be rebuilt from it exactly |
| ConversionCore.DefaultRates.SetConversionRates | src/lib/conversion-core.abstract.ts:52-57 | the static setter merges the object into the shared map and returns the class |
| ConversionBase.Conversion.constructor | src/lib/conversion-base.abstract.ts:62-70 | a new engine has the given amount and currency and a fresh map: built from the given object, or equal to the default map when the object is omitted |
| ConversionBase.Conversion.Currencies | src/lib/conversion-base.abstract.ts:31-33 | lists each currency that has a rate exactly once, and nothing else |
| ConversionBase.Conversion.GetConversionRates | src/lib/conversion-core.abstract.ts:129-134 | the copy rebuilds the engine's map, and its keys are the `currencies` getter's list |
| ConversionBase.Conversion.SetConversionRates | src/lib/conversion-core.abstract.ts:150-154 | merges the object into the engine's own map and returns the engine |
| ConversionBase.Conversion.SetAmount | src/lib/conversion-base.abstract.ts:109-112 | replaces the amount, leaves the map alone and returns the engine |
| ConversionBase.Conversion.To | src/lib/conversion-base.abstract.ts:117-127 | the amount (given, or the engine's) times the currency's rate; for a currency without a rate, the amount itself |
| ConversionBase.Conversion.From | src/lib/conversion-base.abstract.ts:75-83 | a finite result exactly when the currency has a nonzero rate; that result times the rate gives back the amount |
| ConversionBase.Conversion.ToMany | src/lib/conversion-base.abstract.ts:136-144 | an object with exactly the listed currencies, each mapped to what `to` gives |
| ConversionBase.Conversion.FromMany | src/lib/conversion-base.abstract.ts:93-101 | an object with exactly the listed currencies, each mapped to what `from` gives |
| ConversionBase.ToFromRoundTrip | src/lib/conversion-base.abstract.ts:75-83 | for a currency with a nonzero rate, `from` undoes `to`, and `from` gives a number that `to` turns back into the amount |
| ConversionBase.UnknownCurrency | src/lib/conversion-base.abstract.ts:117-127 | for a currency without a rate, `to` keeps the amount and `from` gives no finite number |
| ConversionBase.ToManyOfThree | src/lib/conversion-base.abstract.ts:136-144 | `toMany` over three currencies is the object of their three `to` results |
| ConversionBase.TableOfThree | src/lib/conversion-core.abstract.ts:150-154 | an object with three distinct, defined keys builds a map of exactly those keys, in that order, with their rates |
| ConversionBase.TestTable | src/test/conversion.spec.ts:14-16 | the reconstructed test object (see `ConversionScenario`) builds a map whose keys are its keys, in order, with its rates |
| ConversionBase.ConversionScenario | src/test/conversion.spec.ts:20-31 | for 15 PLN: `to('USD')` is 4.125, `toMany` gives 4.125 / 3.5205 / 3.0465, and `from('USD')` times 0.275 is 15. The rates USD 0.275, EUR 0.2347 and GBP 0.2031 are worked back from these expected results, because the test's rates file is not part of this model; the currency list USD, EUR, GBP is a property of that reconstruction |
| ConversionBase.SetAmountScenario | src/lib/conversion-base.abstract.ts:109-127 | `setAmount(5)` then `to('EUR')` gives 5 times the EUR rate |
| ConversionBase.ExactRatesScenario | src/test/conversion.spec.ts:40-42 | an engine built from {USD: 111, GBP: 222} copies back exactly that object |
| CurrencyValue.ExtractCurrencySymbol | src/lib/currency-value.class.ts:138-140 | no digit, dot, comma or space remains, and the result is no longer than the input |
| CurrencyValue.ExtractCounts | src/lib/currency-value.class.ts:138-140 | every other character is kept exactly as many times as it occurs |
| CurrencyValue.ExtractAppend | src/lib/currency-value.class.ts:138-140 | extraction works piecewise over concatenation, so the kept characters keep their order |
| CurrencyValue.ExtractClean | src/lib/currency-value.class.ts:138-140 | a string with nothing to strip is returned unchanged |
| CurrencyValue.ExtractIdempotent | src/lib/currency-value.class.ts:138-140 | extracting twice is extracting once |
| CurrencyValue.ExtractDollar | src/test/currency-value.spec.ts:15 | the symbol of "$42,345,255.36" is "$" |
| CurrencyValue.FalsyOptionsFallBack | src/lib/currency-value.class.ts:145-155 | options that read as `undefined`, "" or 0 make the formatter use the static locale and digit counts |
| CurrencyValue.TruthyOptionsWin | src/lib/currency-value.class.ts:145-155 | options that read as truthy values are the ones the formatter is given |
| CurrencyValue.Format | src/lib/currency-value.class.ts:145-155 | decimal host formatting; each option present with a truthy value is passed on, and any other falls back to its static setting |
| CurrencyValue.FormatAsCurrency | src/lib/currency-value.class.ts:189-205 | a three-character code gives currency-style host formatting with the fallen-back options; any other code gives "code value" |
| CurrencyValue.PlainFallbackIgnoresOptions | src/lib/currency-value.class.ts:204 | the "code value" fallback depends on neither the options nor the static settings |
| CurrencyValue.SymbolOfPlainText | src/lib/currency-value.class.ts:138-140 | the symbol of "code value" is the code's symbol followed by the value text's symbol |
| CurrencyValue.New | src/lib/currency-value.class.ts:238-253 | keeps the value and code; without options there is no locale and the digits are the static ones; with options the locale is the option's (possibly `undefined`), and each digit count is the option's when it is a number and the static one otherwise |
| CurrencyValue.ResolvedOptions | src/lib/currency-value.class.ts:67-73 | all three keys are present, the locale possibly as `undefined`, and they read back the stored locale and digit counts |
| CurrencyValue.FractionDigits | src/lib/currency-value.class.ts:47-55 | the maximum and minimum that `resolvedOptions` reports |
| CurrencyValue.ResolvedOptionsRoundTrip | src/lib/currency-value.class.ts:67-73 | building a value from another value's `resolvedOptions` reproduces it under any static settings |
| CurrencyValue.SpreadLaws | src/lib/currency-value.class.ts:278-281 | spreading `{}` on either side changes nothing, and spreading is associative |
| CurrencyValue.GetValueAsCurrency | src/lib/currency-value.class.ts:261-266 | without per-call options, a three-character code formats with the instance's options falling back to the static settings; any other code gives "code value" |
| CurrencyValue.PerCallOptionsOverride | src/lib/currency-value.class.ts:274-282 | in `getValueAsCurrency`, for each of the three keys: a per-call value wins, a missing key keeps the instance's value, and a key present as `undefined` falls to the static setting |
| CurrencyValue.WithCurrency | src/lib/currency-value.class.ts:108-110 | formats in the value's own code with its options falling back to the static settings of the moment; a code that is not three characters long gives "code value" |
| CurrencyValue.WithCurrencyUsesSettings | src/lib/currency-value.class.ts:108-110 | a value without a locale and with 0 digit counts formats exactly as the static settings say, because `undefined` and 0 are falsy |
| CurrencyValue.Formatted | src/lib/currency-value.class.ts:78-80 | decimal host formatting with the value's options falling back to the static settings |
| CurrencyValue.CurrencySymbol | src/lib/currency-value.class.ts:40-42 | no digit, dot, comma or space remains; for a code that is not three characters long, it is the stripped code followed by the stripped value text |
| LegacyConversion.ApiSetting.constructor | src/lib/conversion.abstract.ts:61 | the endpoint starts as the exchangerate-api URL |
| LegacyConversion.ApiSetting.SetApi | src/lib/conversion.abstract.ts:32-34 | `setApi` replaces the endpoint |
| LegacyConversion.ApiScenario | src/lib/conversion.abstract.ts:22-34 | `api` reads the default endpoint, then whatever `setApi` stored |
| LegacyConversion.Admit | src/lib/conversion.abstract.ts:184-196 | keeps every key already stored, and adds only keys that the object gives a number above zero |
| LegacyConversion.AdmitIsMergeOfPositive | src/lib/conversion.abstract.ts:184-196 | the stricter loop is the general merge applied to the positive rates only |
| LegacyConversion.AdmitKeepsPositive | src/lib/conversion.abstract.ts:184-196 | only rates above zero are ever stored |
| LegacyConversion.PositiveEntryStored | src/lib/conversion.abstract.ts:184-196 | a positive rate is stored under its key |
| LegacyConversion.NonPositiveSkipped | src/lib/conversion.abstract.ts:184-196 | a key whose values are all `undefined`, zero or negative is neither added nor changed |
| LegacyConversion.Conversion.constructor | src/lib/conversion.abstract.ts:88-96 | keeps the amount and source currency; the map admits the positive rates of the object, and stays empty without one |
| LegacyConversion.Conversion.SetConversionRates | src/lib/conversion.abstract.ts:184-196 | does nothing without an object, and otherwise stores each rate above zero, in key order |
| LegacyConversion.Conversion.SetAmount | src/lib/conversion.abstract.ts:104-107 | replaces the amount, keeps the rates and returns the instance |
| LegacyConversion.Conversion.ToValue | src/lib/conversion.abstract.ts:115-127 | the number that the rate turns back into the amount, with the amount's sign; for a currency without a rate, the amount |
| LegacyConversion.Conversion.To | src/lib/conversion.abstract.ts:115-127 | that number formatted in the target currency with the static settings, or as "code value" for a code that is not three characters long |
| LegacyConversion.ExchangeScenario | src/test/exchange.spec.ts:8-10 | 3500 PLN with {USD: 3.88}: `to('USD')` formats 3500 / 3.88 in dollars with the static settings, and `fromCurrency` is PLN |
| Currencies.AddAll | src/lib/currencies.class.ts:40-43 | after `add(...cs)` the members are exactly the old ones and the codes of `cs` |
| Currencies.DeleteAll | src/lib/currencies.class.ts:61-64 | after `delete(...cs)` the members are exactly the old ones that are not in `cs` |
| Currencies.Without | src/lib/currencies.class.ts:61-64 | the result holds exactly the members not deleted |
| Currencies.WithoutDistinct | src/lib/currencies.class.ts:61-64 | deleting keeps the members listed once each |
| Currencies.WithoutWithout | src/lib/currencies.class.ts:61-64 | deleting one group of codes and then another is deleting both at once |
| Currencies.WithoutNothing | src/lib/currencies.class.ts:61-64 | deleting no codes changes nothing |
| Currencies.DeleteAllIsWithout | src/lib/currencies.class.ts:61-64 | `delete(...cs)` removes exactly the codes of `cs` and keeps the other members in order |
| Currencies.AddAllSpec | src/lib/currencies.class.ts:40-43 | after `add(...cs)` each member is listed once, and the old members come first and keep their places |
| Currencies.AddAllOrder | src/lib/currencies.class.ts:40-43 | the codes `add` brings in are listed in the order of their first occurrence in `cs` |
| Currencies.AddPresent | src/lib/currencies.class.ts:40-43 | adding codes that are all present already changes nothing |
| Currencies.AddIdempotent | src/lib/currencies.class.ts:40-43 | `add(...cs)` twice is `add(...cs)` once |
| Currencies.Currencies.constructor | src/lib/currencies.class.ts:30-32 | a new set holds the given codes, as `add` would insert them into an empty set |
| Currencies.Currencies.Add | src/lib/currencies.class.ts:40-43 | inserts each code in turn, keeps the members listed once each, and returns the instance |
| Currencies.Currencies.Clear | src/lib/currencies.class.ts:50-53 | leaves no members and returns the instance |
| Currencies.Currencies.Delete | src/lib/currencies.class.ts:61-64 | deletes each code in turn, keeps the members listed once each, and returns the instance |
| Currencies.Currencies.Has | src/lib/currencies.class.ts:81-83 | true exactly when every given code is a member, so true for no codes at all |
| Currencies.Currencies.GetCurrencies | src/lib/currencies.class.ts:71-73 | the members in insertion order, each listed once; a code is listed exactly when `has` says so |
| Currencies.CurrenciesScenario | src/test/currencies.spec.ts:11 | `new Currencies('USD', 'INCH')` lists both codes; re-adding USD changes nothing; deleting INCH leaves USD; `clear` leaves nothing |

## Left out

- **`Intl.NumberFormat`, the conversion of a number to a string, and `navigator.language`** belong to the host. They are the `Host` and `StaticSettings` parameters, so no formatted string is computed. The expected "$902.06" of the `Exchange` example is therefore stated as the host's currency-style formatting of 3500 / 3.88.
- **Floating point:** amounts and rates are exact reals. The test expectations 3.5204999999999997 and 54.54545454545454 are rounded IEEE results; the model states 3.5205 and "`from('USD')` times 0.275 is 15". `NaN`, infinite rates and `replaceNaN` (which maps `NaN` to 0 before formatting) are not modelled.
- **ConversionBase.Conversion.From** returns `None` where JavaScript returns `NaN` or an infinity: for a missing rate, or a zero rate.
- **`formatToNumber`** is not modelled, because its separators come from `Intl`, and so does the parsing with regular expressions and `parseFloat`.
- **`getCurrencySymbol`** is a stub that always returns `undefined`. It is not modelled.
- **ConversionBase.Conversion.ToMany, ConversionBase.Conversion.FromMany:** they return a `map`, so the key order of the object that `reduce` builds (first occurrence in the list) is not kept.
- **`api` and `setApi` through `Exchange`:** they read and write the private static `#api` through `this`. Called on the exported subclass `Exchange`, `this` is a class that has no `#api` slot, so by the language's rules they would throw a TypeError. `ApiSetting` models only calls on the declaring class.
- **The legacy engine's `toMany` and private `fetch`** are not modelled: they fetch rates over the network and call back asynchronously.
- **In the legacy engine's `to`, the branch that formats 1** cannot be reached, because only numbers are stored. `ToValue` keeps only the division.
- **`typeof` checks on non-number rates** are not modelled: rates are typed `real` or `undefined`. A non-number rate, which the newer engine would store and the legacy engine would skip, is not representable.
- **`Object.keys` order:** JavaScript lists integer-like keys first. The model takes the object's entries in the order given.
- **The getters that return the live map or set** (`conversionRates`, static `conversionRates`, `codes`) are the model's fields. Changes that callers make through those references are not modelled.
- **The `Number` base class of `CurrencyValue`:** its range and comparison methods are not modelled. `of` is the stored value.
- **`null` options:** `format`, `formatAsCurrency` and the spread in `getValueAsCurrency` accept `null`, which reads like no options and the model treats it so. The constructor throws on `null` options (`typeof null` is `'object'`, and `options.maximumFractionDigits` is then read without `?.`); that throw is not modelled.
- **`Intl` RangeErrors:** `Intl.NumberFormat` throws on a digit count it rejects and on a three-character code that is not three ASCII letters (such as "US$"). Such a code raises an error instead of falling back to "code value". Neither error is modelled; `FormatAsCurrency` hands every three-character code to the host.
- **Code length:** `currency.length` counts UTF-16 code units, while the model's `|currency|` counts characters. A code with characters outside the Basic Multilingual Plane can be dispatched differently.
- **`typeof` argument checks:** the `typeof currency === 'string'` test of `formatAsCurrency`, and the `typeof options === 'object'` test of the constructor for non-object options, are covered by Dafny's types.
