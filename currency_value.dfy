/**
 * A numeric value paired with a currency code and display options, and the static helpers
 * that format values and pull the currency symbol out of a formatted string
 * (src/lib/currency-value.class.ts). Locale-aware number formatting and the conversion of a
 * number to a string belong to the host and are given as a `Host`.
 */
module CurrencyValue {
  import opened Wrappers

  /**
   * One property of an options object: missing, present with the value `undefined`, or
   * present with a value. Object spread copies a property that is present with `undefined`.
   */
  datatype Prop<T> = Absent | Undefined | Defined(value: T) {

    /** Reading the property: missing and `undefined` both read as `undefined`. */
    function Read(): Option<T> {
      if Defined? then Some(value) else None
    }
  }

  /** `CurrencyValueOptions`: `{ locales?, maximumFractionDigits?, minimumFractionDigits? }`. */
  datatype Options = Options(locales: Prop<string>, maximumFractionDigits: Prop<int>, minimumFractionDigits: Prop<int>)

  /** `{}` */
  const NoOptions := Options(Absent, Absent, Absent)

  /**
   * The class's static fields `locales`, `maximumFractionDigits` and `minimumFractionDigits`,
   * as they stand when an instance is built or a value is formatted.
   */
  datatype StaticSettings = StaticSettings(locales: string, maximumFractionDigits: int, minimumFractionDigits: int)

  /** The static fields as the class initialises them: the host's language and 2/2 digits. */
  function InitialSettings(hostLanguage: string): StaticSettings {
    StaticSettings(hostLanguage, 2, 2)
  }

  /** Decimal formatting, or currency formatting with the currency's symbol. */
  datatype Style = DecimalStyle | CurrencyStyle(currency: string)

  /** What `Intl.NumberFormat` is constructed with. */
  datatype FormatRequest = FormatRequest(locales: string, style: Style, maximumFractionDigits: int, minimumFractionDigits: int)

  /** The host's `Intl.NumberFormat(...).format` and its conversion of a number to a string. */
  datatype Host = Host(numberFormat: (FormatRequest, real) -> string, numberToString: real -> string)

  /** The private state of an instance: `of` is the value the number base class holds. */
  datatype CurrencyValue = CurrencyValue(of: real, currency: string, locales: Option<string>,
                                         maximumFractionDigits: int, minimumFractionDigits: int)

  /** A character that `extractCurrencySymbol` removes: an ASCII digit, '.', ',' or a space. */
  predicate IsStripped(ch: char) {
    ('0' <= ch <= '9') || ch == '.' || ch == ',' || ch == ' '
  }

  /**
   * `extractCurrencySymbol(s)`: `s` without its digits, dots, commas and spaces; no removed
   * character is left and the rest keep their order (`ExtractAppend`, `ExtractCounts`).
   */
  function ExtractCurrencySymbol(s: string): (r: string)
    ensures forall i :: 0 <= i < |r| ==> !IsStripped(r[i])
    ensures |r| <= |s|
    decreases |s|
  {
    if s == [] then []
    else if IsStripped(s[0]) then ExtractCurrencySymbol(s[1..])
    else [s[0]] + ExtractCurrencySymbol(s[1..])
  }

  /** Every character that is not removed occurs in the symbol exactly as often as in `s`. */
  lemma {:induction false} ExtractCounts(s: string, ch: char)
    requires !IsStripped(ch)
    ensures multiset(ExtractCurrencySymbol(s))[ch] == multiset(s)[ch]
    decreases |s|
  {
    if s != [] {
      ExtractCounts(s[1..], ch);
      assert s == [s[0]] + s[1..];
      assert multiset(s) == multiset([s[0]]) + multiset(s[1..]);
      if !IsStripped(s[0]) {
        var r := ExtractCurrencySymbol(s[1..]);
        assert multiset([s[0]] + r) == multiset([s[0]]) + multiset(r);
      }
    }
  }

  /** Extraction works piece by piece, keeping the order of what it keeps. */
  lemma {:induction false} ExtractAppend(a: string, b: string)
    ensures ExtractCurrencySymbol(a + b) == ExtractCurrencySymbol(a) + ExtractCurrencySymbol(b)
    decreases |a|
  {
    if a == [] {
      assert a + b == b;
    } else {
      assert (a + b)[0] == a[0];
      assert (a + b)[1..] == a[1..] + b;
      ExtractAppend(a[1..], b);
      if !IsStripped(a[0]) {
        assert [a[0]] + (ExtractCurrencySymbol(a[1..]) + ExtractCurrencySymbol(b)) ==
               ([a[0]] + ExtractCurrencySymbol(a[1..])) + ExtractCurrencySymbol(b);
      }
    }
  }

  /** A string with nothing to remove is its own symbol. */
  lemma {:induction false} ExtractClean(s: string)
    requires forall i :: 0 <= i < |s| ==> !IsStripped(s[i])
    ensures ExtractCurrencySymbol(s) == s
    decreases |s|
  {
    if s != [] {
      ExtractClean(s[1..]);
    }
  }

  /** Extracting twice gives what extracting once gives. */
  lemma ExtractIdempotent(s: string)
    ensures ExtractCurrencySymbol(ExtractCurrencySymbol(s)) == ExtractCurrencySymbol(s)
  {
    ExtractClean(ExtractCurrencySymbol(s));
  }

  /** The symbol of an en-US dollar amount, as the value's example shows. */
  lemma ExtractDollar()
    ensures ExtractCurrencySymbol("$42,345,255.36") == "$"
  {
    ExtractAppend("$", "42,345,255.36");
  }

  /** `options?.locales`, `options?.maximumFractionDigits`, `options?.minimumFractionDigits`. */
  function LocalesOf(options: Option<Options>): Option<string> {
    if options.Some? then options.value.locales.Read() else None
  }

  function MaximumOf(options: Option<Options>): Option<int> {
    if options.Some? then options.value.maximumFractionDigits.Read() else None
  }

  function MinimumOf(options: Option<Options>): Option<int> {
    if options.Some? then options.value.minimumFractionDigits.Read() else None
  }

  /** `x || fallback` for a string: `undefined` and "" are falsy. */
  function OrString(x: Option<string>, fallback: string): string {
    if x.Some? && x.value != "" then x.value else fallback
  }

  /** `x || fallback` for a number: `undefined` and 0 are falsy. */
  function OrNumber(x: Option<int>, fallback: int): int {
    if x.Some? && x.value != 0 then x.value else fallback
  }

  /** The `Intl.NumberFormat` arguments of `format` and `formatAsCurrency`. */
  function Request(options: Option<Options>, style: Style, settings: StaticSettings): FormatRequest {
    FormatRequest(OrString(LocalesOf(options), settings.locales), style,
                  OrNumber(MaximumOf(options), settings.maximumFractionDigits),
                  OrNumber(MinimumOf(options), settings.minimumFractionDigits))
  }

  /** Every option that reads as a falsy value (`undefined`, "" or 0) is as good as no option. */
  lemma FalsyOptionsFallBack(options: Options, style: Style, settings: StaticSettings)
    requires LocalesOf(Some(options)) in {None, Some("")}
    requires MaximumOf(Some(options)) in {None, Some(0)}
    requires MinimumOf(Some(options)) in {None, Some(0)}
    ensures Request(Some(options), style, settings) == Request(None, style, settings)
    ensures Request(None, style, settings) ==
            FormatRequest(settings.locales, style, settings.maximumFractionDigits, settings.minimumFractionDigits)
  {
  }

  /** Options that read as truthy values are the ones the formatter gets. */
  lemma TruthyOptionsWin(locales: string, maximum: int, minimum: int, style: Style, settings: StaticSettings)
    requires locales != "" && maximum != 0 && minimum != 0
    ensures Request(Some(Options(Defined(locales), Defined(maximum), Defined(minimum))), style, settings) ==
            FormatRequest(locales, style, maximum, minimum)
  {
  }

  /**
   * `format(value, options)`: decimal formatting; each option that is present with a truthy
   * value is passed on, any other falls back to its static setting.
   */
  function Format(host: Host, settings: StaticSettings, value: real, options: Option<Options>): (r: string)
    ensures options.None? ==>
              r == host.numberFormat(FormatRequest(settings.locales, DecimalStyle,
                                                   settings.maximumFractionDigits, settings.minimumFractionDigits), value)
    ensures options.Some? ==>
              var o := options.value;
              r == host.numberFormat(FormatRequest(
                     if o.locales.Defined? && o.locales.value != "" then o.locales.value else settings.locales,
                     DecimalStyle,
                     if o.maximumFractionDigits.Defined? && o.maximumFractionDigits.value != 0
                     then o.maximumFractionDigits.value else settings.maximumFractionDigits,
                     if o.minimumFractionDigits.Defined? && o.minimumFractionDigits.value != 0
                     then o.minimumFractionDigits.value else settings.minimumFractionDigits), value)
  {
    host.numberFormat(Request(options, DecimalStyle, settings), value)
  }

  /**
   * `formatAsCurrency(value, currency, options)`: currency formatting when the code has
   * exactly three characters, otherwise the code, a space and the value as a string.
   */
  function FormatAsCurrency(host: Host, settings: StaticSettings, value: real, currency: string,
                            options: Option<Options>): (r: string)
    ensures |currency| == 3 ==>
              r == host.numberFormat(Request(options, CurrencyStyle(currency), settings), value)
    ensures |currency| != 3 ==> r == currency + " " + host.numberToString(value)
  {
    if |currency| == 3 then host.numberFormat(Request(options, CurrencyStyle(currency), settings), value)
    else currency + " " + host.numberToString(value)
  }

  /** The plain fallback for a code that is not three characters long ignores every option. */
  lemma PlainFallbackIgnoresOptions(host: Host, s1: StaticSettings, s2: StaticSettings, value: real,
                                    currency: string, o1: Option<Options>, o2: Option<Options>)
    requires |currency| != 3
    ensures FormatAsCurrency(host, s1, value, currency, o1) == FormatAsCurrency(host, s2, value, currency, o2)
  {
  }

  /** The symbol extracted from "code value" is the code's and the value text's symbols together. */
  lemma {:induction false} SymbolOfPlainText(currency: string, text: string)
    ensures ExtractCurrencySymbol((currency + " ") + text) ==
            ExtractCurrencySymbol(currency) + ExtractCurrencySymbol(text)
  {
    ExtractAppend(currency + " ", text);
    ExtractAppend(currency, " ");
    assert ExtractCurrencySymbol(" ") == [];
  }

  /**
   * `new CurrencyValue(value, currency, options?)`: with an options object the locale is
   * taken from it as it is (possibly `undefined`), and each fraction-digit count only when
   * it is a number; otherwise the static settings of the moment apply.
   */
  function New(value: real, currency: string, options: Option<Options>, settings: StaticSettings): (cv: CurrencyValue)
    ensures cv.of == value && cv.currency == currency
    ensures options.None? ==> cv.locales == None
    ensures options.None? || !options.value.maximumFractionDigits.Defined? ==>
              cv.maximumFractionDigits == settings.maximumFractionDigits
    ensures options.None? || !options.value.minimumFractionDigits.Defined? ==>
              cv.minimumFractionDigits == settings.minimumFractionDigits
    ensures options.Some? ==> cv.locales == options.value.locales.Read()
    ensures options.Some? && options.value.maximumFractionDigits.Defined? ==>
              cv.maximumFractionDigits == options.value.maximumFractionDigits.value
    ensures options.Some? && options.value.minimumFractionDigits.Defined? ==>
              cv.minimumFractionDigits == options.value.minimumFractionDigits.value
  {
    match options
    case None =>
      CurrencyValue(value, currency, None, settings.maximumFractionDigits, settings.minimumFractionDigits)
    case Some(o) =>
      CurrencyValue(value, currency, o.locales.Read(),
                    if o.maximumFractionDigits.Defined? then o.maximumFractionDigits.value
                    else settings.maximumFractionDigits,
                    if o.minimumFractionDigits.Defined? then o.minimumFractionDigits.value
                    else settings.minimumFractionDigits)
  }

  /**
   * The `resolvedOptions` getter: all three keys are present (the locale possibly as
   * `undefined`) and read back the stored locale and fraction digits.
   */
  function ResolvedOptions(cv: CurrencyValue): (o: Options)
    ensures !o.locales.Absent? && o.maximumFractionDigits.Defined? && o.minimumFractionDigits.Defined?
    ensures o.locales.Read() == cv.locales
    ensures o.maximumFractionDigits.value == cv.maximumFractionDigits
    ensures o.minimumFractionDigits.value == cv.minimumFractionDigits
  {
    Options(if cv.locales.Some? then Defined(cv.locales.value) else Undefined,
            Defined(cv.maximumFractionDigits), Defined(cv.minimumFractionDigits))
  }

  /** The `fractionDigits` getter: `{ maximum, minimum }`, the digit counts `resolvedOptions` reports. */
  function FractionDigits(cv: CurrencyValue): (digits: (int, int))
    ensures digits == (ResolvedOptions(cv).maximumFractionDigits.value, ResolvedOptions(cv).minimumFractionDigits.value)
  {
    (cv.maximumFractionDigits, cv.minimumFractionDigits)
  }

  /**
   * Building a value from another value's resolved options reproduces it, whatever the static
   * settings: the getter mirrors the stored fields exactly.
   */
  lemma ResolvedOptionsRoundTrip(cv: CurrencyValue, settings: StaticSettings)
    ensures New(cv.of, cv.currency, Some(ResolvedOptions(cv)), settings) == cv
  {
  }

  /** Object spread `{ ...base, ...over }`: a property present in `over` wins, even when `undefined`. */
  function Spread(base: Options, over: Options): Options {
    Options(if over.locales.Absent? then base.locales else over.locales,
            if over.maximumFractionDigits.Absent? then base.maximumFractionDigits else over.maximumFractionDigits,
            if over.minimumFractionDigits.Absent? then base.minimumFractionDigits else over.minimumFractionDigits)
  }

  /** Spreading `{}` on either side changes nothing, and spreading is associative. */
  lemma SpreadLaws(a: Options, b: Options, c: Options)
    ensures Spread(a, NoOptions) == a && Spread(NoOptions, a) == a
    ensures Spread(Spread(a, b), c) == Spread(a, Spread(b, c))
  {
  }

  /**
   * `getValueAsCurrency(currency, options?)`: `formatAsCurrency` of the value with the
   * instance's resolved options overridden, key by key, by the per-call options.
   */
  function GetValueAsCurrency(host: Host, settings: StaticSettings, cv: CurrencyValue, currency: string,
                              options: Option<Options>): (r: string)
    ensures |currency| != 3 ==> r == currency + " " + host.numberToString(cv.of)
    ensures |currency| == 3 && options.None? ==>
              r == host.numberFormat(FormatRequest(OrString(cv.locales, settings.locales), CurrencyStyle(currency),
                                                   OrNumber(Some(cv.maximumFractionDigits), settings.maximumFractionDigits),
                                                   OrNumber(Some(cv.minimumFractionDigits), settings.minimumFractionDigits)),
                                     cv.of)
  {
    SpreadLaws(ResolvedOptions(cv), NoOptions, NoOptions);
    FormatAsCurrency(host, settings, cv.of, currency, Some(Spread(ResolvedOptions(cv), options.GetOr(NoOptions))))
  }

  /**
   * Per-call options override the instance's: a present key wins, a missing key keeps the
   * instance's value, and a key present as `undefined` drops to the static setting even when
   * the instance has a locale of its own.
   */
  lemma PerCallOptionsOverride(host: Host, settings: StaticSettings, cv: CurrencyValue, currency: string, o: Options)
    requires |currency| == 3
    ensures var request := Request(Some(Spread(ResolvedOptions(cv), o)), CurrencyStyle(currency), settings);
      && GetValueAsCurrency(host, settings, cv, currency, Some(o)) == host.numberFormat(request, cv.of)
      && request.locales == (match o.locales
                             case Absent => OrString(cv.locales, settings.locales)
                             case Undefined => settings.locales
                             case Defined(l) => OrString(Some(l), settings.locales))
      && request.maximumFractionDigits == (match o.maximumFractionDigits
                                           case Absent => OrNumber(Some(cv.maximumFractionDigits), settings.maximumFractionDigits)
                                           case Undefined => settings.maximumFractionDigits
                                           case Defined(n) => OrNumber(Some(n), settings.maximumFractionDigits))
      && request.minimumFractionDigits == (match o.minimumFractionDigits
                                           case Absent => OrNumber(Some(cv.minimumFractionDigits), settings.minimumFractionDigits)
                                           case Undefined => settings.minimumFractionDigits
                                           case Defined(n) => OrNumber(Some(n), settings.minimumFractionDigits))
  {
  }

  /**
   * The `withCurrency` getter: the value formatted in its own currency with its own options
   * falling back to the static settings of the moment of formatting, or "code value" for a
   * code that is not three characters long.
   */
  function WithCurrency(host: Host, settings: StaticSettings, cv: CurrencyValue): (r: string)
    ensures |cv.currency| == 3 ==>
              r == host.numberFormat(FormatRequest(OrString(cv.locales, settings.locales), CurrencyStyle(cv.currency),
                                                   OrNumber(Some(cv.maximumFractionDigits), settings.maximumFractionDigits),
                                                   OrNumber(Some(cv.minimumFractionDigits), settings.minimumFractionDigits)),
                                     cv.of)
    ensures |cv.currency| != 3 ==> r == cv.currency + " " + host.numberToString(cv.of)
  {
    GetValueAsCurrency(host, settings, cv, cv.currency, None)
  }

  /** The `formatted` getter: decimal formatting with the instance's options falling back to the static settings. */
  function Formatted(host: Host, settings: StaticSettings, cv: CurrencyValue): (r: string)
    ensures r == host.numberFormat(FormatRequest(OrString(cv.locales, settings.locales), DecimalStyle,
                                                 OrNumber(Some(cv.maximumFractionDigits), settings.maximumFractionDigits),
                                                 OrNumber(Some(cv.minimumFractionDigits), settings.minimumFractionDigits)),
                                   cv.of)
  {
    Format(host, settings, cv.of, Some(ResolvedOptions(cv)))
  }

  /**
   * The `currencySymbol` getter: `withCurrency` stripped of digits, dots, commas and spaces;
   * for a code that is not three characters long, the stripped code followed by the stripped
   * value text.
   */
  function CurrencySymbol(host: Host, settings: StaticSettings, cv: CurrencyValue): (r: string)
    ensures forall i :: 0 <= i < |r| ==> !IsStripped(r[i])
    ensures |cv.currency| != 3 ==>
              r == ExtractCurrencySymbol(cv.currency) + ExtractCurrencySymbol(host.numberToString(cv.of))
  {
    SymbolOfPlainText(cv.currency, host.numberToString(cv.of));
    ExtractCurrencySymbol(WithCurrency(host, settings, cv))
  }

  /**
   * A value built with 0 fraction digits, or without a locale, formats with the static
   * settings of the moment of formatting, because 0 and `undefined` are falsy.
   */
  lemma WithCurrencyUsesSettings(host: Host, settings: StaticSettings, cv: CurrencyValue)
    requires |cv.currency| == 3
    requires cv.locales == None && cv.maximumFractionDigits == 0 && cv.minimumFractionDigits == 0
    ensures WithCurrency(host, settings, cv) ==
            host.numberFormat(FormatRequest(settings.locales, CurrencyStyle(cv.currency),
                                            settings.maximumFractionDigits, settings.minimumFractionDigits), cv.of)
  {
  }
}
