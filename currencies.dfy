/**
 * A set of currency codes with variadic `add`, `delete`, `has` and `clear`
 * (src/lib/currencies.class.ts). A JavaScript `Set` lists its members in the order they were
 * inserted, so its content is a sequence without repeats.
 */
module Currencies {

  /** No code is listed twice. */
  ghost predicate Distinct(s: seq<string>) {
    forall i, j :: 0 <= i < j < |s| ==> s[i] != s[j]
  }

  /** `Set.prototype.add`: a new code goes last, a code already present changes nothing. */
  function Insert(s: seq<string>, c: string): seq<string> {
    if c in s then s else s + [c]
  }

  /** The codes of `s` that are not in `d`, in their order: `Set.prototype.delete` for each of `d`. */
  function Without(s: seq<string>, d: set<string>): (r: seq<string>)
    ensures forall x :: x in r <==> x in s && x !in d
    decreases |s|
  {
    if s == [] then []
    else (if s[0] in d then [] else [s[0]]) + Without(s[1..], d)
  }

  /** The listing after `add(...cs)`: each code inserted in turn. */
  function AddAll(s: seq<string>, cs: seq<string>): (r: seq<string>)
    ensures forall x :: x in r <==> x in s || x in cs
    decreases |cs|
  {
    if cs == [] then s
    else
      assert cs == cs[..|cs| - 1] + [cs[|cs| - 1]];
      Insert(AddAll(s, cs[..|cs| - 1]), cs[|cs| - 1])
  }

  /** The listing after `delete(...cs)`: each code deleted in turn. */
  function DeleteAll(s: seq<string>, cs: seq<string>): (r: seq<string>)
    ensures forall x :: x in r <==> x in s && x !in cs
    decreases |cs|
  {
    if cs == [] then s
    else
      assert cs == cs[..|cs| - 1] + [cs[|cs| - 1]];
      Without(DeleteAll(s, cs[..|cs| - 1]), {cs[|cs| - 1]})
  }

  /** The position of the first occurrence of `x` in `cs`. */
  function FirstIndex(cs: seq<string>, x: string): (i: nat)
    requires x in cs
    ensures i < |cs| && cs[i] == x && x !in cs[..i]
    decreases |cs|
  {
    if x in cs[..|cs| - 1] then FirstIndex(cs[..|cs| - 1], x) else |cs| - 1
  }

  /** Deleting keeps the listing free of repeats. */
  lemma {:induction false} WithoutDistinct(s: seq<string>, d: set<string>)
    requires Distinct(s)
    ensures Distinct(Without(s, d))
    decreases |s|
  {
    if s != [] {
      WithoutDistinct(s[1..], d);
    }
  }

  /** Deleting one set of codes after another is deleting both. */
  lemma {:induction false} WithoutWithout(s: seq<string>, d: set<string>, e: set<string>)
    ensures Without(Without(s, d), e) == Without(s, d + e)
    decreases |s|
  {
    if s != [] {
      WithoutWithout(s[1..], d, e);
      var rest := Without(s[1..], d);
      var w := Without(s, d);
      if s[0] in d {
        assert w == rest;
      } else {
        assert w == [s[0]] + rest;
        assert w[0] == s[0] && w[1..] == rest;
      }
    }
  }

  /**
   * `delete(...cs)` removes exactly the codes of `cs` and keeps every other member in its
   * place in the order.
   */
  lemma {:induction false} DeleteAllIsWithout(s: seq<string>, cs: seq<string>)
    ensures DeleteAll(s, cs) == Without(s, set c | c in cs)
    decreases |cs|
  {
    if cs == [] {
      WithoutNothing(s);
      assert (set c | c in cs) == {};
    } else {
      var n := |cs| - 1;
      var before := set c | c in cs[..n];
      var all := set c | c in cs;
      DeleteAllIsWithout(s, cs[..n]);
      WithoutWithout(s, before, {cs[n]});
      assert before + {cs[n]} == all by {
        assert cs == cs[..n] + [cs[n]];
      }
      calc {
        DeleteAll(s, cs);
        Without(DeleteAll(s, cs[..n]), {cs[n]});
        Without(Without(s, before), {cs[n]});
        Without(s, all);
      }
    }
  }

  /** Deleting nothing changes nothing. */
  lemma {:induction false} WithoutNothing(s: seq<string>)
    ensures Without(s, {}) == s
    decreases |s|
  {
    if s != [] {
      WithoutNothing(s[1..]);
    }
  }

  /**
   * After `add(...cs)` the members are the old ones and the codes of `cs`, each listed once;
   * the old members keep their places and the new ones follow them.
   */
  lemma {:induction false} AddAllSpec(s: seq<string>, cs: seq<string>)
    requires Distinct(s)
    ensures Distinct(AddAll(s, cs))
    ensures |s| <= |AddAll(s, cs)| && AddAll(s, cs)[..|s|] == s
    decreases |cs|
  {
    if cs != [] {
      var n := |cs| - 1;
      AddAllSpec(s, cs[..n]);
      var prev := AddAll(s, cs[..n]);
      assert cs == cs[..n] + [cs[n]];
      if cs[n] !in prev {
        assert (prev + [cs[n]])[..|s|] == prev[..|s|];
      }
    }
  }

  /**
   * The members that `add(...cs)` brings in follow one another in the order of their first
   * occurrence in `cs`.
   */
  lemma {:induction false} AddAllOrder(s: seq<string>, cs: seq<string>, i: int, j: int)
    requires Distinct(s)
    requires |s| <= i < j < |AddAll(s, cs)|
    ensures AddAll(s, cs)[i] in cs && AddAll(s, cs)[j] in cs
    ensures FirstIndex(cs, AddAll(s, cs)[i]) < FirstIndex(cs, AddAll(s, cs)[j])
    decreases |cs|
  {
    var n := |cs| - 1;
    var prefix := cs[..n];
    var prev := AddAll(s, prefix);
    AddAllSpec(s, prefix);
    AddAllSpec(s, cs);
    var r := AddAll(s, cs);
    assert cs == prefix + [cs[n]];
    if j < |prev| {
      assert r[..|prev|] == prev;
      AddAllOrder(s, prefix, i, j);
      assert r[i] == prev[i] && r[j] == prev[j];
      assert FirstIndex(cs, r[i]) == FirstIndex(prefix, r[i]);
      assert FirstIndex(cs, r[j]) == FirstIndex(prefix, r[j]);
    } else {
      assert r == prev + [cs[n]] && r[j] == cs[n] && cs[n] !in prev;
      assert r[i] == prev[i];
      assert prev[i] !in s by {
        assert prev[..|s|] == s;
        forall k | 0 <= k < |s| ensures s[k] != prev[i] {
          assert s[k] == prev[k];
        }
      }
      assert FirstIndex(cs, r[i]) == FirstIndex(prefix, r[i]);
    }
  }

  /** Adding codes that are all present already changes nothing; so adding twice is adding once. */
  lemma {:induction false} AddPresent(s: seq<string>, cs: seq<string>)
    requires forall c :: c in cs ==> c in s
    ensures AddAll(s, cs) == s
    decreases |cs|
  {
    if cs != [] {
      AddPresent(s, cs[..|cs| - 1]);
    }
  }

  /** `add(...cs)` twice is `add(...cs)` once. */
  lemma AddIdempotent(s: seq<string>, cs: seq<string>)
    requires Distinct(s)
    ensures AddAll(AddAll(s, cs), cs) == AddAll(s, cs)
  {
    AddAllSpec(s, cs);
    AddPresent(AddAll(s, cs), cs);
  }

  class Currencies {
    /** `#codes`: the members of the `Set`, in insertion order. */
    var codes: seq<string>

    ghost predicate Valid()
      reads this
    {
      Distinct(codes)
    }

    /** `new Currencies(...cs)`: the members are exactly the codes of `cs`. */
    constructor (cs: seq<string>)
      ensures Valid() && codes == AddAll([], cs)
    {
      codes := [];
      new;
      var _ := Add(cs);
    }

    /** `add(...cs)`: inserts each code in turn and returns the instance. */
    method Add(cs: seq<string>) returns (self: Currencies)
      requires Valid()
      modifies this
      ensures Valid() && self == this
      ensures codes == AddAll(old(codes), cs)
    {
      var i := 0;
      while i < |cs|
        invariant 0 <= i <= |cs|
        invariant codes == AddAll(old(codes), cs[..i])
      {
        assert cs[..i + 1][..i] == cs[..i];
        codes := Insert(codes, cs[i]);
        i := i + 1;
      }
      assert cs[..|cs|] == cs;
      AddAllSpec(old(codes), cs);
      self := this;
    }

    /** `clear()`: no members are left; returns the instance. */
    method Clear() returns (self: Currencies)
      modifies this
      ensures Valid() && self == this && codes == []
    {
      codes := [];
      self := this;
    }

    /** `delete(...cs)`: deletes each code in turn and returns the instance. */
    method Delete(cs: seq<string>) returns (self: Currencies)
      requires Valid()
      modifies this
      ensures Valid() && self == this
      ensures codes == DeleteAll(old(codes), cs)
    {
      var i := 0;
      while i < |cs|
        invariant 0 <= i <= |cs|
        invariant Valid()
        invariant codes == DeleteAll(old(codes), cs[..i])
      {
        assert cs[..i + 1][..i] == cs[..i];
        WithoutDistinct(codes, {cs[i]});
        codes := Without(codes, {cs[i]});
        i := i + 1;
      }
      assert cs[..|cs|] == cs;
      self := this;
    }

    /** `has(...cs)`: whether every code of `cs` is a member; true for no codes at all. */
    function Has(cs: seq<string>): (r: bool)
      reads this
      ensures r <==> forall c :: c in cs ==> c in codes
      decreases |cs|
    {
      if cs == [] then true
      else cs[0] in codes && Has(cs[1..])
    }

    /**
     * `getCurrencies()`: the members, in insertion order, each listed once; a code is listed
     * exactly when `has` answers yes for it.
     */
    function GetCurrencies(): (r: seq<string>)
      requires Valid()
      reads this
      ensures Distinct(r)
      ensures forall c :: c in r <==> Has([c])
    {
      codes
    }
  }

  /**
   * `new Currencies('USD', 'INCH')` lists both codes; adding 'USD' again changes nothing,
   * deleting 'INCH' leaves 'USD' alone, and `clear()` leaves no codes.
   */
  method CurrenciesScenario() returns (created: seq<string>, readded: seq<string>, deleted: seq<string>,
                                       hasBoth: bool, hasUsd: bool, cleared: seq<string>)
    ensures created == ["USD", "INCH"] && readded == ["USD", "INCH"] && deleted == ["USD"]
    ensures hasBoth && hasUsd && cleared == []
  {
    var codes := new Currencies(["USD", "INCH"]);
    assert ["USD", "INCH"][..1] == ["USD"];
    created := codes.GetCurrencies();
    hasBoth := codes.Has(["USD", "INCH"]);
    var same := codes.Add(["USD"]);
    readded := codes.GetCurrencies();
    same := codes.Delete(["INCH"]);
    deleted := codes.GetCurrencies();
    hasUsd := codes.Has(["USD"]);
    same := codes.Clear();
    cleared := codes.GetCurrencies();
  }
}
