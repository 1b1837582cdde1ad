/** The selection state behind the pricing calculator component: which
    service is chosen, which of its options are ticked, and the currency.
    The total shown is never stored; it is recomputed from the catalog. */
module Calculator {
  import opened Pricing

  /** No option id occurs twice in the selection. */
  predicate NoDuplicates(s: seq<string>) {
    forall i, j :: 0 <= i < j < |s| ==> s[i] != s[j]
  }

  /** The selection with every occurrence of `x` filtered out. */
  function RemoveAll(s: seq<string>, x: string): (r: seq<string>)
    ensures x !in r
    ensures forall y :: y in r <==> y in s && y != x
    ensures |r| <= |s|
  {
    if s == [] then []
    else (if s[0] == x then [] else [s[0]]) + RemoveAll(s[1..], x)
  }

  /** Ticking a box: an id already selected is taken out, any other is added
      last behind the entries already there. */
  function Toggle(prev: seq<string>, optionId: string): (r: seq<string>)
    ensures optionId in r <==> optionId !in prev
    ensures optionId !in prev ==> r == prev + [optionId] && r[..|prev|] == prev
    ensures optionId in prev ==> forall y :: y in r <==> y in prev && y != optionId
  {
    if optionId in prev then RemoveAll(prev, optionId) else prev + [optionId]
  }

  // ---------------------------------------------------------------------
  // Filtering
  // ---------------------------------------------------------------------

  /** Filtering leaves a selection that lacks `x` as it is. */
  lemma {:induction false} RemoveAllAbsent(s: seq<string>, x: string)
    requires x !in s
    ensures RemoveAll(s, x) == s
  {
    if s != [] {
      assert x !in s[1..];
      RemoveAllAbsent(s[1..], x);
      assert [s[0]] + s[1..] == s;
    }
  }

  /** Filtering works piece by piece, so the kept entries keep their order. */
  lemma {:induction false} RemoveAllConcat(a: seq<string>, b: seq<string>, x: string)
    ensures RemoveAll(a + b, x) == RemoveAll(a, x) + RemoveAll(b, x)
  {
    if a == [] {
      assert a + b == b;
    } else {
      assert (a + b)[0] == a[0];
      assert (a + b)[1..] == a[1..] + b;
      RemoveAllConcat(a[1..], b, x);
    }
  }

  /** Filtering drops every `x` and nothing else. */
  lemma {:induction false} RemoveAllCounts(s: seq<string>, x: string)
    ensures multiset(RemoveAll(s, x)) == multiset(s)[x := 0]
  {
    if s != [] {
      assert s == [s[0]] + s[1..];
      RemoveAllCounts(s[1..], x);
    }
  }

  /** In a selection without duplicates, filtering out the entry at `k`
      leaves exactly the entries before it followed by those after it. */
  lemma {:induction false} RemoveAllAt(s: seq<string>, k: nat)
    requires NoDuplicates(s) && k < |s|
    ensures RemoveAll(s, s[k]) == s[..k] + s[k + 1..]
  {
    var x, a, b := s[k], s[..k], s[k + 1..];
    assert s == a + [x] + b;
    assert x !in a by {
      forall i | 0 <= i < |a| ensures a[i] != x {
        assert a[i] == s[i];
      }
    }
    assert x !in b by {
      forall i | 0 <= i < |b| ensures b[i] != x {
        assert b[i] == s[k + 1 + i];
      }
    }
    RemoveAllConcat(a + [x], b, x);
    RemoveAllConcat(a, [x], x);
    RemoveAllAbsent(a, x);
    RemoveAllAbsent(b, x);
    assert RemoveAll([x], x) == [];
  }

  // ---------------------------------------------------------------------
  // Toggling
  // ---------------------------------------------------------------------

  /** An id that is selected disappears entirely; every other entry stays, in
      its original order, and in a selection without duplicates the rest are
      simply closed up around the removed entry. */
  lemma TogglePresent(prev: seq<string>, optionId: string)
    requires optionId in prev
    ensures optionId !in Toggle(prev, optionId)
    ensures multiset(Toggle(prev, optionId)) == multiset(prev)[optionId := 0]
    ensures forall k :: 0 <= k < |prev| && prev[k] == optionId && NoDuplicates(prev) ==>
              Toggle(prev, optionId) == prev[..k] + prev[k + 1..]
  {
    RemoveAllCounts(prev, optionId);
    forall k | 0 <= k < |prev| && prev[k] == optionId && NoDuplicates(prev)
      ensures Toggle(prev, optionId) == prev[..k] + prev[k + 1..]
    {
      RemoveAllAt(prev, k);
    }
  }

  /** Ticking an unselected box twice gives back the selection it started from. */
  lemma ToggleTwice(prev: seq<string>, optionId: string)
    requires optionId !in prev
    ensures Toggle(Toggle(prev, optionId), optionId) == prev
  {
    RemoveAllConcat(prev, [optionId], optionId);
    RemoveAllAbsent(prev, optionId);
    assert RemoveAll([optionId], optionId) == [];
  }

  /** Toggling never introduces a duplicate. */
  lemma ToggleKeepsNoDuplicates(prev: seq<string>, optionId: string)
    requires NoDuplicates(prev)
    ensures NoDuplicates(Toggle(prev, optionId))
  {
    if optionId in prev {
      var k :| 0 <= k < |prev| && prev[k] == optionId;
      RemoveAllAt(prev, k);
      var r := prev[..k] + prev[k + 1..];
      forall i, j | 0 <= i < j < |r| ensures r[i] != r[j] {
        var i' := if i < k then i else i + 1;
        var j' := if j < k then j else j + 1;
        assert r[i] == prev[i'] && r[j] == prev[j'];
      }
    }
  }

  /** In a selection without duplicates, filtering `x` out takes its price
      off once if it was selected, and changes nothing otherwise. */
  lemma {:induction false} OptionsTotalRemoveAll(options: seq<PricingOption>, s: seq<string>, x: string, c: Currency)
    requires NoDuplicates(s)
    ensures OptionsTotal(options, RemoveAll(s, x), c)
         == OptionsTotal(options, s, c) - (if x in s then OptionPrice(options, x, c) else 0)
  {
    if s != [] {
      var head, rest := s[0], s[1..];
      assert s == [head] + rest;
      assert NoDuplicates(rest);
      assert head !in rest;
      OptionsTotalConcat(options, [head], rest, c);
      assert [head][..0] == [];
      assert OptionsTotal(options, s, c) == OptionPrice(options, head, c) + OptionsTotal(options, rest, c);
      if head == x {
        RemoveAllAbsent(rest, x);
        assert RemoveAll(s, x) == rest;
      } else {
        OptionsTotalRemoveAll(options, rest, x, c);
        assert RemoveAll(s, x) == [head] + RemoveAll(rest, x);
        OptionsTotalConcat(options, [head], RemoveAll(rest, x), c);
      }
    }
  }

  /** With no duplicate in the selection, ticking a box changes the total by
      exactly that option's price once: added when the box was clear, taken
      off when it was ticked. */
  lemma ToggleTotal(catalog: seq<Service>, serviceId: string, prev: seq<string>, optionId: string, c: Currency)
    requires NoDuplicates(prev)
    ensures TotalPrice(catalog, serviceId, Toggle(prev, optionId), c)
         == TotalPrice(catalog, serviceId, prev, c)
            + (if optionId in prev then -1 else 1) * OptionPrice(ServiceOptions(catalog, serviceId), optionId, c)
  {
    if optionId in prev {
      if FindService(catalog, serviceId).Some? {
        OptionsTotalRemoveAll(FindService(catalog, serviceId).value.options, prev, optionId, c);
      }
    } else {
      TotalAppend(catalog, serviceId, prev, optionId, c);
    }
  }

  // ---------------------------------------------------------------------
  // Component state
  // ---------------------------------------------------------------------

  class PricingCalculatorState {
    /** The services, as the catalog lists them. */
    const catalog: seq<Service>
    var selectedService: string
    var selectedOptions: seq<string>
    var currency: Currency

    /** The state never holds a repeated option id. */
    ghost predicate Valid()
      reads this
    {
      NoDuplicates(selectedOptions)
    }

    /** The total displayed for the current state. */
    function Total(): (r: int)
      reads this
      ensures FindService(catalog, selectedService).None? ==> r == 0
    {
      TotalPrice(catalog, selectedService, selectedOptions, currency)
    }

    /** The first render: no service, no option, prices in US dollars. */
    constructor (catalog: seq<Service>)
      ensures this.catalog == catalog
      ensures selectedService == "" && selectedOptions == [] && currency == Usd
      ensures Valid()
      ensures (forall k :: 0 <= k < |catalog| ==> catalog[k].id != "") ==> Total() == 0
    {
      this.catalog := catalog;
      selectedService := "";
      selectedOptions := [];
      currency := Usd;
    }

    /** Computes the displayed total from the state. */
    method ComputeTotal() returns (total: int)
      ensures total == Total()
    {
      total := CalculateTotalPrice(catalog, selectedService, selectedOptions, currency);
    }

    /** Choosing a service clears the selected options. */
    method HandleServiceChange(serviceId: string)
      modifies this
      ensures selectedService == serviceId && selectedOptions == []
      ensures currency == old(currency)
      ensures Valid()
      ensures FindService(catalog, serviceId).None? ==> Total() == 0
      ensures FindService(catalog, serviceId).Some? ==> Total() == FindService(catalog, serviceId).value.basePrice.At(currency)
    {
      selectedService := serviceId;
      selectedOptions := [];
    }

    /** Ticking or clearing an option's box. */
    method HandleOptionToggle(optionId: string)
      requires Valid()
      modifies this
      ensures selectedOptions == Toggle(old(selectedOptions), optionId)
      ensures selectedService == old(selectedService) && currency == old(currency)
      ensures Valid()
      ensures Total() == old(Total())
                + (if optionId in old(selectedOptions) then -1 else 1)
                  * OptionPrice(ServiceOptions(catalog, selectedService), optionId, currency)
    {
      ToggleKeepsNoDuplicates(selectedOptions, optionId);
      ToggleTotal(catalog, selectedService, selectedOptions, optionId, currency);
      selectedOptions := Toggle(selectedOptions, optionId);
    }

    /** Switching currency reprices the same quotation. */
    method HandleCurrencyChange(newCurrency: Currency)
      requires Valid()
      modifies this
      ensures currency == newCurrency
      ensures selectedService == old(selectedService) && selectedOptions == old(selectedOptions)
      ensures Valid()
      ensures Total() == TotalPrice(catalog, selectedService, selectedOptions, newCurrency)
    {
      currency := newCurrency;
    }
  }
}
