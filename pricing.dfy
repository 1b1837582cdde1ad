/** Catalog lookup and quotation totals of the web quotation tool.
    The catalog, which the application reads from a static JSON document,
    is a parameter here: a sequence of services with integer prices per
    currency. */
module Pricing {

  datatype Option<+T> = None | Some(value: T)

  /** The two currencies a quotation is priced in. */
  datatype Currency = Usd | Mxn

  /** A price given once per currency, as the catalog's `{ usd, mxn }` records. */
  datatype Amounts = Amounts(usd: int, mxn: int) {
    function At(c: Currency): int {
      match c
      case Usd => usd
      case Mxn => mxn
    }
  }

  /** An add-on of a service, with its own incremental price. */
  datatype PricingOption = PricingOption(id: string, name: string, description: Option<string>, price: Amounts)

  /** A quotable service: a base price and the ordered list of its options. */
  datatype Service = Service(id: string, name: string, description: string, basePrice: Amounts, options: seq<PricingOption>)

  /** The record a summary of a known service consists of. */
  datatype ServiceSummary = ServiceSummary(
    service: Service,
    basePrice: int,
    selectedOptions: seq<PricingOption>,
    optionsTotal: int,
    total: int,
    currency: Currency)

  // ---------------------------------------------------------------------
  // Lookup
  // ---------------------------------------------------------------------

  /** `Array.prototype.find` with the predicate "has this id": the first
      element of `s` whose id is `id`, if any. A later element with the same
      id is never returned. */
  function Find<T>(s: seq<T>, idOf: T -> string, id: string): (r: Option<T>)
    ensures r.Some? ==> idOf(r.value) == id && r.value in s
    ensures r.None? <==> forall k :: 0 <= k < |s| ==> idOf(s[k]) != id
    ensures forall k :: 0 <= k < |s| && idOf(s[k]) == id && (forall j :: 0 <= j < k ==> idOf(s[j]) != id) ==>
              r == Some(s[k])
  {
    if s == [] then None
    else if idOf(s[0]) == id then Some(s[0])
    else
      var r := Find(s[1..], idOf, id);
      assert forall k :: 1 <= k < |s| ==> s[k] == s[1..][k - 1];
      r
  }

  function ServiceId(s: Service): string { s.id }

  function OptionId(o: PricingOption): string { o.id }

  /** The service a quotation refers to: the first catalog entry with that id. */
  function FindService(catalog: seq<Service>, serviceId: string): (r: Option<Service>)
    ensures r.Some? ==> r.value.id == serviceId && r.value in catalog
    ensures r.None? <==> forall k :: 0 <= k < |catalog| ==> catalog[k].id != serviceId
  {
    Find(catalog, ServiceId, serviceId)
  }

  /** The option a selection entry refers to: the first option with that id. */
  function FindOption(options: seq<PricingOption>, optionId: string): (r: Option<PricingOption>)
    ensures r.Some? ==> r.value.id == optionId && r.value in options
    ensures r.None? <==> forall k :: 0 <= k < |options| ==> options[k].id != optionId
  {
    Find(options, OptionId, optionId)
  }

  /** The lookup of a service stops at the first entry with its id. */
  lemma FindServiceFirst(catalog: seq<Service>, serviceId: string, k: nat)
    requires k < |catalog| && catalog[k].id == serviceId
    requires forall j :: 0 <= j < k ==> catalog[j].id != serviceId
    ensures FindService(catalog, serviceId) == Some(catalog[k])
  {
  }

  /** The options of the service with that id; none when the id is unknown. */
  function ServiceOptions(catalog: seq<Service>, serviceId: string): (r: seq<PricingOption>)
    ensures FindService(catalog, serviceId).None? ==> r == []
    ensures FindService(catalog, serviceId).Some? ==> r == FindService(catalog, serviceId).value.options
  {
    match FindService(catalog, serviceId)
    case None => []
    case Some(s) => s.options
  }

  // ---------------------------------------------------------------------
  // Total price
  // ---------------------------------------------------------------------

  /** Some option of the list has the id. */
  predicate Offers(options: seq<PricingOption>, optionId: string) {
    exists k :: 0 <= k < |options| && options[k].id == optionId
  }

  /** What one selection entry adds to the total: the price of the first
      option with that id, or nothing for an id the service does not offer. */
  function OptionPrice(options: seq<PricingOption>, optionId: string, c: Currency): (r: int)
    ensures !Offers(options, optionId) ==> r == 0
  {
    match FindOption(options, optionId)
    case None => 0
    case Some(o) => o.price.At(c)
  }

  /** An entry adds the price of the first option with its id; later
      options with the same id are never priced. */
  lemma OptionPriceFirst(options: seq<PricingOption>, optionId: string, k: nat, c: Currency)
    requires k < |options| && options[k].id == optionId
    requires forall j :: 0 <= j < k ==> options[j].id != optionId
    ensures OptionPrice(options, optionId, c) == options[k].price.At(c)
  {
  }

  /** No entry of the selection is the id of one of the options. */
  predicate NamesNoOption(options: seq<PricingOption>, selected: seq<string>) {
    forall i :: 0 <= i < |selected| ==> FindOption(options, selected[i]).None?
  }

  /** The sum of what the entries of `selected` add, accumulated entry by
      entry in order. */
  function OptionsTotal(options: seq<PricingOption>, selected: seq<string>, c: Currency): (r: int)
    ensures NamesNoOption(options, selected) ==> r == 0
    decreases |selected|
  {
    if selected == [] then 0
    else
      var prefix := selected[..|selected| - 1];
      assert NamesNoOption(options, selected) ==> NamesNoOption(options, prefix) by {
        assert forall i :: 0 <= i < |prefix| ==> prefix[i] == selected[i];
      }
      OptionsTotal(options, prefix, c) + OptionPrice(options, selected[|selected| - 1], c)
  }

  /** The total of a quotation: 0 for an unknown service, otherwise the base
      price plus what every selection entry adds. */
  function TotalPrice(catalog: seq<Service>, serviceId: string, selected: seq<string>, c: Currency): (r: int)
    ensures FindService(catalog, serviceId).None? ==> r == 0
    ensures FindService(catalog, serviceId).Some? &&
            NamesNoOption(FindService(catalog, serviceId).value.options, selected) ==>
              r == FindService(catalog, serviceId).value.basePrice.At(c)
  {
    match FindService(catalog, serviceId)
    case None => 0
    case Some(s) => s.basePrice.At(c) + OptionsTotal(s.options, selected, c)
  }

  /** The options part of a total is additive over the selection. */
  lemma {:induction false} OptionsTotalConcat(options: seq<PricingOption>, a: seq<string>, b: seq<string>, c: Currency)
    ensures OptionsTotal(options, a + b, c) == OptionsTotal(options, a, c) + OptionsTotal(options, b, c)
    decreases |b|
  {
    if b == [] {
      assert a + b == a;
    } else {
      var b' := b[..|b| - 1];
      assert (a + b)[..|a + b| - 1] == a + b';
      assert (a + b)[|a + b| - 1] == b[|b| - 1];
      OptionsTotalConcat(options, a, b', c);
    }
  }

  /** Appending one entry adds exactly the price of its option, whether or
      not the entry is already in the selection: a repeated id is counted once
      per occurrence, and an id the service does not offer adds nothing. */
  lemma TotalAppend(catalog: seq<Service>, serviceId: string, selected: seq<string>, x: string, c: Currency)
    ensures TotalPrice(catalog, serviceId, selected + [x], c)
         == TotalPrice(catalog, serviceId, selected, c) + OptionPrice(ServiceOptions(catalog, serviceId), x, c)
    ensures FindOption(ServiceOptions(catalog, serviceId), x).None? ==>
              TotalPrice(catalog, serviceId, selected + [x], c) == TotalPrice(catalog, serviceId, selected, c)
  {
  }

  /** The total is the base price plus, for every selection entry in order,
      the price of the first option with that id (0 when there is none). */
  lemma {:induction false} TotalIsBasePlusEntries(catalog: seq<Service>, serviceId: string, selected: seq<string>, c: Currency)
    requires FindService(catalog, serviceId).Some?
    ensures TotalPrice(catalog, serviceId, selected, c)
         == FindService(catalog, serviceId).value.basePrice.At(c) + EntriesSum(FindService(catalog, serviceId).value.options, selected, c)
  {
    OptionsTotalIsEntriesSum(FindService(catalog, serviceId).value.options, selected, c);
  }

  /** The same sum taken from the first entry, as an independent reference. */
  function EntriesSum(options: seq<PricingOption>, selected: seq<string>, c: Currency): int {
    if selected == [] then 0
    else OptionPrice(options, selected[0], c) + EntriesSum(options, selected[1..], c)
  }

  lemma {:induction false} OptionsTotalIsEntriesSum(options: seq<PricingOption>, selected: seq<string>, c: Currency)
    ensures OptionsTotal(options, selected, c) == EntriesSum(options, selected, c)
  {
    if selected != [] {
      assert selected == [selected[0]] + selected[1..];
      OptionsTotalConcat(options, [selected[0]], selected[1..], c);
      assert [selected[0]][..0] == [];
      OptionsTotalIsEntriesSum(options, selected[1..], c);
    }
  }

  /** One more entry of the selection adds what that entry adds. */
  lemma OptionsTotalStep(options: seq<PricingOption>, selected: seq<string>, i: nat, c: Currency)
    requires i < |selected|
    ensures OptionsTotal(options, selected[..i + 1], c) == OptionsTotal(options, selected[..i], c) + OptionPrice(options, selected[i], c)
  {
    assert selected[..i + 1][..i] == selected[..i];
  }

  /** `calculateTotalPrice`: look the service up, start from its base price
      and add, entry by entry, the price of each selected option found. */
  method CalculateTotalPrice(catalog: seq<Service>, serviceId: string, selectedOptions: seq<string>, c: Currency)
    returns (total: int)
    ensures total == TotalPrice(catalog, serviceId, selectedOptions, c)
    ensures FindService(catalog, serviceId).None? ==> total == 0
    ensures FindService(catalog, serviceId).Some? && selectedOptions == [] ==>
              total == FindService(catalog, serviceId).value.basePrice.At(c)
  {
    var service := FindService(catalog, serviceId);
    if service.None? {
      return 0;
    }
    var s := service.value;
    total := s.basePrice.At(c);
    var i := 0;
    while i < |selectedOptions|
      invariant 0 <= i <= |selectedOptions|
      invariant total == s.basePrice.At(c) + OptionsTotal(s.options, selectedOptions[..i], c)
    {
      OptionsTotalStep(s.options, selectedOptions, i, c);
      var option := FindOption(s.options, selectedOptions[i]);
      if option.Some? {
        assert OptionPrice(s.options, selectedOptions[i], c) == option.value.price.At(c);
        total := total + option.value.price.At(c);
      } else {
        assert OptionPrice(s.options, selectedOptions[i], c) == 0;
      }
      i := i + 1;
    }
    assert selectedOptions[..i] == selectedOptions;
    assert total == TotalPrice(catalog, serviceId, selectedOptions, c);
    assert selectedOptions == [] ==> NamesNoOption(s.options, selectedOptions);
  }

  // ---------------------------------------------------------------------
  // Summary
  // ---------------------------------------------------------------------

  /** Looks every selection entry up among the options, keeping the misses. */
  function FindEach(options: seq<PricingOption>, selected: seq<string>): (r: seq<Option<PricingOption>>)
    ensures |r| == |selected|
    ensures forall i :: 0 <= i < |selected| ==> r[i] == FindOption(options, selected[i])
  {
    if selected == [] then []
    else [FindOption(options, selected[0])] + FindEach(options, selected[1..])
  }

  /** Drops the misses, keeping the options found in their order. */
  function Present(found: seq<Option<PricingOption>>): (r: seq<PricingOption>)
    ensures |r| <= |found|
    ensures forall o :: o in r <==> Some(o) in found
  {
    if found == [] then []
    else (if found[0].Some? then [found[0].value] else []) + Present(found[1..])
  }

  /** Adds the prices of the given options up, from left to right. */
  function SumPrices(chosen: seq<PricingOption>, c: Currency): int
    decreases |chosen|
  {
    if chosen == [] then 0
    else SumPrices(chosen[..|chosen| - 1], c) + chosen[|chosen| - 1].price.At(c)
  }

  /** The options a selection designates, in selection order. */
  function SelectedOptionsData(options: seq<PricingOption>, selected: seq<string>): (r: seq<PricingOption>)
    ensures |r| <= |selected|
    ensures forall o :: o in r ==> o in options
  {
    Present(FindEach(options, selected))
  }

  /** `getServiceSummary`: nothing for an unknown service, otherwise the
      service, its base price, the options found and the two sums, which agree
      with the total the loop computes. */
  function GetServiceSummary(catalog: seq<Service>, serviceId: string, selected: seq<string>, c: Currency): (r: Option<ServiceSummary>)
    ensures r.None? <==> FindService(catalog, serviceId).None?
    ensures r.Some? ==>
              && r.value.service == FindService(catalog, serviceId).value
              && r.value.basePrice == r.value.service.basePrice.At(c)
              && r.value.selectedOptions == SelectedOptionsData(r.value.service.options, selected)
              && r.value.optionsTotal == OptionsTotal(r.value.service.options, selected, c)
              && r.value.total == r.value.basePrice + r.value.optionsTotal
              && r.value.total == TotalPrice(catalog, serviceId, selected, c)
              && r.value.currency == c
  {
    match FindService(catalog, serviceId)
    case None => None
    case Some(s) =>
      var basePrice := s.basePrice.At(c);
      var chosen := SelectedOptionsData(s.options, selected);
      var optionsTotal := SumPrices(chosen, c);
      SummarySumIsOptionsTotal(s.options, selected, c);
      Some(ServiceSummary(s, basePrice, chosen, optionsTotal, basePrice + optionsTotal, c))
  }

  lemma {:induction false} PresentConcat(a: seq<Option<PricingOption>>, b: seq<Option<PricingOption>>)
    ensures Present(a + b) == Present(a) + Present(b)
  {
    if a != [] {
      assert (a + b)[0] == a[0];
      assert (a + b)[1..] == a[1..] + b;
      PresentConcat(a[1..], b);
    } else {
      assert a + b == b;
    }
  }

  lemma FindEachConcat(options: seq<PricingOption>, a: seq<string>, b: seq<string>)
    ensures FindEach(options, a + b) == FindEach(options, a) + FindEach(options, b)
  {
  }

  /** Appending one entry to the selection appends its option, if found,
      to the summary's options: they come in selection order. */
  lemma SelectedOptionsDataAppend(options: seq<PricingOption>, selected: seq<string>, x: string)
    ensures SelectedOptionsData(options, selected + [x])
         == SelectedOptionsData(options, selected)
            + (if FindOption(options, x).Some? then [FindOption(options, x).value] else [])
  {
    FindEachConcat(options, selected, [x]);
    PresentConcat(FindEach(options, selected), FindEach(options, [x]));
    assert FindEach(options, [x]) == [FindOption(options, x)];
    assert [FindOption(options, x)][1..] == [];
  }

  /** Every entry of the selection is the id of one of the options. */
  predicate AllNamed(options: seq<PricingOption>, selected: seq<string>) {
    forall i :: 0 <= i < |selected| ==> FindOption(options, selected[i]).Some?
  }

  /** One more named entry extends a one-to-one match by its own option. */
  lemma NamedAppend(options: seq<PricingOption>, p: seq<string>, x: string, selected: seq<string>, prev: seq<PricingOption>)
    requires selected == p + [x] && AllNamed(options, p) && AllNamed(options, selected)
    requires |prev| == |p| && FindOption(options, x).Some?
    requires forall i :: 0 <= i < |p| ==> prev[i] == FindOption(options, p[i]).value
    ensures forall i :: 0 <= i < |selected| ==>
              (prev + [FindOption(options, x).value])[i] == FindOption(options, selected[i]).value
  {
    assert selected[|p|] == x;
    forall i | 0 <= i < |p| ensures selected[i] == p[i] {
      assert selected[..|p|] == p;
    }
  }

  /** When every entry names an option, the options found match the entries
      one to one and in order. */
  lemma {:induction false} SelectedOptionsDataShape(options: seq<PricingOption>, selected: seq<string>)
    requires AllNamed(options, selected)
    ensures |SelectedOptionsData(options, selected)| == |selected|
    ensures forall i :: 0 <= i < |selected| ==>
              SelectedOptionsData(options, selected)[i] == FindOption(options, selected[i]).value
    decreases |selected|
  {
    if selected != [] {
      var p, x := selected[..|selected| - 1], selected[|selected| - 1];
      assert p + [x] == selected;
      assert AllNamed(options, p) by {
        forall i | 0 <= i < |p| ensures FindOption(options, p[i]).Some? {
          assert p[i] == selected[i];
        }
      }
      SelectedOptionsDataShape(options, p);
      SelectedOptionsDataAppend(options, p, x);
      assert SelectedOptionsData(options, selected) == SelectedOptionsData(options, p) + [FindOption(options, x).value];
      NamedAppend(options, p, x, selected, SelectedOptionsData(options, p));
    }
  }


  /** The reduction is additive over concatenated lists of options. */
  lemma {:induction false} SumPricesConcat(a: seq<PricingOption>, b: seq<PricingOption>, c: Currency)
    ensures SumPrices(a + b, c) == SumPrices(a, c) + SumPrices(b, c)
    decreases |b|
  {
    if b == [] {
      assert a + b == a;
    } else {
      var b' := b[..|b| - 1];
      assert (a + b)[..|a + b| - 1] == a + b';
      assert (a + b)[|a + b| - 1] == b[|b| - 1];
      SumPricesConcat(a, b', c);
    }
  }

  /** Summing the summary's options gives the options part of the total. */
  lemma {:induction false} SummarySumIsOptionsTotal(options: seq<PricingOption>, selected: seq<string>, c: Currency)
    ensures SumPrices(SelectedOptionsData(options, selected), c) == OptionsTotal(options, selected, c)
    decreases |selected|
  {
    if selected == [] {
    } else {
      var p := selected[..|selected| - 1];
      var x := selected[|selected| - 1];
      assert p + [x] == selected;
      SelectedOptionsDataAppend(options, p, x);
      SummarySumIsOptionsTotal(options, p, c);
      if FindOption(options, x).Some? {
        SumPricesConcat(SelectedOptionsData(options, p), [FindOption(options, x).value], c);
      } else {
        assert SelectedOptionsData(options, selected) == SelectedOptionsData(options, p);
      }
    }
  }

  /** The summary's options keep the selection's order, are no more than its
      entries, and all belong to the service found. */
  lemma SummaryOptionsShape(catalog: seq<Service>, serviceId: string, selected: seq<string>, c: Currency)
    requires FindService(catalog, serviceId).Some?
    ensures GetServiceSummary(catalog, serviceId, selected, c).Some?
    ensures var sm := GetServiceSummary(catalog, serviceId, selected, c).value;
              && |sm.selectedOptions| <= |selected|
              && (forall o :: o in sm.selectedOptions ==> o in sm.service.options)
              && sm.selectedOptions == SelectedOptionsData(sm.service.options, selected)
  {
  }
}
