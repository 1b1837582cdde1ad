# Quotation pricing model

This project models the pricing core of a web quotation tool. A user picks a
service from a catalog, ticks optional add-ons and chooses a currency (US
dollars or Mexican pesos). The tool shows a running total: the service's base
price plus the price of every ticked option. The total is never stored. It is
recomputed from the catalog on every render.

The project has two modules, one per source file:

- `Pricing` (`pricing.dfy`) models `app/utils/pricing.ts`.
  - The catalog is a parameter: a `seq<Service>` whose prices are integers per currency.
  - `Find` models the first-match `Array.prototype.find` lookup. `FindService` and `FindOption` are its two uses.
  - `TotalPrice` is the specification of the total: 0 for an unknown service, otherwise the base price plus the price of the first matching option for each selection entry.
  - `CalculateTotalPrice` is a method whose `while` loop mirrors the `forEach` accumulator. It is proved against the specification function `TotalPrice`.
  - `GetServiceSummary` models the `map` / `filter` / `reduce` pipeline of `getServiceSummary` as recursive functions: `FindEach`, `Present` and `SumPrices`.
  - Lemmas prove that the two ways of computing a total agree.
- `Calculator` (`calculator.dfy`) models the state of `app/components/PricingCalculator.tsx`.
  - The class `PricingCalculatorState` has the catalog and three state cells: `selectedService`, `selectedOptions` and `currency`.
  - The three handlers are methods with `modifies this`.
  - `Valid()` says that the option list never holds a repeated id.
  - `Toggle` and `RemoveAll` model the list built inside the toggle handler. Their lemmas show the handler keeps `Valid()`. With that invariant, each toggle moves the total by exactly one option price.

Two facts about the code shape the model:

- The selection is a list, not a set. `calculateTotalPrice` counts a repeated id once per occurrence (`Pricing.TotalAppend`). Only the toggle handler keeps duplicates out (`Calculator.ToggleKeepsNoDuplicates`, `Calculator.ToggleTotal`).
- `calculateTotalPrice` and the toggle handler accept any option id. Ids outside the selected service's options add nothing to the total. In the running component only the rendered checkboxes, one per option of the selected service, limit which ids reach the handler. The model does not include that limit (see "Left out").

## Model

| member | source | states |
|---|---|---|
| `Pricing.Find` | app/utils/pricing.ts:53 | The first-match search returns an element of the sequence that has the requested id, and none exactly when no element has that id. When the first match is at index k, the result is the element at k, so later elements with the same id are never returned. |
| `Pricing.FindService` | app/utils/pricing.ts:52-54 | A found service has the requested id and comes from the catalog. The result is none exactly when no catalog entry has that id. |
| `Pricing.FindServiceFirst` | app/utils/pricing.ts:52-54 | When the first catalog entry with the id is at index k, the lookup returns that entry. Later services with the same id are never returned. |
| `Pricing.FindOption` | app/utils/pricing.ts:78 | A found option has the requested id and belongs to the service's list. The result is none exactly when no option has that id. |
| `Pricing.ServiceOptions` | app/utils/pricing.ts:59-62 | An unknown service id gives no options. A known one gives exactly the options of the first service with that id. |
| `Pricing.OptionPrice` | app/utils/pricing.ts:78-81 | A selection entry whose id names no option of the service adds 0. |
| `Pricing.OptionPriceFirst` | app/utils/pricing.ts:78-81 | When the first option with the entry's id is at index k, the entry adds that option's price in the chosen currency. Later options with the same id are never priced. |
| `Pricing.OptionsTotal` | app/utils/pricing.ts:77-82 | The options part of the total is 0 when no selection entry names an option of the service, so unknown option ids are ignored. |
| `Pricing.TotalPrice` | app/utils/pricing.ts:72-84 | The total is 0 for an unknown service, whatever the selection. For a known service whose selection names none of its options, including the empty selection, the total is the base price in the chosen currency. |
| `Pricing.CalculateTotalPrice` | app/utils/pricing.ts:67-85 | For an unknown service the loop returns 0, whatever the selection and currency. With an empty selection it returns the base price in the chosen currency. In every case it returns `TotalPrice`: the base price plus what each entry adds. |
| `Pricing.OptionsTotalConcat` | app/utils/pricing.ts:77-82 | The options part of the total is additive: a selection `a + b` costs what `a` costs plus what `b` costs. |
| `Pricing.TotalAppend` | app/utils/pricing.ts:77-82 | Appending an id adds exactly the price of its first matching option, even when the id is already selected, so a repeated id is counted once per occurrence. An id the service does not offer leaves the total unchanged. |
| `Pricing.OptionsTotalIsEntriesSum` | app/utils/pricing.ts:77-82 | The loop's accumulation equals a sum taken from the first entry, defined independently. |
| `Pricing.TotalIsBasePlusEntries` | app/utils/pricing.ts:75-82 | For a known service the total is its base price plus, over the selection entries in order, the price of the first option with that id, or 0 when there is none. |
| `Pricing.FindEach` | app/utils/pricing.ts:138-139 | The mapped list has one lookup result per selection entry, at the same position. |
| `Pricing.Present` | app/utils/pricing.ts:140 | Filtering the misses is no longer than its input and keeps exactly the options that were found. |
| `Pricing.SelectedOptionsData` | app/utils/pricing.ts:138-140 | The options found number at most the selection entries, and each of them is an option of the service. |
| `Pricing.GetServiceSummary` | app/utils/pricing.ts:129-152 | The summary is null exactly when the service is unknown, which is the total's not-found branch. Otherwise it holds the found service and the requested currency. Its base price is the service's base price in that currency, and its options are the ones the selection names, in order. Its options total equals the loop's options total, its total is the base price plus the options total, and that total equals `calculateTotalPrice` for the same arguments. |
| `Pricing.PresentConcat` | app/utils/pricing.ts:140 | The filter can be applied piece by piece, so the options found keep their relative order. |
| `Pricing.FindEachConcat` | app/utils/pricing.ts:138-139 | The mapping can be applied piece by piece. |
| `Pricing.SelectedOptionsDataAppend` | app/utils/pricing.ts:138-140 | Appending an entry to the selection appends its option to the list of options found, and appends nothing when the option is missing. |
| `Pricing.SelectedOptionsDataShape` | app/utils/pricing.ts:138-140 | When every selection entry names an option, there are exactly as many options found as entries, and the i-th option found is the first option whose id is the i-th entry. |
| `Pricing.SumPricesConcat` | app/utils/pricing.ts:142 | The reduce over the options found is additive: the sum over `a + b` is the sum over `a` plus the sum over `b`. |
| `Pricing.SummarySumIsOptionsTotal` | app/utils/pricing.ts:138-142 | The summary's options total, taken by map, filter and reduce, equals the loop's options total. |
| `Pricing.SummaryOptionsShape` | app/utils/pricing.ts:138-152 | For a known service the summary exists. Its options number at most the selection entries, all belong to the service found, and come in selection order. |
| `Calculator.RemoveAll` | app/components/PricingCalculator.tsx:38 | After filtering, the id is gone. The other ids remain, the filter adds none, and the list does not grow. |
| `Calculator.RemoveAllAbsent` | app/components/PricingCalculator.tsx:38 | Filtering out an id that is not in the list leaves the list as it was. |
| `Calculator.RemoveAllConcat` | app/components/PricingCalculator.tsx:38 | The filter can be applied piece by piece, so the kept ids keep their original order. |
| `Calculator.RemoveAllCounts` | app/components/PricingCalculator.tsx:38 | Filtering removes every occurrence of the id and leaves every other id's count unchanged. |
| `Calculator.RemoveAllAt` | app/components/PricingCalculator.tsx:38 | In a list without duplicates, removing the id at position k leaves the entries before k followed by the entries after k. |
| `Calculator.Toggle` | app/components/PricingCalculator.tsx:36-40 | Toggling flips whether the id is selected. An absent id is appended after the unchanged earlier entries. A present id is removed, and the other ids stay selected. |
| `Calculator.TogglePresent` | app/components/PricingCalculator.tsx:37-38 | Toggling a selected id removes every occurrence of it and keeps all other entries. Without duplicates, the rest close up around the removed entry. |
| `Calculator.ToggleTwice` | app/components/PricingCalculator.tsx:35-41 | Toggling the same unselected id twice restores the original list. |
| `Calculator.ToggleKeepsNoDuplicates` | app/components/PricingCalculator.tsx:35-41 | Toggling keeps a list without duplicates free of duplicates. |
| `Calculator.OptionsTotalRemoveAll` | app/components/PricingCalculator.tsx:38 | In a list without duplicates, filtering an id out lowers the options total by that option's price once if the id was selected. Otherwise the total is unchanged. |
| `Calculator.ToggleTotal` | app/components/PricingCalculator.tsx:28-41 | In a list without duplicates, a toggle changes the derived total by exactly one copy of the option's price: added when the box was clear, subtracted when it was ticked. |
| `Calculator.PricingCalculatorState.constructor` | app/components/PricingCalculator.tsx:21-23 | The initial state has service `""`, no options and currency USD, and it satisfies the invariant. Its total is 0 when no catalog service has the empty id. |
| `Calculator.PricingCalculatorState.Total` | app/components/PricingCalculator.tsx:28 | The total is derived from the state and the catalog on every read, and never stored. With no known service selected it is 0. |
| `Calculator.PricingCalculatorState.ComputeTotal` | app/components/PricingCalculator.tsx:28 | The displayed total is computed from the current state by the pricing loop. |
| `Calculator.PricingCalculatorState.HandleServiceChange` | app/components/PricingCalculator.tsx:30-33 | Changing the service sets the new id, empties the options and keeps the currency. The new total is that service's base price, or 0 for an unknown id. |
| `Calculator.PricingCalculatorState.HandleOptionToggle` | app/components/PricingCalculator.tsx:35-41 | The options become `Toggle` of the old options. The service and currency are unchanged, and the invariant is kept. The total moves by exactly one option price, up or down. |
| `Calculator.PricingCalculatorState.HandleCurrencyChange` | app/components/PricingCalculator.tsx:43-45 | Only the currency changes. The total is recomputed from the catalog in the new currency for the same service and selection. |

## Left out

- The catalog's JSON document (`../data/pricing.json`) is not part of this model. The catalog is a parameter, so `getAllServices` is the identity on it.
- Prices are unbounded integers. JavaScript numbers are doubles, so sums that lose precision above 2^53 are not modelled.
- `formatPrice` is not modelled: its output depends on the locale grouping of `toLocaleString`, which is outside the code.
- `convertUsdToMxn` and `convertMxnToUsd` are not modelled: they multiply by a floating-point exchange rate and round.
- `getCurrencyOptions` and `getDefaultCurrency` only read fields of the JSON document.
- Currency is a two-value datatype. The component casts catalog currency codes to `'usd' | 'mxn'`; a code outside those two, whose prices would read as undefined, is not modelled.
- The default arguments of `calculateTotalPrice` and `getServiceSummary` (an empty selection, USD) are not modelled: every call passes all arguments explicitly.
- The rendered checkboxes (app/components/PricingCalculator.tsx:107-115) call the toggle handler only with ids of the selected service's options. The model's handler accepts any id, so the model does not capture that `selectedOptions` stays within the selected service's option ids. Such ids would add nothing to the total anyway.
- The option list the component derives at line 27 only feeds the rendered checkboxes. The `useEffect` notifications to the parent component, all JSX rendering and React's batching of the two state updates in the service handler are not modelled either. Each handler is modelled as one atomic state change.
- `app/utils/pdfGenerator.ts` is not part of this model. It is layout calls into a PDF library, with page geometry, dates and file I/O. Its option filtering repeats `getServiceSummary`.
- The quotation context, the session cookie and the other UI components hold no pricing logic and are not part of this model.
