# Iraqi dinar exchange dashboard: a verified model of its client-side core

The dashboard shows, for a chosen city and note denomination ("penji" for
5,000-dinar notes, "sur" for 25,000-dinar notes), the current IQD-per-USD
rate, its change since the previous observation, a 30-point chart and a
two-way USD/IQD converter. It also keeps a light/dark theme preference and
shows a short "switching" flag whenever the denomination changes.

This Dafny project models the logic behind those views, one module per
source file:

- `ExchangeRate` (`exchange_rate.dfy`): the rate record as the upstream
  service delivers it, the two denominations, and the x100 scaling of stored
  rates.
- `RateCalculations` (`rate_calculations.dfy`), `useRateCalculations`:
  - the records of the selected type, stably sorted oldest first;
  - the newest of them, falling back to the newest record of any type;
  - the current rate, its change and the percentage change.

  The sort is modelled as a stable insertion sort. It exists as a pure
  function (`SortByTime`) and as an in-place method on an `array` proved
  equal to it (`SortInPlace`), because the fallback branch sorts the
  caller's array in place. Its result is ordered, a permutation of its
  input (`SortByTimeSpec`) and keeps records that share a timestamp in
  input order (`SortByTimeStable`); any stable sort meets these, so
  JavaScript's `Array.prototype.sort`, which is stable, gives the same
  order.
- `ChartData` (`chart_data.dfy`), `useChartData`: the window of the 30 newest
  points, numbered from 1, and the padded y-axis range.
- `NumberText` (`number_text.dfy`): the two JavaScript number/text
  conversions the converter uses. `Number.parseFloat(s) || 0` is a
  character-by-character scan: white space, sign, digits, fraction and
  exponent. `x.toFixed(d)` rounds half away from zero and writes exactly `d`
  decimals. `ParseToFixed` proves that parsing what `toFixed` writes gives
  back the rounded value.
- `CurrencyConverter` (`currency_converter.dfy`), `useCurrencyConverter`: a
  class holding the two text fields. Editing one field rewrites the other.
  Losing the rate clears both.
- `ThemeContext` (`theme_context.dfy`), `ThemeProvider`: a class holding the
  theme, the palette list, the loading flag and the browser's local storage
  (a map). It covers start-up, the palette fetch settling, unmounting,
  toggling, and the `colors` lookup over the built-in palettes.
- `RateTypeLoading` (`rate_type_loading.dfy`), `useRateTypeLoading`: the
  flag and its single pending 300 ms timer. This is a transition function
  over events (render, timer fired, unmount) with an invariant. A class
  whose methods follow it.

Timestamps are integers (milliseconds). Stored rates are integers (the rate
times 100). Every derived number is an exact `real`.

### Three behaviours of the code worth knowing

- **Round trip IQD to USD to IQD.** This round trip does not come back
  within whole-dinar rounding. At 1500 dinars a dollar, 1000 dinars read
  as "0.67" dollars, which convert back to 1005 dinars
  (`IqdRoundTripDrifts`). The bound that does hold is half a dinar plus
  half a cent's worth of dinars (`IqdRoundTripText`).
- **Fetched palettes.** Fetched palettes are not merged with the
  fallbacks: the list is replaced wholesale, so a fetched list that lacks
  a theme leaves `colors` null (`FetchedListCanLackTheme`).
- **Saved theme.** The saved theme is taken without checking that it is
  "light" or "dark" (`UnexpectedSavedTheme`).

## Model

| member | source | states |
|---|---|---|
| ExchangeRate.RateType.Name | hooks/use-rate-calculations.ts:14 | the selectable type is named "penji" or "sur", and the two names differ |
| ExchangeRate.Scale | hooks/use-rate-calculations.ts:34 | the descaled rate times 100 is the stored rate |
| RateCalculations.Keep | hooks/use-rate-calculations.ts:18 | the filter keeps no more records than it was given, each one from the input and satisfying the predicate |
| RateCalculations.FilterByType | hooks/use-rate-calculations.ts:17-18 | every record the type filter keeps comes from the data and has the selected type |
| RateCalculations.KeepAppend | hooks/use-rate-calculations.ts:18 | filtering a sequence with one more record appends that record exactly when it matches |
| RateCalculations.KeepCount | hooks/use-rate-calculations.ts:18 | the filter keeps every occurrence of a matching record and no other record |
| RateCalculations.KeepMember | hooks/use-rate-calculations.ts:18 | whatever the filter keeps comes from the input and matches |
| RateCalculations.Insert | hooks/use-rate-calculations.ts:19 | one insertion step of the stable sort adds exactly one element |
| RateCalculations.SortByTime | hooks/use-rate-calculations.ts:19 | the sort keeps the length |
| RateCalculations.InsertCount | hooks/use-rate-calculations.ts:19 | an insertion step adds the record to the multiset and changes nothing else |
| RateCalculations.InsertSorted | hooks/use-rate-calculations.ts:19 | inserting into a chronologically ordered sequence keeps it ordered |
| RateCalculations.SortByTimeSpec | hooks/use-rate-calculations.ts:19 | the sort's result is in chronological order and is a permutation of its input |
| RateCalculations.SortByTimeAppend | hooks/use-rate-calculations.ts:19 | sorting with one more record is inserting that record into the sorted rest |
| RateCalculations.InsertAt | hooks/use-rate-calculations.ts:19 | the record goes after every record not newer than it and before every newer one |
| RateCalculations.KeepSorted | hooks/use-rate-calculations.ts:19 | filtering keeps chronological order |
| RateCalculations.KeepInsert | hooks/use-rate-calculations.ts:19 | filtering after an insertion is inserting after filtering |
| RateCalculations.KeepSortByTime | hooks/use-rate-calculations.ts:17-19 | the sort is stable: filtering then sorting equals sorting then filtering |
| RateCalculations.SortByTimeSorted | hooks/use-rate-calculations.ts:19 | sorting an ordered sequence changes nothing |
| RateCalculations.SortByTimeIdempotent | hooks/use-rate-calculations.ts:26 | sorting twice equals sorting once |
| RateCalculations.SortByTimeStable | hooks/use-rate-calculations.ts:19 | records sharing a timestamp keep their input order |
| RateCalculations.LastIsLastAtItsTime | hooks/use-rate-calculations.ts:19 | the record the sort puts last is the last one, in input order, of the records sharing its timestamp |
| RateCalculations.InsertIntoPrefix | hooks/use-rate-calculations.ts:19 | one in-place pass moves a record back into the sorted prefix, as the insertion step does, and leaves the suffix alone |
| RateCalculations.SortInPlace | hooks/use-rate-calculations.ts:26 | the in-place array sort leaves the array equal to the stable sort of its old contents |
| RateCalculations.FilteredRates | hooks/use-rate-calculations.ts:16-20 | the filtered rates are in chronological order and a permutation of the records of the selected type |
| RateCalculations.FilteredRatesSpec | hooks/use-rate-calculations.ts:16-20 | the filtered rates are in chronological order and hold each record of the selected type as often as the data does, and nothing else |
| RateCalculations.LatestRate | hooks/use-rate-calculations.ts:23-30 | a rate is selected exactly when the city has data |
| RateCalculations.LastIsNewest | hooks/use-rate-calculations.ts:27 | the last record after sorting comes from the data and no record is newer |
| RateCalculations.LatestRateSpec | hooks/use-rate-calculations.ts:23-30 | a rate is selected exactly when the city has data; it comes from the data; it has the selected type whenever any record does; no record competing with it is newer; among the competing records sharing its timestamp it is the last in input order |
| RateCalculations.FilteredRatesFromSortedData | hooks/use-rate-calculations.ts:16-20 | the filtered rates are the type's records taken from the whole data sorted chronologically |
| RateCalculations.FallbackSortHarmless | hooks/use-rate-calculations.ts:26 | recomputing from the array the fallback reordered gives the same filtered rates and the same selection |
| RateCalculations.Calculate | hooks/use-rate-calculations.ts:33-40 | the current rate is 0 exactly when no record is selected or its rate is 0; with fewer than two filtered records the change and the percentage are 0 |
| RateCalculations.RateCalculationsOf | hooks/use-rate-calculations.ts:14-47 | with filtered rates the selection is the newest of them; with no selection there are no filtered rates and all three numbers are 0 |
| RateCalculations.CurrentRateSpec | hooks/use-rate-calculations.ts:34 | the current rate is 0 for a city without data, and otherwise the selected record's rate descaled |
| RateCalculations.NoHistoryNoChange | hooks/use-rate-calculations.ts:35-37 | with fewer than two records of the type, the change and the percentage are 0, even when the fallback record is shown |
| RateCalculations.ChangeFromLastTwo | hooks/use-rate-calculations.ts:33-40 | with two or more records, the change is newest minus second-newest, and the percentage is that change over the previous rate (0 when the previous rate is 0) |
| RateCalculations.PercentRecoversCurrent | hooks/use-rate-calculations.ts:37 | applying the percentage to a positive previous rate gives back the current rate, and its sign is the direction of the move |
| RateCalculations.TwoObservationScenario | hooks/use-rate-calculations.ts:14-47 | two penji records at 1500.00 and 1520.00 given newest first come out oldest first, select 1520 and report a change of 20 and 4/3 percent |
| RateCalculations.FilterToArray | hooks/use-rate-calculations.ts:17-18 | the fresh array holds exactly the filtered records, in order |
| RateCalculations.UseRateCalculations | hooks/use-rate-calculations.ts:14-47 | the hook's three results equal the specification functions; the caller's array is sorted in place exactly when no record has the selected type |
| ChartData.Window | hooks/use-chart-data.ts:27 | the window is the last min(30, n) records of the filtered rates |
| ChartData.Point | hooks/use-chart-data.ts:28-31 | a point carries the given number, the record's rate divided by 100, its timestamp and its type |
| ChartData.Number | hooks/use-chart-data.ts:28-31 | the k-th record becomes the point numbered first+k, with its rate descaled |
| ChartData.ChartDataOf | hooks/use-chart-data.ts:25-45 | the chart has at most 30 points, numbered 1, 2, ... in order |
| ChartData.ChartDataSpec | hooks/use-chart-data.ts:25-45 | the chart keeps the newest min(30, n) records in order, numbered from 1, with descaled rates and their timestamps and types |
| ChartData.ChartDataGrows | hooks/use-chart-data.ts:27 | below 30 records a new record appends one point numbered after the others |
| ChartData.ChartDataSlides | hooks/use-chart-data.ts:27 | at 30 records or more a new record drops the oldest point, renumbers the rest down by one and takes number 30 |
| ChartData.MinRate | hooks/use-chart-data.ts:52 | the minimum is one of the rates and no rate is below it |
| ChartData.MaxRate | hooks/use-chart-data.ts:53 | the maximum is one of the rates and no rate is above it |
| ChartData.YAxisDomain | hooks/use-chart-data.ts:48-57 | the range is [0, 100] without data, and its lower end is never negative |
| ChartData.YAxisDomainSpec | hooks/use-chart-data.ts:48-57 | the range is [0, 100] without data; otherwise the padding is 50 for a flat series and 5% of the spread otherwise, the upper end is the maximum plus the padding and the lower end is the minimum minus the padding, clamped at 0 |
| ChartData.YAxisDomainFramesPoints | hooks/use-chart-data.ts:48-57 | for rates that are not negative, every rate lies inside a proper range |
| NumberText.ParseOrZero | hooks/use-currency-converter.ts:32 | text without a digit reads as 0 |
| NumberText.NoNumberReadsZero | hooks/use-currency-converter.ts:32 | any text that is white space, at most one sign, then something that cannot start a number reads as 0 |
| NumberText.RoundHalfUp | hooks/use-currency-converter.ts:33 | toFixed's integer is the nearest one, the larger on a tie |
| NumberText.RoundToDecimals | hooks/use-currency-converter.ts:33 | rounding keeps the sign of the input (or gives 0) |
| NumberText.ToFixed | hooks/use-currency-converter.ts:33 | the text is not empty and starts with "-" exactly for a negative input; with 0 decimals it has no point; otherwise it ends in a point and exactly d digits |
| NumberText.NatTextSpec | hooks/use-currency-converter.ts:33 | the integer part written is a non-empty digit string whose value is the number |
| NumberText.PadDigitsSpec | hooks/use-currency-converter.ts:48 | the fraction part written has exactly the requested number of digits and the given value |
| NumberText.ParseFixedText | hooks/use-currency-converter.ts:47 | a signed fixed-point numeral parses to its sign applied to whole plus fraction over 10^d |
| NumberText.ParseToFixed | hooks/use-currency-converter.ts:32-33 | parsing the text toFixed writes gives back the value rounded to d decimals, for every sign and every d |
| NumberText.RoundToWholeError | hooks/use-currency-converter.ts:33 | toFixed(0) denotes a whole number within half a unit of the input |
| NumberText.RoundToCentsError | hooks/use-currency-converter.ts:48 | toFixed(2) denotes a value within half a cent of the input |
| NumberText.ParseDecimalExample | hooks/use-currency-converter.ts:32 | e.g. "  12.5 USD" reads as 12.5: leading white space is skipped and reading stops at the first character that cannot continue a number |
| NumberText.ParseSignedFractionExample | hooks/use-currency-converter.ts:47 | e.g. "-.25" reads as -0.25: a sign may be followed directly by the decimal point |
| NumberText.ParseNoNumberExamples | hooks/use-currency-converter.ts:32 | e.g. "abc", ".", "- 5" and the empty text read as 0 |
| NumberText.ParseExponentExample | hooks/use-currency-converter.ts:32 | e.g. "1e3" reads as 1000: an exponent scales the mantissa up |
| NumberText.ParseNegativeExponentExample | hooks/use-currency-converter.ts:32 | e.g. "2.5e-1" reads as 0.25: a negative exponent scales it down |
| NumberText.ParseBareExponentExample | hooks/use-currency-converter.ts:47 | e.g. "7e+" reads as 7: an exponent marker without digits is ignored |
| CurrencyConverter.NonFiniteText | hooks/use-currency-converter.ts:48 | toFixed of a non-finite quotient is "Infinity", "-Infinity" or "NaN", the last exactly for 0 over 0 |
| CurrencyConverter.DinarText | hooks/use-currency-converter.ts:32-33 | the dinar text is never empty and has no decimal point |
| CurrencyConverter.DollarText | hooks/use-currency-converter.ts:47-48 | the dollar text is never empty; for a nonzero rate it ends in a point and two digits |
| CurrencyConverter.IqdFor | hooks/use-currency-converter.ts:30-36 | the IQD field is cleared exactly when the USD entry is empty or there is no rate |
| CurrencyConverter.UsdFor | hooks/use-currency-converter.ts:45-50 | the USD field is cleared exactly when the IQD entry is empty or there is no rate; a zero rate writes the text of a non-finite number |
| CurrencyConverter.Converter.constructor | hooks/use-currency-converter.ts:15-16 | both fields start empty |
| CurrencyConverter.Converter.RateChanged | hooks/use-currency-converter.ts:19-24 | when the rate changes to none both fields are cleared; otherwise they are kept |
| CurrencyConverter.Converter.HandleUsdChange | hooks/use-currency-converter.ts:26-39 | the USD field takes the typed text and the IQD field the converted text; the rate is untouched |
| CurrencyConverter.Converter.HandleIqdChange | hooks/use-currency-converter.ts:41-54 | the IQD field takes the typed text and the USD field the converted text; the rate is untouched |
| CurrencyConverter.DinarTextValue | hooks/use-currency-converter.ts:30-36 | the dinar text is never empty and reads back as the product rounded to whole dinars |
| CurrencyConverter.DinarTextRounds | hooks/use-currency-converter.ts:32-33 | that value is a whole number within half a dinar of the exact product |
| CurrencyConverter.DollarTextValue | hooks/use-currency-converter.ts:45-50 | the dollar text is never empty; for a nonzero rate it reads back as the quotient rounded to cents; for a zero rate it is "Infinity", "-Infinity" or "NaN" |
| CurrencyConverter.DollarTextRounds | hooks/use-currency-converter.ts:47-48 | for a nonzero rate that value is within half a cent of the exact quotient |
| CurrencyConverter.UsdRoundTrip | hooks/use-currency-converter.ts:26-54 | USD to IQD and back lands within half a cent plus half a dinar's worth of dollars of the start |
| CurrencyConverter.IqdRoundTrip | hooks/use-currency-converter.ts:26-54 | IQD to USD and back lands within half a dinar plus half a cent's worth of dinars of the start |
| CurrencyConverter.UsdRoundTripText | hooks/use-currency-converter.ts:26-54 | for a positive rate, the dollar text of the dinar text of u reads back within half a cent plus half a dinar's worth of dollars of u |
| CurrencyConverter.IqdRoundTripText | hooks/use-currency-converter.ts:26-54 | for a positive rate, the dinar text of the dollar text of i reads back within half a dinar plus half a cent's worth of dinars of i |
| CurrencyConverter.IqdRoundTripDrifts | hooks/use-currency-converter.ts:41-54 | at 1500 dinars a dollar, 1000 dinars round to 0.67 dollars, which come back as 1005 dinars |
| ThemeContext.FindColors | lib/theme-context.tsx:173 | colors is null exactly when no palette has the theme's name; otherwise it is the data of the first palette with that name |
| ThemeContext.Flipped | lib/theme-context.tsx:164 | the toggle always yields "light" or "dark", and never the theme it started from |
| ThemeContext.InitialTheme | lib/theme-context.tsx:105-118 | a storage failure gives "light"; a non-empty saved value is taken as it is; otherwise "dark" exactly when the system prefers dark; nothing but a saved value yields a theme other than the two known ones |
| ThemeContext.ThemesAfterFetch | lib/theme-context.tsx:130-141 | a successful fetch while mounted replaces the list; any other outcome keeps it |
| ThemeContext.ThemeStore.constructor | lib/theme-context.tsx:98-100 | the store starts on "light", with the fallback palettes, loading, and its colours are the light palette |
| ThemeContext.ThemeStore.Colors | lib/theme-context.tsx:173 | while the list is the fallback one, "light" and "dark" both have colours |
| ThemeContext.ThemeStore.InitializeTheme | lib/theme-context.tsx:105-118 | the theme becomes the start-up choice for the saved value; nothing else changes |
| ThemeContext.ThemeStore.FetchSettled | lib/theme-context.tsx:127-141 | the list becomes the post-fetch list and loading ends in every outcome |
| ThemeContext.ThemeStore.Unmount | lib/theme-context.tsx:146-148 | only the mounted guard is cleared |
| ThemeContext.ThemeStore.ToggleTheme | lib/theme-context.tsx:163-171 | the theme is flipped; it is saved under "theme" when the write succeeds, and a failed write leaves storage as it was and the flip standing |
| ThemeContext.FallbackColors | lib/theme-context.tsx:44-95 | the fallback list resolves "light" and "dark" to their palettes and no other name |
| ThemeContext.ToggleTwice | lib/theme-context.tsx:163-165 | toggling twice restores the theme exactly when it is "light" or "dark" |
| ThemeContext.InitialColorsResolve | lib/theme-context.tsx:105-118 | unless storage holds an unexpected non-empty value, the start-up theme has colours in the fallback list |
| ThemeContext.UnexpectedSavedTheme | lib/theme-context.tsx:107-109 | an unexpected saved value becomes the theme and leaves colors null |
| ThemeContext.FetchedListCanLackTheme | lib/theme-context.tsx:130-132 | a fetched list without the theme leaves colors null, as the list is not merged with the fallbacks |
| RateTypeLoading.RunEffect | hooks/use-rate-type-loading.ts:9-14 | the effect raises the flag and schedules the next-numbered timer in place of any earlier one |
| RateTypeLoading.Initial | hooks/use-rate-type-loading.ts:6 | the flag starts false, no timer is pending and the invariant holds |
| RateTypeLoading.Step | hooks/use-rate-type-loading.ts:9-17 | every event keeps the invariant (at most one timer is pending and, while mounted, the flag is up exactly when a timer is pending), and timer numbers only grow |
| RateTypeLoading.Run | hooks/use-rate-type-loading.ts:9-17 | every sequence of events keeps the invariant |
| RateTypeLoading.ChangeRaisesFlag | hooks/use-rate-type-loading.ts:9-14 | mounting or changing the type raises the flag and schedules a timer numbered after the one it replaces |
| RateTypeLoading.SameSelectionNoEffect | hooks/use-rate-type-loading.ts:17 | a render with the same type changes nothing |
| RateTypeLoading.StaleTimerIgnored | hooks/use-rate-type-loading.ts:16 | a timer that is not the pending one has no effect |
| RateTypeLoading.FlagLoweredOnlyByLatestTimer | hooks/use-rate-type-loading.ts:12-16 | while mounted, the flag goes down only when the pending timer of the latest change fires |
| RateTypeLoading.StaleTimerAfterChange | hooks/use-rate-type-loading.ts:9-17 | once a timer has been replaced, no later sequence of events makes it pending again |
| RateTypeLoading.LoadingFlag.constructor | hooks/use-rate-type-loading.ts:6 | the object starts in the initial state |
| RateTypeLoading.LoadingFlag.RateTypeLoading | hooks/use-rate-type-loading.ts:19 | in a reachable mounted state the returned flag is up exactly when a timer is pending |
| RateTypeLoading.LoadingFlag.Render | hooks/use-rate-type-loading.ts:9-17 | a render moves the fields as the transition function does |
| RateTypeLoading.LoadingFlag.TimerFired | hooks/use-rate-type-loading.ts:12-14 | a timer firing moves the fields as the transition function does |
| RateTypeLoading.LoadingFlag.Unmount | hooks/use-rate-type-loading.ts:16 | the cleanup cancels the pending timer, as the transition function does |

## Left out

- Dates. Timestamps are integers. Parsing ISO-8601 strings and the invalid-date (NaN) comparisons are not modelled, and neither are the two chart date labels (`toLocaleString`, `toLocaleDateString`).
- Binary floating point. Numbers are exact rationals, so the model has no representation error. For example, JavaScript's `(1.005).toFixed(2)` gives "1.00".
- `toFixed` exponent notation. For magnitudes of 10^21 and above, `toFixed` writes exponent notation. The model does not.
- `parseFloat` of "Infinity". `parseFloat` reads "Infinity" (signed or not) as a non-finite number. The model reads such text as 0.
- Non-finite quotient. Only the text of the non-finite quotient from a zero rate is modelled, not its arithmetic.
- NumberText.RoundToWholeError, NumberText.RoundToCentsError: these state the rounding error only for 0 and 2 decimals, the only two the converter uses.
- Memoization. `useMemo` and `useCallback` caching is not modelled: every derived value is recomputed from its inputs, which the caching does not change.
- Theme side effects. The theme's effect that writes CSS variables onto the document (lib/theme-context.tsx:152-161) is not modelled.
- Console output.
- The `useTheme` guard. Its throw outside a provider is not modelled.
- System preference, storage failures and fetch outcomes. `window.matchMedia` becomes the `prefersDark` parameter. A throwing storage access becomes the `readFails` / `writeSucceeds` parameters. The fetch becomes a `FetchOutcome` parameter.
- Palette JSON shape. The fetched palettes are assumed to have the declared shape; the code does not check it.
- Time. No clock is modelled. A timer firing is an event, and the model puts no constraint on when it comes relative to other events, so the 300 ms length of the delay plays no part.
- Other modules. The rate-history fetch and its race between city switches (hooks/use-exchange-data.ts), the API proxy routes and the React components are not part of this model.
