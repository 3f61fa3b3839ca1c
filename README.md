# Tata Quick Insights ESG dashboard: a Dafny model of the client-side data shaping

The dashboard fetches one flat collection of yearly ESG records (division,
year, carbon emissions in tons, water usage in kilolitres, employee diversity
in percent). It lets the user pick a division and shows three line charts and
three summary cards for the latest year. All of its logic sits in
`frontend/src/App.js`. This project models that logic in three modules:

- `Esg` (`esg.dfy`): the record type and the derivations recomputed on every
  render.
  - The division index passes the records' divisions through a JavaScript
    `Set`: distinct divisions in order of first appearance.
  - The division filter treats the empty selection as "all records".
  - The per-metric series are one point per filtered record, in record order.
  - The latest-year record comes from a left fold whose strict comparison
    lets the later record win on equal years.
  - The summary figures fall back to `'N/A'` when there is no latest record.
- `Decimal` (`decimal.dfy`): how the template literal writes the HTTP status
  into the error message, with a proof that the text reads back as the same
  number.
- `Page` (`page.dfy`): the page as a whole.
  - The fetch outcome is an input value.
  - The render checks `loading`, then `error`, then builds the dashboard.
  - Chart and card contents, headings and titles come from the selection,
    with "All Divisions" for the placeholder.
  - The four state variables (`esgData`, `loading`, `error`,
    `selectedDivision`) live in the class `Dashboard`. Its methods are the
    fetch handler (`OnFetchResult`) and the selector's change handler
    (`SelectDivision`). Its invariant `Valid` says the selection is always the
    placeholder or a division that is present in the data.

Tie rule: the code compares `prev.Year > current.Year` strictly, so of
several records sharing the greatest year the last one wins, not the first.
See `Esg.LatestPicksLastMaximal` and `Esg.LatestTieFavoursLater`.

Two details of the code are kept as written:
- At App.js line 42, `uniqueDivs.length > 0` always holds once the data is
  non-empty. So the default selection is simply the division of the first
  record (`Page.DefaultSelection`).
- `response.ok` is true exactly for a status from 200 to 299, as the Fetch
  Standard defines it (`Page.IsOk`).

## Model

| member | source | states |
|---|---|---|
| `Esg.MapRecords` | frontend/src/App.js:82-83 | `map` keeps length and order: entry i is the callback applied to record i |
| `Esg.DivisionColumn` | frontend/src/App.js:65 | the mapped `Division` column has one entry per record, entry i being record i's division |
| `Esg.InsertionOrder` | frontend/src/App.js:65 | the iteration order of a `Set` built from a sequence has no duplicates, holds exactly the sequence's elements, and starts with its first element |
| `Esg.InsertionOrderFollowsFirstOccurrence` | frontend/src/App.js:65 | of two elements of that order, the earlier one first occurs earlier in the input |
| `Esg.UniqueDivisions` | frontend/src/App.js:41-43 | `uniqueDivisions`/`uniqueDivs` has no duplicates, contains a division exactly when some record carries it, and starts with the first record's division |
| `Esg.UniqueDivisionsFirstSeenOrder` | frontend/src/App.js:65 | the division index is ordered by the position of each division's first record |
| `Esg.Passes` | frontend/src/App.js:68 | the callback keeps a record exactly when the selection is empty or equals the record's division |
| `Esg.Filter` | frontend/src/App.js:67-69 | the filter result is no longer than the input and contains a record exactly when the input contains it and it passes (its division equals a non-empty selection, or the selection is empty) |
| `Esg.FilterWithoutSelection` | frontend/src/App.js:68 | with the empty selection the filter result is the whole collection, unchanged in order and count |
| `Esg.FilterPreservesOrder` | frontend/src/App.js:67-69 | filtering a concatenation gives the concatenation of the filtered parts, so the relative order of kept records is the input order |
| `Esg.FilterSingle` | frontend/src/App.js:68 | a single record is kept exactly when it passes the callback |
| `Esg.Years` | frontend/src/App.js:82 | the year labels have one entry per filtered record, entry i being record i's year, with no sorting or merging |
| `Esg.Values` | frontend/src/App.js:83 | the data points of a metric have one entry per filtered record, entry i being record i's value of that metric |
| `Esg.Pick` | frontend/src/App.js:73 | the reducer returns one of its two records, one with the greater year, and the current (later) record on equal years |
| `Esg.FoldLatest` | frontend/src/App.js:73 | the fold returns the start value or one of the remaining records, with a year at least the start's and at least every remaining record's |
| `Esg.Latest` | frontend/src/App.js:72-74 | `latestYearData` is null exactly for an empty filter result; otherwise it is one of the filtered records and no filtered record has a greater year |
| `Esg.FoldLatestKeeps` | frontend/src/App.js:73 | a start value whose year is strictly greater than every remaining record's year survives the fold |
| `Esg.FoldLatestLast` | frontend/src/App.js:73 | the fold returns the last remaining record with the greatest year when its year is at least the start value's |
| `Esg.LatestPicksLastMaximal` | frontend/src/App.js:72-74 | when several filtered records share the greatest year, `latestYearData` is the last of them |
| `Esg.LatestTieFavoursLater` | frontend/src/App.js:73 | of two records with the same year, the later one is chosen |
| `Esg.LatestFigure` | frontend/src/App.js:76-78 | a summary figure is 'N/A' exactly when the filter result is empty; otherwise it is the metric's value in the latest-year record, so in a filtered record of the greatest year and, on a tie, the last such record |
| `Decimal.DecimalString` | frontend/src/App.js:36 | the status is written as decimal digits with no leading zero (0 itself is the single digit "0"), and that text reads back as the status |
| `Page.HttpErrorMessage` | frontend/src/App.js:36 | the error message is "HTTP error! status: " followed by the decimal digits of the status, with no leading zero, and exactly "0" for status 0 |
| `Page.IsOk` | frontend/src/App.js:35 | a response is ok exactly when its status is in the 2xx class (200 to 299) |
| `Page.DefaultSelection` | frontend/src/App.js:40-44 | the default selection is the placeholder for no records, otherwise the first entry of the division index, and always the placeholder or an index entry |
| `Page.ErrorText` | frontend/src/App.js:62 | the error screen reads "Error: ", then the caught error's message verbatim, then ". Make sure your backend API is running at http://127.0.0.1:8000" |
| `Page.ModeOf` | frontend/src/App.js:57-63 | Loading exactly while loading; Error exactly when not loading and an error is set; the dashboard otherwise |
| `Page.DivisionLabel` | frontend/src/App.js:103 | the label is the selected division, or "All Divisions" for the empty selection |
| `Page.ChartFor` | frontend/src/App.js:82-109 | a chart carries one label and one point per filtered record in record order, its heading is "<metric> (<label>)" and its title "<label> <metric> Over Time" |
| `Page.SummaryCards` | frontend/src/App.js:201-246 | cards are present exactly for a non-empty filter result; then there are three, for carbon, water and diversity, each showing the latest record's year and a value that is that record's figure, and no filtered record is newer |
| `Page.RenderBody` | frontend/src/App.js:198-270 | the no-data message appears exactly when the filter result is empty; otherwise the cards are the summary cards of the filter result and the three charts, in the order carbon, water, diversity, are the charts of that result, sharing the filtered years as labels |
| `Page.Render` | frontend/src/App.js:57-63 | the Loading screen exactly while loading, the Error screen with "Error: <message>. Make sure your backend API is running at http://127.0.0.1:8000" exactly when not loading and an error is set, otherwise the dashboard with the placeholder plus the division index as options |
| `Page.UnfilteredDashboardShowsAll` | frontend/src/App.js:67-83 | with the placeholder selected, the dashboard body is built from the whole collection and the charts label every record |
| `Page.SummaryShowsLastLatestRecord` | frontend/src/App.js:72-78 | the three cards show the year and figures of the last filtered record with the greatest year |
| `Page.DivisionIndexOfExample` | frontend/src/App.js:65 | records of divisions A, A, B give the division index ["A", "B"] |
| `Page.Dashboard.SelectorOptions` | frontend/src/App.js:188-193 | the selector offers the placeholder first, then the division index (each division once, in order of first appearance), so a value is offered exactly when it is the placeholder or the division of some record |
| `Page.Dashboard.constructor` | frontend/src/App.js:26-29 | the page starts loading, with no data, no error and the placeholder selected |
| `Page.Dashboard.OnFetchResult` | frontend/src/App.js:35-50 | loading ends in every case; an ok response stores its records, leaves the error unset and selects the first record's division (the placeholder for no records), so the page is Ready; a non-ok response or a rejection sets the error to "HTTP error! status: <status>" or the thrown message, stores nothing and leaves the selection, so the page shows Error |
| `Page.Dashboard.SelectDivision` | frontend/src/App.js:185 | the selection becomes the chosen option's value, the page stays Ready and nothing else changes |

## Left out

- The `fetch` call itself: the endpoint URL, awaiting, JSON parsing, async timing and unmount (App.js lines 32-38, 54). The outcome of the request is an input, `Page.FetchOutcome`. A body that fails to parse is folded into `Rejected` together with network failures, because both end in the same `catch`.
- A pending request that never settles: no call of `OnFetchResult` ever happens, so the page stays in the Loading mode.
- React hooks, JSX markup, inline styles, the static header text, Chart.js registration and the chart option objects. This covers colours, tension, legend position, dataset labels, axis titles and the diversity axis bounds 0 to 100. All of it is presentation-library configuration with no logic.
- The unit suffixes on the cards ("Tons", "KL", "%"): also presentation text.
- `console.error` logging (App.js line 48).
- Measurement values and years are integers. In JavaScript they are numbers, possibly fractional. The dashboard only copies measurements and only compares years with `>`, so the integer model keeps that behaviour. Non-numeric years, and records that lack a field, are not modelled.
- The caught error is modelled by its message only. Every error object is truthy, so `if (error)` holds exactly when an error was caught.
- Page.Dashboard.OnFetchResult requires the page to be loading. The effect has an empty dependency list, so it runs once, at mount, before anything else changes the state.
- Page.Dashboard.SelectDivision requires the Ready mode and a value among the selector's options. The selector is rendered only on the dashboard, and the change event carries the value of one of its options.
- backend/main.py: its routing, CORS setup and CSV loading, and its per-division endpoint, which lower-cases with pandas and is never called by the dashboard. That endpoint is not part of this model.
