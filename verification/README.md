# Crypto tracker dashboard — a Dafny model of its view logic

The dashboard lists the top coins by market capitalisation and lets the user
search them, shows one coin's metadata and price chart on a detail page, and
has a light/dark theme switch. Its only decision logic sits inside four React
components. This project models that logic in Dafny and proves what it does:

- **List view** (`src/App.tsx`, module `CoinList`, file `coin_list.dfy`).
  The search filter is modelled as `Array.prototype.filter` with the
  case-insensitive name-or-symbol test. The fetch lifecycle over
  `coins`/`loading`/`error` is the class `CoinListView`. Each of its event
  methods is tied to the pure transition `Settle`. Lemmas about `Run`, which
  applies settled responses in arrival order, prove last-response-wins, the
  first-settle-only `loading` flag, the sticky `error` and when the table
  renders.
- **Detail view** (`src/pages/CoinDetailPage.tsx`, module `CoinDetail`,
  file `coin_detail.dfy`). The shallow merge of each response into the held
  coin, the no-op without a route `coinId`, the render-branch priority, the
  language-based choice of description with its English fallback, and the
  500-character truncation. The class `CoinDetailView` holds the state hooks.
- **Chart** (`src/components/CoinChart.tsx`, module `CoinChart`, file
  `coin_chart.dfy`). The five-valued window, the projection of
  `[timestamp, price]` samples into labels and one dataset, the choice of label
  format, the requests in flight (one on mount, one per change of window),
  the buttons that exist only once a chart shows, and the rule that a
  failed fetch leaves the previous chart in place. The class `CoinChartView`
  holds the state hooks.
- **Theme switch** (`src/components/ThemeToggle.tsx`, module `Theme`, file
  `theme_toggle.dfy`). The initial theme read from storage, the toggle rule,
  the write-back effect on a `Browser` object (local storage and document
  attributes) and the checkbox state.
- Shared helpers: `common.dfy` (module `Common`: the nullable `Option` and
  JavaScript truthiness of a `string | null`) and `text.dfy` (module `Text`:
  case mapping, `includes`, and the language key `code.split('-')[0]`).

External inputs are parameters of the model:
- Network responses are event values: a success carrying the body, or a
  failure carrying the localized message current when it settled.
- The browser's HTML-to-text parser is the function `strip`.
- The `date-fns` formatter is the function `format`.

The model follows the code as written, including where it departs from what
a reader might expect:
- A successful poll does not clear an error set by an earlier failure
  (`src/App.tsx:31-34`, `src/pages/CoinDetailPage.tsx:41-44`). Once set, the
  error stays.
- The views test `error` for truthiness. A failure whose localized text is
  empty therefore hides nothing.
- A description map without the UI language and without `en` makes the page
  parse the text `undefined`.

The handlers test `if (loading)` against the value captured when the effect
ran. Whichever value that was, `loading` is false after any settle, and the
model states it that way.

## Model

| member | source | states |
|---|---|---|
| `Text.Lower` | src/App.tsx:57-58 | lower-casing keeps the length and maps each character by the (ASCII) lower-case rule |
| `Text.LowerOfUpper` | src/App.tsx:57-58 | lower-casing the upper-cased term gives the lower-cased term, so the term's case is forgotten |
| `Text.Includes` | src/App.tsx:57-58 | `includes`; the empty term is contained in every string |
| `Text.IncludesIff` | src/App.tsx:57-58 | `includes` holds exactly when the term occurs as a contiguous block at some offset |
| `Text.LangKey` | src/App.tsx:61 | the language key is a prefix of the code without `-`, followed in the code by `-` when shorter; a code without `-` is used unchanged |
| `Text.LangKeyOfRegional` | src/pages/CoinDetailPage.tsx:63 | the key of `lang-REGION` is `lang` |
| `CoinList.Filter` | src/App.tsx:56-59 | `filter` keeps exactly the accepted elements and is never longer than its input |
| `CoinList.FilterSelectsPositions` | src/App.tsx:56-59 | the filtered list is the elements at exactly the accepted positions, in increasing position order (an order-preserving subsequence) |
| `CoinList.FilterCoins` | src/App.tsx:56-59 | a coin is in the filtered list iff it is in `coins` and its lower-cased name or symbol contains the lower-cased term |
| `CoinList.FilterCoinsSelectsMatches` | src/App.tsx:56-59 | the filtered coins are exactly the matching positions of `coins`, in order |
| `CoinList.FilterEmptyTerm` | src/App.tsx:56-59 | the empty term returns every coin, unchanged and in order |
| `CoinList.FilterIgnoresTermCase` | src/App.tsx:56-59 | a term and its upper-case variant give the same list |
| `CoinList.FilterCoinsIdempotent` | src/App.tsx:56-59 | filtering the filtered list again with the same term changes nothing |
| `CoinList.FilterAgreeing` | src/App.tsx:56-59 | callbacks that agree on the list's elements filter it identically |
| `CoinList.FilterAcceptingAll` | src/App.tsx:56-59 | a callback accepting every element returns the list unchanged |
| `CoinList.FilterTwice` | src/App.tsx:56-59 | filtering twice with one callback equals filtering once |
| `CoinList.LanguageButtonsExclusive` | src/App.tsx:61-73 | at most one of the en/ru/ar buttons is highlighted, and `xx-REGION` highlights button `xx` |
| `CoinList.Settle` | src/App.tsx:31-39 | a success replaces `coins` wholesale and keeps `error`; a failure sets `error` and keeps `coins`; both leave `loading` false |
| `CoinList.RunLoading` | src/App.tsx:22-38 | `loading` is true only while no response has settled, and never becomes true again |
| `CoinList.RunCoins` | src/App.tsx:31-34 | the list is the body of the last success to arrive (last response wins), or the earlier list when none succeeded |
| `CoinList.RunError` | src/App.tsx:35-39 | `error` is the message of the last failure, or the earlier value when none failed; no success clears it |
| `CoinList.TableShownAfterRun` | src/App.tsx:93-96 | from mount, the table renders iff some response has settled and there was no failure or the last failure's text is empty |
| `CoinList.CoinListView.constructor` | src/App.tsx:21-24 | the view starts with no coins, loading, no error and an empty search term |
| `CoinList.CoinListView.OnResponse` | src/App.tsx:29-39 | the handlers move the state to `Settle` of the old state and leave the search term alone |
| `CoinList.CoinListView.OnSearchInput` | src/App.tsx:89 | typing sets the search term and nothing else |
| `CoinList.CoinListView.Rows` | src/App.tsx:96-107 | no rows unless the table renders; otherwise the filtered list itself, so by `FilterCoinsSelectsMatches` exactly the matching coins in provider order, duplicates kept |
| `CoinDetail.Merge` | src/pages/CoinDetailPage.tsx:42 | the merged coin has every key of the previous coin and the response; response values win; keys only in the previous coin keep their values |
| `CoinDetail.Settle` | src/pages/CoinDetailPage.tsx:41-49 | a success merges the body into the coin and keeps `error`; a failure sets `error` and keeps the coin; both clear `loading` |
| `CoinDetail.RunWithoutCoinId` | src/pages/CoinDetailPage.tsx:35 | without a route `coinId` no fetch happens and the state never changes |
| `CoinDetail.RunLoading` | src/pages/CoinDetailPage.tsx:31-48 | `loading` is cleared by the first settle, success or failure, and never set again |
| `CoinDetail.RunCoinFields` | src/pages/CoinDetailPage.tsx:42 | each field of the held coin carries the value from the last success that had it; fields no success had are kept, and no field is dropped |
| `CoinDetail.RunKeepsCoin` | src/pages/CoinDetailPage.tsx:42 | once a coin is held (or a success arrives) the coin is never reset to null |
| `CoinDetail.RunNoFailureKeepsError` | src/pages/CoinDetailPage.tsx:41-44 | successes alone never change `error` |
| `CoinDetail.Render` | src/pages/CoinDetailPage.tsx:69-79 | the branch is loading if `loading`; else error if `error` is truthy; else not-found if there is no coin; else the details |
| `CoinDetail.NoCoinIdLoadsForever` | src/pages/CoinDetailPage.tsx:31-71 | without a `coinId` the page stays on the loading branch whatever happens |
| `CoinDetail.DetailsAfterSuccesses` | src/pages/CoinDetailPage.tsx:41-79 | with a `coinId`, once a success has settled and nothing failed, the details branch renders |
| `CoinDetail.DescriptionSource` | src/pages/CoinDetailPage.tsx:63-64 | the entry for the language key when present and non-empty, otherwise the English entry (`undefined` when that is missing too) |
| `CoinDetail.DescriptionIgnoresRegion` | src/pages/CoinDetailPage.tsx:63 | `ru-RU` and `ru` choose the same description |
| `CoinDetail.LocalizedDescription` | src/pages/CoinDetailPage.tsx:61-66 | the empty string without a coin; a thrown error when the coin has no description object; otherwise the stripped text of the chosen entry |
| `CoinDetail.Truncate` | src/pages/CoinDetailPage.tsx:123 | text of at most 500 characters is shown as is; longer text is exactly its first 500 characters followed by `...` |
| `CoinDetail.TruncateBounds` | src/pages/CoinDetailPage.tsx:123 | the shown text is at most 503 characters and starts with the longest prefix of at most 500 characters of the input |
| `CoinDetail.TruncateIdempotent` | src/pages/CoinDetailPage.tsx:123 | truncating the shown text again changes nothing |
| `CoinDetail.AboutText` | src/pages/CoinDetailPage.tsx:81-123 | the "about" paragraph is the truncated localized description, and throws exactly when that does |
| `CoinDetail.CoinDetailView.constructor` | src/pages/CoinDetailPage.tsx:27-32 | the page starts with no coin, loading, no error |
| `CoinDetail.CoinDetailView.OnFetch` | src/pages/CoinDetailPage.tsx:35-50 | one fetch changes nothing without a `coinId`, and otherwise moves the state to `Settle` of the old state |
| `CoinChart.LabelFormat` | src/components/CoinChart.tsx:47 | the label format is `HH:mm` exactly when the window is one day, `dd/MM` otherwise |
| `CoinChart.PriceValues` | src/components/CoinChart.tsx:51 | the dataset values have the length of `prices` and value `i` is the price of sample `i` |
| `CoinChart.TimeLabels` | src/components/CoinChart.tsx:47 | one label per sample, label `i` the formatted timestamp of sample `i` |
| `CoinChart.Project` | src/components/CoinChart.tsx:46-59 | the chart has exactly one dataset labelled `Price (USD)`; labels and data both have the length of `prices`, in sample order |
| `CoinChart.Step` | src/components/CoinChart.tsx:39-67 | a click sets the window of its button and, when the window changes, puts a request for the new window in flight; a settled request leaves flight, a success storing the projection in that request's window format and a failure changing nothing else |
| `CoinChart.RunDaysOffered` | src/components/CoinChart.tsx:37-128 | the window and every request in flight are for one of {1, 7, 30, 90, 365} |
| `CoinChart.SettledWindowsOffered` | src/components/CoinChart.tsx:39-67 | every request that settles was sent for one of {1, 7, 30, 90, 365} |
| `CoinChart.RunChart` | src/components/CoinChart.tsx:40-63 | the chart is the projection of the last successful request; failures and presses never change it |
| `CoinChart.SkeletonNeverReturns` | src/components/CoinChart.tsx:106 | once chart data is held the skeleton is never shown again |
| `CoinChart.SkeletonKeepsInitialWindow` | src/components/CoinChart.tsx:106-128 | while the skeleton shows, which hides the buttons, the window stays 7 days and only the mount request can be in flight |
| `CoinChart.FailedMountFetchStaysSkeleton` | src/components/CoinChart.tsx:39-119 | when the mount request fails the skeleton shows with no button and no request in flight, so no further event can change it |
| `CoinChart.Decimal` | src/components/CoinChart.tsx:131 | a number renders as decimal digits that denote it, with no leading zero |
| `CoinChart.ButtonLabel` | src/components/CoinChart.tsx:131 | a button's caption is its number followed by `D` |
| `CoinChart.ButtonLabels` | src/components/CoinChart.tsx:125-131 | the captions are `1D`, `7D`, `30D`, `90D` and `365D` |
| `CoinChart.ExactlyOneButtonActive` | src/components/CoinChart.tsx:129 | for an offered window exactly one button is highlighted |
| `CoinChart.CoinChartView.constructor` | src/components/CoinChart.tsx:36-67 | the chart starts on the 7-day window with no data and the mount request for 7 days in flight |
| `CoinChart.CoinChartView.Press` | src/components/CoinChart.tsx:121-128 | a click, possible only once the chart shows, sets the window to its button's option, sends a request when the window changed and leaves the chart alone |
| `CoinChart.CoinChartView.OnChartResponse` | src/components/CoinChart.tsx:40-63 | the state moves by `Step`: the request leaves flight, with the projection stored on success and nothing else changed on failure |
| `Theme.InitialTheme` | src/components/ThemeToggle.tsx:5 | the initial theme is the stored `theme` value when non-empty, otherwise `dark`; it is never empty |
| `Theme.Toggled` | src/components/ThemeToggle.tsx:15 | the toggle gives `light` exactly for `dark`, and always `dark` or `light` |
| `Theme.ToggleTwice` | src/components/ThemeToggle.tsx:15 | two toggles return to `dark` or `light`; any other start value ends at `light` |
| `Theme.ToggledTimesAlternates` | src/components/ThemeToggle.tsx:14-16 | after n ≥ 1 toggles the theme alternates between the one-toggle and two-toggle results |
| `Theme.StoredThemeReloads` | src/components/ThemeToggle.tsx:5-11 | a theme written back to storage is the theme the next mount starts from |
| `Theme.CheckedAfterToggle` | src/components/ThemeToggle.tsx:15-25 | after one toggle the box is checked iff the theme was `dark` |
| `Theme.ThemeToggle.constructor` | src/components/ThemeToggle.tsx:5 | the switch mounts with the theme read from storage |
| `Theme.ThemeToggle.ApplyTheme` | src/components/ThemeToggle.tsx:7-12 | after the effect, the stored `theme` key and the `data-theme` attribute equal the theme, and no other key or attribute changed |
| `Theme.ThemeToggle.Toggle` | src/components/ThemeToggle.tsx:14-16 | `toggleTheme` replaces the theme by its toggled value |

## Left out

- Network I/O: the HTTP GET calls and their URLs (`src/App.tsx:27-30`, `src/pages/CoinDetailPage.tsx:37-40`, `src/components/CoinChart.tsx:42-44`). Each settled request is an input event instead.
- Timers and React scheduling. The 60-second `setInterval`/`clearInterval`, and the effect re-runs caused by `loading` and `t` in the dependency lists, are not modelled. Only the sequence of settled responses, in arrival order, is.
- The chart's re-fetch when `coinId` changes is not modelled. The charted coin is fixed for the life of the view. The re-fetch when `days` changes is modelled, as a request put in flight by the click that changes the window.
- Translation lookups (`t(...)`) and `i18n.changeLanguage` are outside the model. The error texts and the UI language code are inputs.
- HTML stripping by `DOMParser` is the parameter `strip`. Date formatting by `date-fns` is the parameter `format`. Number formatting (`toLocaleString`, `toFixed`) is not modelled.
- Floating point is not modelled: prices are `real`, timestamps `int`.
- Text.Lower: uses ASCII case mapping, not the full Unicode mapping of `toLowerCase`. The filter lemmas hold for this mapping.
- CoinDetail.Truncate: counts characters where JavaScript counts UTF-16 code units. The two differ for text outside the Basic Multilingual Plane.
- CoinDetail.LocalizedDescription: entries of the description object that are not strings count as absent. A description field that is not an object or null has no entries. JavaScript would read character-index keys of a string and coerce non-string entries.
- JSX layout, CSS modules, Chart.js registration and chart options (`src/components/CoinChart.tsx:20-29, 69-104`), the skeleton's shapes and the coin figures of the detail page.
- The row click's navigation to `/coin/{id}` (`src/App.tsx:108`). Routing is not modelled: src/main.tsx and src/i18n.ts are not part of this model.
- `console.error` logging.
