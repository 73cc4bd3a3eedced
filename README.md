# CaseFlow cases core, modelled in Dafny

CaseFlow is a small browser demo. It fetches public posts and turns each one
deterministically into a synthetic "risk case". It then shows the cases
through a single store slice that supports filtering and selection. This
project models that slice's logic and proves properties of it:

- **Case builder** (`CaseBuilder`, `case_builder.dfy`). Category and status
  each depend on `id % 3`. The score is `(id * 13) % 101`. The two signals
  come from a five-entry table and are de-duplicated. The subject is a
  company or a "First Last" person, depending on the parity of `userId`. The
  summary is a templated sentence.
- **Cases store** (`CasesStore`, `cases_store.dfy`). The class `CaseStore`
  holds `items`, `selectedCaseId`, `statusFilter`, `isLoading` and `error`.
  Its reducers are `modifies this` methods: select, set filter, and the
  pending / fulfilled / rejected outcomes of a load. `Load` runs one whole
  load. The selectors are pure functions of the state's fields: visible
  cases, visible count, status counts and the selected case. The status
  counts are a loop, as the source's `reduce` is.
- **Case list** (`CaseList`, `case_list.dfy`). `shorten` is summary
  truncation with `trimEnd` and an ellipsis. The click handler selects a case
  and then filters by its status.
- **Risk bar** (`RiskBar`, `risk_bar.dfy`). The score defaults to 0. It falls
  into one of three colour bands, and the bar's CSS width is the score in
  percent.
- Helpers for the JavaScript built-ins the core uses: `Wrappers` (`null` as
  `Option`), `Sequences` (`indexOf` and the first-occurrence `filter`) and
  `Strings` (number-to-text, `join`, `trimEnd`, template concatenation,
  substring containment).

The selection is `Option<int>`, where `None` is `null`. The error is
`Option<string>`. The status filter is `ALL | Only(status)`.

On a rejected load the error is `payload || error.message || "Unknown error"`
(src/features/cases/casesSlice.js:197-200): empty strings count as absent.

The reload button (src/components/CaseFilters.jsx:29) dispatches
`fetchCases()` without resetting the filter, so `Load` keeps `statusFilter`.

## Model

| member | source | states |
|---|---|---|
| `CaseBuilder.RiskCategoryFromId` | src/features/cases/casesSlice.js:46-47 | the category is AML, KYC or FRAUD exactly when `id % 3` is 0, 1 or 2 |
| `CaseBuilder.StatusFromId` | src/features/cases/casesSlice.js:50-51 | the status is OPEN, REVIEW or CLOSED exactly when `id % 3` is 0, 1 or 2 |
| `Sequences.IndexOf` | src/features/cases/casesSlice.js:58 | `indexOf` gives the first position of the value, or -1 exactly when it is absent |
| `Sequences.Dedup` | src/features/cases/casesSlice.js:58 | the first-occurrence filter gives a repeat-free list with the same elements, in the order of their first occurrences, no longer than the input, and leaves a repeat-free input unchanged |
| `CaseBuilder.SignalPositionsDiffer` | src/features/cases/casesSlice.js:56-57 | the two signal positions `id % 5` and `(id + 2) % 5` never coincide |
| `CaseBuilder.SignalsFromId` | src/features/cases/casesSlice.js:54-58 | the signals are exactly the entries at `id % 5` and `(id + 2) % 5`: two distinct table entries, so de-duplication never removes one |
| `CaseBuilder.CompanyIsNoPerson` | src/features/cases/casesSlice.js:15-17 | no company in the company table reads as a first name, a space and a last name from the people tables |
| `CaseBuilder.SubjectNameFrom` | src/features/cases/casesSlice.js:61-66 | an even `userId` gives a name from the company table, an odd one a first name, a space and a last name from the people tables |
| `CaseBuilder.SubjectNameKind` | src/features/cases/casesSlice.js:61-66 | an even `userId` gives the company at `(id + userId) % 3`, an odd one gives the person `(userId + id) % 5` / `(id * 7) % 5`, and the name is a company exactly when `userId` is even |
| `Strings.NatToString` | src/features/cases/casesSlice.js:79 | `${n}` is a non-empty string of decimal digits, starting with "0" only for 0, one digit exactly below 10 |
| `Strings.NatToStringRoundTrip` | src/features/cases/casesSlice.js:79 | the score's decimal text in the summary reads back as the score |
| `Strings.Join` | src/features/cases/casesSlice.js:80 | joining no parts gives "", one part gives that part, and the result contains every part |
| `Strings.JoinSnoc` | src/features/cases/casesSlice.js:80 | appending a part appends the separator and that part, so the parts appear in order with one ", " between neighbours |
| `CaseBuilder.SignalsClause` | src/features/cases/casesSlice.js:80 | the " Key signals: …." clause is empty exactly when there are no signals, and otherwise is " Key signals: ", then the signals joined by ", " (as `Join` and `JoinSnoc` fix it), then "."; it names every signal |
| `CaseBuilder.EnglishSummary` | src/features/cases/casesSlice.js:69-81 | the summary starts with "Investigation note: We flagged " and ends with "." |
| `CaseBuilder.SummaryMentions` | src/features/cases/casesSlice.js:69-81 | the summary names the subject, category, reason `REASONS[id % 5]`, status, score and every signal; it is the fixed head ending in "/100." followed by the signals clause, so the " Key signals: " suffix is present exactly when there are signals |
| `CaseBuilder.BuildCase` | src/features/cases/casesSlice.js:88-105 | the case copies the post's id; its score is `(id * 13) % 101`, in 0..100; category and status are from their tables and pair AML/OPEN, KYC/REVIEW, FRAUD/CLOSED; it has 1 to 2 distinct signals from the signal table; its fields come from the helpers |
| `CaseBuilder.BuildCaseIgnoresText` | src/features/cases/casesSlice.js:88-105 | two posts with the same `id` and `userId` give the same case, so the builder is deterministic |
| `CaseBuilder.BuildCases` | src/features/cases/casesSlice.js:126 | mapping the posts gives one case per post, in order, each built from its own post |
| `CaseBuilder.ScenarioUser1Post7` | tests/casesSlice.test.js:7-19 | `{userId: 1, id: 7}` gives KYC, REVIEW, score 91, "Taylor Johnson" and two signals |
| `CaseBuilder.ScenarioUser2Post10` | tests/casesSlice.test.js:24-26 | `{userId: 2, id: 10}` gives score 29 and "Northstar Trading" |
| `CasesStore.CaseStore.constructor` | src/features/cases/casesSlice.js:140-146 | the initial state has no items, no selection, filter ALL, not loading and no error, and its selection is resolved |
| `CasesStore.CaseStore.SelectCase` | src/features/cases/casesSlice.js:159-161 | the selection becomes the given id without any existence check, and nothing else changes; selecting an id among the items keeps the selection resolved |
| `CasesStore.CaseStore.SetStatusFilter` | src/features/cases/casesSlice.js:164-166 | the filter becomes the given one, and nothing else changes |
| `CasesStore.CaseStore.LoadPending` | src/features/cases/casesSlice.js:173-176 | loading is set and the error is cleared; items, selection and filter are untouched |
| `CasesStore.HasId` | src/features/cases/casesSlice.js:185-187 | the scan is true exactly when some item has the id |
| `CasesStore.RevalidatedSelection` | src/features/cases/casesSlice.js:183-191 | a selection naming a new item is kept, otherwise the first new item's id is taken; the result is none exactly when there are no items, and otherwise names an item |
| `CasesStore.CaseStore.LoadFulfilled` | src/features/cases/casesSlice.js:179-192 | loading ends, the items are replaced wholesale and the selection is revalidated, so the selection is never dangling afterwards; filter and error stay |
| `CasesStore.SelectionResolvesAfterLoad` | src/features/cases/casesSlice.js:183-191 | after revalidation the selected-case query finds a case exactly when there are items |
| `CasesStore.RejectionMessage` | src/features/cases/casesSlice.js:197-200 | the error is the first non-empty value of payload and error message, else "Unknown error"; it is never empty |
| `CasesStore.CaseStore.LoadRejected` | src/features/cases/casesSlice.js:195-201 | loading ends and the error is set to the rejection message; items, selection and filter are untouched |
| `CasesStore.CaseStore.Load` | src/features/cases/casesSlice.js:170-201 | after a pending state and a fetch, the new items are the built posts with the selection resolved and no error; after a failure, the old items and selection remain with the rejection message |
| `CasesStore.ScenarioSelectionMovesToFirst` | src/features/cases/casesSlice.js:183-191 | items 1 and 2 with 2 selected, reloaded with items 3 and 4, end with selection 3, never 2 |
| `CasesStore.ScenarioEmptyLoad` | src/features/cases/casesSlice.js:189-190 | a load with no cases leaves no selection |
| `CasesStore.SelectedCase` | src/features/cases/casesSlice.js:231-234 | the result is the first item whose id is the selection; it is none exactly when there is no selection or no item has that id |
| `CasesStore.FilterByStatus` | src/features/cases/casesSlice.js:239-241 | the filtered list holds exactly the items of that status, and is no longer than the items |
| `CasesStore.FilterByStatusAppend` | src/features/cases/casesSlice.js:239-241 | filtering distributes over concatenation, so it preserves order |
| `CasesStore.FilterByStatusAllMatch` | src/features/cases/casesSlice.js:239-241 | when every item has the status, the filter returns all items |
| `CasesStore.Take` | src/features/cases/casesSlice.js:242 | `slice(0, n)` is a prefix of length `min(n, length)` |
| `CasesStore.VisibleCases` | src/features/cases/casesSlice.js:236-242 | at most 30 cases; under ALL the first `min(30, n)` items; otherwise the prefix of length `min(30, m)` of the `m` items with that status; every visible case is an item matching the filter |
| `CasesStore.ScenarioFortyOpen` | src/features/cases/casesSlice.js:236-242 | forty OPEN items under the OPEN filter show exactly the first thirty, and the count is 30 |
| `CasesStore.VisibleCount` | src/features/cases/casesSlice.js:244-245 | the count is `min(30, n)` under ALL and `min(30, count of that status)` otherwise, so it is at most 30 |
| `CasesStore.CountOfIsFilterLength` | src/features/cases/casesSlice.js:247-254 | the counted number of a status equals the length of the filtered list for it |
| `CasesStore.CountsSumToLength` | src/features/cases/casesSlice.js:247-254 | the three status counts sum to the number of items |
| `CasesStore.StatusCounts` | src/features/cases/casesSlice.js:247-254 | the result has exactly the keys OPEN, REVIEW and CLOSED, each holding the number of items of that status; the filter is not an input |
| `CasesStore.VisibleUnderOwnStatus` | src/components/CaseList.jsx:38-44 | a visible case is still visible once the filter is set to its own status |
| `CaseList.OnCaseClick` | src/components/CaseList.jsx:38-44 | afterwards the case is selected and its status is the filter; the items are untouched; a case visible before is visible after; a resolved selection stays resolved |
| `Strings.TrimEnd` | src/components/CaseList.jsx:15 | `trimEnd` gives the longest prefix not ending in white space, and everything removed is white space |
| `CaseList.Shorten` | src/components/CaseList.jsx:15 | empty text gives "", text of at most `n` characters is unchanged, and longer text gives at most `n + 1` characters: a prefix of its first `n` characters with no trailing white space, then "…" |
| `CaseList.ShortenSummary` | src/components/CaseList.jsx:61 | with the default length 120, a summary is shown in at most 121 characters and short ones are shown whole |
| `RiskBar.Score` | src/components/RiskBar.jsx:7 | the score is the selected case's risk score, or 0 without a selection |
| `RiskBar.BandOf` | src/components/RiskBar.jsx:8 | red exactly at 70 and above, amber exactly from 40 to 69, green exactly below 40 |
| `RiskBar.Color` | src/components/RiskBar.jsx:8 | the fill is #d14343 from 70 up, #d39b2a from 40 to 69 and #2c8a4a below 40 |
| `RiskBar.BandMonotone` | src/components/RiskBar.jsx:8 | a higher score never falls in a lower band |
| `RiskBar.BarWidth` | src/components/RiskBar.jsx:12 | the width is the score's decimal digits followed by "%", and reads back as the score |
| `RiskBar.BarWithinBounds` | src/components/RiskBar.jsx:12 | for cases from the builder the bar width is between 0% and 100%, whatever is selected |

## Left out

- The HTTP request, the `res.ok` check and the JSON decoding in `fetchCases` are I/O and are not modelled. `Load` takes their outcome as input: the posts, or the rejected action's payload and error message. The thunk's fallback text `err?.message ?? "Failed to fetch cases"` is therefore part of the rejected payload given to it.
- The Redux Toolkit machinery is not modelled: `createSlice`, `createAsyncThunk`, action creators, the store in `src/app/store.js` and the root selector. The reducers are called directly as methods.
- React rendering and markup are not modelled: `src/App.jsx`, `src/components/CaseDetails.jsx`, `src/components/CaseFilters.jsx`, `src/main.jsx` and the JSX in the list and bar.
- Overlapping loads are not modelled. `Load` runs one pending step followed by its own settlement.
- Post ids and user ids are natural numbers. JavaScript's `%` differs from Dafny's on negative operands, and the fetched ids are positive.
- JavaScript numbers are doubles. `id * 13` is exact only below 2^53 / 13. The model's integers are unbounded.
- Filter values outside ALL / OPEN / REVIEW / CLOSED are not modelled, and neither are case statuses outside the three. With such a status, `selectStatusCounts` would add a fourth key.
- Items may share an id, as in the source. Nothing enforces uniqueness, and the selected case is then the first match.
- Shorten: lengths are counted in Unicode scalar values, not UTF-16 code units. Falsy inputs other than the empty string (`null`, `undefined`) are not modelled.
