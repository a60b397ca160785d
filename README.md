# Workflow builder: dashboard list and node configuration panel

A model, in Dafny, of the two pieces of client-side state logic in a
browser-based workflow builder.

- **Dashboard list** (`app/dashboard/page.tsx`). The page starts from fifteen
  generated mock workflows. A search box filters them by a case-insensitive
  substring of the workflow's name or id. The filtered list is shown eight rows
  per page; a new search goes back to page 1. At most one row is expanded to show
  its execution history, and clicking a row's chevron toggles it. Module
  `Dashboard` (dashboard.dfy) holds the data, the filter and pagination as
  functions with lemmas, and the component state as the class `DashboardPage`.
  Its invariant `Valid()` says that the shown list is the filter of the
  workflows by the current term and that the current page is 1 or one of the
  pages the pagination bar offers.
- **Node configuration panel** (`components/node-config-panel.tsx`). The panel
  edits the selected node's configuration record by key. For API nodes it also
  edits an ordered list of `{name, value}` header rows: append a blank row, set
  one field of a row, remove a row. Every edit stores the new record and passes
  the same record to `onConfigChange`. Module `NodeConfigPanel`
  (node_config_panel.dfy) holds the three header edits as functions on
  sequences with lemmas. The class `ConfigPanel` holds the panel state: `node`,
  `config`, and `sent`, the records passed to `onConfigChange`, oldest first.

Helper modules: `Text` (text.dfy) has ASCII lower-casing, JavaScript's
`String.prototype.includes`, and decimal rendering of numbers. `Seqs`
(seqs.dfy) has subsequence and concatenation. `Wrappers` (wrappers.dfy) has
`Option`.

Toggling the same row twice restores the previous state only when no row or
that same row was expanded before. If another row was expanded, the first
toggle moves the expansion to this row and the second collapses it.
`Dashboard.ToggleTwice` proves this exact condition in both directions.

## Model

| member | source | states |
|---|---|---|
| `Text.Lower` | app/dashboard/page.tsx:63-64 | lower-casing keeps the length, lower-cases each character and leaves no upper-case letter |
| `Text.LowerIdempotent` | app/dashboard/page.tsx:63-64 | lower-casing an already lower-cased string changes nothing |
| `Text.IncludesIffSubstring` | app/dashboard/page.tsx:63-64 | `includes` (the definition `Text.Includes`) holds exactly when the needle occurs at some position of the string |
| `Text.IncludesEmpty` | app/dashboard/page.tsx:63-64 | every string includes the empty string |
| `Text.DecimalString` | app/dashboard/page.tsx:24 | the rendering of a number in an id is a non-empty run of digits with no leading zero |
| `Text.ParseDecimalRoundTrip` | app/dashboard/page.tsx:24 | reading the rendered digits back gives the number |
| `Text.DecimalStringInjective` | app/dashboard/page.tsx:24 | different numbers render differently |
| `Dashboard.MockWorkflowsShape` | app/dashboard/page.tsx:21-34 | the generated list `Dashboard.MockWorkflows` has 15 mock workflows; entry i has id "#" followed by 494+i; it passed iff i % 3 == 0; three executions each, the middle one failed |
| `Dashboard.MockIdsFirstAndLast` | app/dashboard/page.tsx:21-24 | the ids run from "#494" to "#508" |
| `Dashboard.MockIdsDistinct` | app/dashboard/page.tsx:24 | no two mock workflows share an id |
| `Dashboard.Filter` | app/dashboard/page.tsx:61-65 | the filtered list is no longer than the input |
| `Dashboard.FilterMembership` | app/dashboard/page.tsx:61-65 | a workflow is kept iff it is in the list and its lower-cased name or id includes the lower-cased term (`Matches`) |
| `Dashboard.FilterCount` | app/dashboard/page.tsx:61-65 | every copy of a matching workflow is kept and every copy of a non-matching one is dropped, so the filter is pinned down even for repeated rows |
| `Dashboard.MatchesIffSubstring` | app/dashboard/page.tsx:62-64 | the search test (the definition `Dashboard.Matches`) holds iff the lower-cased term is a substring of the lower-cased name or of the lower-cased id |
| `Dashboard.FilterIsSubsequence` | app/dashboard/page.tsx:61 | the filtered list is an order-preserving subsequence of the workflows |
| `Dashboard.FilterKeepsAllIff` | app/dashboard/page.tsx:61-65 | the filter returns the whole list iff every workflow matches |
| `Dashboard.FilterEmptyTerm` | app/dashboard/page.tsx:63-64 | an empty search term keeps every workflow |
| `Dashboard.FilterIdempotent` | app/dashboard/page.tsx:61-65 | filtering the filtered list again changes nothing |
| `Dashboard.TotalPages` | app/dashboard/page.tsx:46-47 | the page count is the ceiling of the length over 8: enough pages for every row, and no page more |
| `Dashboard.Slice` | app/dashboard/page.tsx:96 | `slice` with ends clamped to the length returns the elements from `start` on, as many as fit before `end` |
| `Dashboard.PageItems` | app/dashboard/page.tsx:93-97 | a page holds at most 8 rows, the rows from `(page-1)*8` on, and is non-empty iff the page number is at most `totalPages` |
| `Dashboard.PageItemsInRange` | app/dashboard/page.tsx:93-97 | for `1 <= page <= totalPages` the page is exactly the rows from `(page-1)*8` up to `min(page*8, n)` |
| `Dashboard.PagesUpTo` | app/dashboard/page.tsx:198 | the list of pages 1..k has k entries, entry i being page i+1 |
| `Dashboard.PagesUpToFlatten` | app/dashboard/page.tsx:93-97 | the first k pages concatenated are the first `min(8k, n)` rows |
| `Dashboard.PagesPartition` | app/dashboard/page.tsx:93-97 | pages 1..totalPages concatenated give back the list exactly, and each holds 1 to 8 rows |
| `Dashboard.Toggled` | app/dashboard/page.tsx:85-91 | toggling collapses iff the row was the expanded one, and otherwise expands that row |
| `Dashboard.ToggleTwice` | app/dashboard/page.tsx:85-91 | toggling the same row twice restores the state iff no row or that row was expanded |
| `Dashboard.DashboardPage.constructor` | app/dashboard/page.tsx:38-42 | initial state: empty term, whole list shown, page 1, nothing expanded; the invariant holds |
| `Dashboard.Mount` | app/dashboard/page.tsx:21-42 | the page first renders with the mock workflows as both the full and the shown list |
| `Dashboard.DashboardPage.Search` | app/dashboard/page.tsx:59-68 | a new term re-filters the workflows and resets the current page to 1, keeping the invariant |
| `Dashboard.DashboardPage.GoToPage` | app/dashboard/page.tsx:198-201 | a page link sets the current page to a page in range, keeping the invariant |
| `Dashboard.DashboardPage.ToggleExpand` | app/dashboard/page.tsx:85-91 | the expanded row becomes `Toggled` of the previous one |
| `Dashboard.DashboardPage.GetCurrentPageItems` | app/dashboard/page.tsx:93-97 | the rows of the current page: at most 8, non-empty whenever some workflow matches, all matching the term |
| `Dashboard.DashboardPage.AtMostOneRowExpanded` | app/dashboard/page.tsx:166-172 | among rows with distinct ids, at most one shows its execution history |
| `NodeConfigPanel.MethodShownDefault` | components/node-config-panel.tsx:60 | for the shown method (`MethodShown`): with no method set, GET is shown; after choosing a method, that method is shown, or GET if it is empty |
| `NodeConfigPanel.WithField` | components/node-config-panel.tsx:32 | setting one field of a row gives it the new value and keeps the other field |
| `NodeConfigPanel.HeadersWithField` | components/node-config-panel.tsx:30-34 | editing row `index` sets only that field of that row; the other field, the other rows and the length are unchanged |
| `NodeConfigPanel.HeadersAppended` | components/node-config-panel.tsx:36-39 | appending adds exactly one row, a blank one, at the end, and keeps the earlier rows |
| `NodeConfigPanel.HeadersRemoved` | components/node-config-panel.tsx:41-45 | removing row `index` shortens the list by one: rows before it stay, rows after it move down by one |
| `NodeConfigPanel.RemoveAppended` | components/node-config-panel.tsx:36-45 | removing the row just added restores the rows before |
| `NodeConfigPanel.RemovedKeepsOrder` | components/node-config-panel.tsx:41-45 | after a removal the remaining rows are a subsequence of the old rows, in their order |
| `NodeConfigPanel.RemovedExactlyOne` | components/node-config-panel.tsx:41-45 | a removal takes away exactly one occurrence of the removed row |
| `NodeConfigPanel.EditTwiceLastWins` | components/node-config-panel.tsx:30-34 | editing the same field of a row twice equals editing it once with the last value |
| `NodeConfigPanel.EditWithCurrentValue` | components/node-config-panel.tsx:30-34 | writing a field's current value back changes nothing |
| `NodeConfigPanel.MissingHeadersAreEmpty` | components/node-config-panel.tsx:31-42 | for the header rows a record holds (`HeadersOf`): a record with no `headers` entry has no header rows, and adding a header to it gives one blank row |
| `NodeConfigPanel.HeadersOfStored` | components/node-config-panel.tsx:31-33 | the header list stored under `headers` is the list the next header edit starts from |
| `NodeConfigPanel.ConfigPanel.constructor` | components/node-config-panel.tsx:17-18 | the panel starts with `ConfigOf(node)`: the node's configuration, or an empty record, and has sent nothing |
| `NodeConfigPanel.ConfigPanel.SelectNode` | components/node-config-panel.tsx:20-22 | a new node replaces the record by its configuration, or by an empty record if it has none |
| `NodeConfigPanel.ConfigPanel.HandleChange` | components/node-config-panel.tsx:24-28 | `key` maps to the new value and every other key is unchanged; the same record is stored and sent |
| `NodeConfigPanel.ConfigPanel.HandleHeaderChange` | components/node-config-panel.tsx:30-34 | the header rows become `HeadersWithField` of the old rows, nothing else in the record changes, and the record is sent |
| `NodeConfigPanel.ConfigPanel.AddHeader` | components/node-config-panel.tsx:36-39 | the header rows become `HeadersAppended` of the old rows, nothing else changes, and the record is sent |
| `NodeConfigPanel.ConfigPanel.RemoveHeader` | components/node-config-panel.tsx:41-45 | the header rows become `HeadersRemoved` of the old rows, nothing else changes, and the record is sent |

## Left out

- Login (`app/page.tsx`), the root layout, the node renderers under `components/nodes/` and the graph canvas of the workflow editor: I/O, timers, routing and rendering, with no logic to state. app/workflow-editor/[id]/page.tsx, which receives `onConfigChange`, is not part of this model.
- The dashboard's login check (lines 49-57), execute dialog and toast (70-79), edit navigation (81-83) and all markup.
- `toLowerCase` is modelled for ASCII letters only; Unicode case mapping is not modelled.
- `Dashboard.Slice` models `slice` for non-negative arguments only. The current page is always at least 1, so the start index is never negative.
- Header edits require a valid row index. The form only passes indices of rows it lists, so JavaScript's behaviour for out-of-range or negative indices in the index write and `splice` is not modelled.
- `config.headers || []` when `headers` holds a non-empty string: JavaScript would spread it into characters. Only the header edits write `headers`, so this case is not modelled and such a value counts as no rows.
- `handleHeaderChange` with a field name other than `name` or `value`, which would add a new key to the row; the form never passes one.
- Configuration values other than text and the header list, and the node's label, position and status.
- `onClose` and what the editor does with the records passed to `onConfigChange`; the callback is modelled only as the log `sent`.
- React rendering and effect scheduling. Each handler is one atomic state change. `Dashboard.DashboardPage.Search` is the search box's `setSearchTerm` followed by the filter effect. It is meant for a term that differs from the current one: the input fires `onChange` only on a change, and React would skip the update and the effect for an equal term, keeping the current page, whereas `Search` with the same term resets the page to 1. The effect also reruns when `workflows` changes, but nothing ever sets `workflows`.
- The copy made by `[...(config.headers || [])]` is implicit: sequences are values, so no edit can alias the stored list.
