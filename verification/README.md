# Finance tracker: transaction view pipeline and demo user registry

This project is a Dafny model of the browser side of a small personal
finance tracker. It covers:

- the transaction filter of `js/filters.js`;
- the local list view of `js/app.js`: summary cards, category badges,
  pagination and the add-transaction form;
- the chart series of `js/charts.js`: expenses per category and daily
  cash flow;
- the parts of the server-backed dashboard (`scripts/dashboard.js`) that
  compute: `clamp`, `escapeHtml`, the query-string filter, avatar
  initials, the seven-button page window, the dashboard's chart
  aggregation, and the receipt-import preview (normalise, edit, delete,
  running total, commit);
- the demo user registry of `js/auth.js`: signup, login, logout and the
  dashboard guard.

Amounts are integers (minor units). The dates of `js/` are `(year, month,
day)` triples ordered chronologically. The dates of the dashboard are the
backend's strings, and its month keys are their first seven characters.
JavaScript objects used as dictionaries become association lists that
keep their keys in insertion order (`Tally.Table`). `Object.keys` and
`Object.values` read them in that order.

State the source changes in place is held in classes:

- `ListView.TransactionList`: the `transactions` array and `currentPage`;
- `DashboardState.Dashboard`: `window.state`;
- `Auth.Registry`: the two `localStorage` keys.

The loops of the source (bucket accumulation, button rendering, the
sequential import requests, `users.find`) are methods with loop
invariants. Each is proved against a function that specifies it.

Modules by file:

| file | module | models |
|---|---|---|
| wrappers.dfy | Wrappers | `Option` |
| seqs.dfy | Seqs | `filter`, `map`, `reduce` sums, `sort` with a comparator |
| text.dfy | Text | ASCII case mapping, `includes`, `slice`, `trim`, `split(' ')`/`join`, `sort()` order |
| records.dfy | Records | transaction records and dates |
| filters.dfy | Filters | js/filters.js |
| summary.dfy | Summary | `updateSummary` |
| badge.dfy | Badge | `badgeClassForCategory` |
| paging.dfy | Paging | page arithmetic of `renderList` |
| list_view.dfy | ListView | the rest of js/app.js |
| tally.dfy | Tally | insertion-ordered dictionaries filled by a loop |
| charts.dfy | Charts | js/charts.js |
| dashboard_helpers.dfy | DashboardHelpers | `qs`, `clamp`, `escapeHtml`, initials |
| dashboard_charts.dfy | DashboardCharts | `refreshCharts` aggregation |
| preview.dfy | Preview | `normalizePreviewItem`, preview total, edits, commit selection |
| dashboard_state.dfy | DashboardState | `window.state` and its handlers |
| auth.dfy | Auth | js/auth.js |

## Model

| member | source | states |
|---|---|---|
| Filters.FilterTransactions | js/filters.js:1-9 | The result is a subsequence of the list. Every kept record has the requested type, a date on or after `from` and on or before `to` (both inclusive). Every record that matches is kept, with its multiplicity. |
| Filters.FilterAllIsIdentity | js/filters.js:1-8 | With type `all` and no bounds, the list comes back unchanged. |
| Filters.FilterIdempotent | js/filters.js:1-8 | Filtering twice with the same arguments gives the result of filtering once. |
| Filters.FilterAppend | js/filters.js:2-8 | Filtering a concatenation is the concatenation of the filtered parts, so the relative order is kept. |
| Seqs.Select | js/filters.js:2 | `Array.prototype.filter`: no longer than the input, and every kept element is from the input and passes the test. |
| Seqs.SelectIsSubseq | js/filters.js:2-8 | What `filter` keeps is a subsequence of its input. |
| Seqs.SelectCount | js/filters.js:2-8 | `filter` keeps exactly the copies of the elements that pass the test. |
| Seqs.SelectAll | js/filters.js:2-8 | A test every element passes keeps the whole list. |
| Seqs.SelectAppend | js/filters.js:2-8 | `filter` distributes over concatenation. |
| Summary.UpdateSummary | js/app.js:20-38 | Income is the sum over the income records, expense the sum over the expense records, and the balance is income minus expense. |
| Summary.TotalsPerRecord | js/app.js:25-31 | The filter-then-reduce totals equal per-record sums in which a record adds its amount to its own column only. |
| Summary.TotalsAppend | js/app.js:25-33 | The totals and the balance of a concatenation are the sums of the parts' totals and balances. |
| Summary.AppendOne | js/app.js:25-31 | Appending one record adds its amount to the total of its own type only. |
| Summary.AppendMovesBalance | js/app.js:33 | Appending one record moves the balance up by an income amount, down by an expense amount, and not at all for any other type. |
| Summary.OtherCountsNeither | js/app.js:25-31 | A record of a type other than income or expense changes neither total. |
| Summary.TotalsNonNegative | js/app.js:25-31 | With no negative amounts, both totals are non-negative. |
| Seqs.SumSelected | js/app.js:25-31 | Summing over the filtered records equals summing, over all records, a term that is zero for the records the filter drops. |
| Seqs.SumAppend | js/app.js:25-27 | `reduce` with `+` distributes over concatenation. |
| Seqs.SumNonNegative | js/app.js:25-27 | A sum of non-negative terms is non-negative. |
| Badge.BadgeClassForCategory | js/app.js:41-49 | The chosen tag's keyword occurs in the lower-cased category, and no keyword of an earlier rule does. |
| Badge.BadgeIgnoresCase | js/app.js:42 | Lower-casing the category first changes nothing. |
| Badge.EmptyCategoryIsMisc | js/app.js:42-48 | A missing or empty category is `misc`. |
| Badge.GroceryShoppingIsShopping | js/app.js:43-47 | "Grocery Shopping" falls through the first four rules to `shopping`. |
| Badge.FoodRuleComesFirst | js/app.js:43-46 | A category holding both "food" and "salary" is `food`: the first matching rule wins. |
| Badge.MissingCharExcludes | js/app.js:43-47 | A keyword with a character the label lacks cannot match. |
| Paging.TotalPages | js/app.js:61 | At least one page, and exactly one for no records; the pages hold all records, and no page beyond the first is empty. |
| Paging.ClampPage | js/app.js:62 | The page is at most the page count. An in-range page is kept, and a positive page stays positive. |
| Paging.PageItems | js/app.js:63-64 | At most `PAGE_SIZE` records: exactly the records from `(page-1)*PAGE_SIZE` on, in order. A short page is the last. A page within range of a non-empty list is not empty. |
| Paging.ClampedPageIsLast | js/app.js:61-64 | A page past the end becomes the last page, which is not empty when the list is not. |
| Paging.PagesFromIsSuffix | js/app.js:61-64 | The pages from `p` on are the suffix of the list from `(p-1)*PAGE_SIZE`. |
| Paging.PagesPartitionList | js/app.js:61-64 | The pages from the first, laid end to end, are the whole list. |
| Paging.TwelveRecordsExample | js/app.js:61-64 | Twelve records give three pages: five on page 1, two on page 3, and page 100 is clamped to 3. |
| ListView.TransactionList.constructor | js/app.js:8-9 | The list starts with the given records on page 1. |
| ListView.TransactionList.RenderPagination | js/app.js:110-145 | There are no controls when there is at most one page. Otherwise Prev is disabled iff on page 1, one button per page disabled iff it is the current page, and Next is disabled iff on the last page. |
| ListView.OneCurrentButton | js/app.js:117-139 | With several pages and an in-range current page, exactly the current page's button is disabled, and Prev and Next are not both disabled. |
| ListView.TransactionList.RenderList | js/app.js:52-107 | Filters, clamps the page to the page count, and shows exactly `PageItems` of the filtered list, empty iff nothing passes the filter. Builds the controls, the summary of all records (not the filtered ones), and, when the chart code is loaded, the charts of all records (`Charts.ChartsOf`: every expense category with its sum, every day in order with its sums), whose sums equal the summary. |
| ListView.TransactionList.ClickPrev | js/app.js:118-121 | One page back (clamped) and re-rendered. |
| ListView.TransactionList.ClickNext | js/app.js:140-143 | One page forward, clamped to the last page by the re-render; below the last page it is exactly the next page, whose records are shown. |
| ListView.TransactionList.ClickPage | js/app.js:129-132 | Goes to the clicked page, clamped to the last page by the re-render (a button drawn before the date inputs changed can lie past it); shows that page's records. |
| ListView.TransactionList.ApplyFilter | js/app.js:180-189 | A filter change goes back to page 1 and shows at most `PAGE_SIZE` matching records. |
| ListView.TransactionList.SubmitTransaction | js/app.js:150-176 | A falsy amount or empty category is rejected and changes nothing. Otherwise exactly one record is appended, with id `length + 1` and the form's date or today. Sequential ids stay sequential, and the balance moves by the new amount. The list is re-rendered: the page is clamped to the new page count and shows that page of the filtered records, with the new summary. |
| ListView.SequentialIdsUnique | js/app.js:166 | Ids assigned as `length + 1` are pairwise distinct. |
| ListView.AppendNextId | js/app.js:165-172 | Pushing the record with id `length + 1` keeps the ids sequential. |
| Charts.ExpensesByCategory | js/charts.js:7-15 | One label per distinct category of an expense, and every such category is labelled. Each value is the sum of that category's expenses, and the values add up to the total expense. |
| Charts.CategoryKeys | js/charts.js:7-14 | The category dictionary's keys are distinct, and they are exactly the categories of the expense records. |
| Charts.DailyBucketKeys | js/charts.js:34-39 | One bucket per distinct day, and every day of a record has one. |
| Charts.DatesPresent | js/charts.js:41 | Any rearrangement of the bucket keys lists exactly the days of the records. |
| Charts.DailyBucketValue | js/charts.js:34-39 | A day's bucket holds the income and expense of that day's records, starting from zero. |
| Charts.DailySeriesSums | js/charts.js:41-43 | Read off in any order of the days, the buckets add up to the total income and the total expense. |
| Charts.CashflowOverTime | js/charts.js:34-43 | The dates are distinct, sorted chronologically, and exactly the days of the records. The two series have one entry per date holding that day's sums, and they add up to the totals. |
| Charts.RenderCharts | js/charts.js:5-69 | Both charts' data, as `ChartsOf` states it. The labels are exactly the distinct expense categories, each with the sum of its expenses; the dates are exactly the distinct record dates, sorted, each with that day's income and expense. The values sum to the totals. |
| Tally.UpsertKeys | js/charts.js:10 | Updating a key keeps the key order and adds a new key at the end. |
| Tally.UpsertGet | js/charts.js:10 | Updating a key changes that key's value only. |
| Tally.FoldKeys | js/charts.js:8-14 | A dictionary filled by a loop has distinct keys, exactly the keys of the records that have one. |
| Tally.FoldGet | js/charts.js:8-12 | A key's accumulated value is the sum of the contributions of the records with that key. |
| Tally.FoldColumnSum | js/charts.js:8-15 | The values of a filled dictionary add up to the contributions of all keyed records. |
| Tally.ColumnByKeys | js/charts.js:41-43 | Reading the values through any rearrangement of the keys gives the same sum as the values. |
| Seqs.SortBySorted | js/charts.js:41 | Sorting with a total preorder gives a sorted sequence. |
| Seqs.SortBy | js/charts.js:41 | Sorting rearranges the keys (same multiset). |
| Seqs.SumMapPerm | js/charts.js:41-43 | A sum does not depend on the order of its terms. |
| Records.DateLeIsTotalPreorder | js/charts.js:41 | The chronological order of dates is total and transitive. |
| Records.DateLeAntisymmetric | js/charts.js:41 | Two dates each on or before the other are the same date. |
| DashboardHelpers.Clamp | scripts/dashboard.js:22 | The result is at least `min`, and at most `max` when `min <= max`. An in-range `n` is returned unchanged, and out-of-range values go to the nearer bound. |
| DashboardHelpers.ClampIdempotent | scripts/dashboard.js:22 | Clamping twice is clamping once. |
| DashboardHelpers.EscapeText | scripts/dashboard.js:24 | The output has no raw `<`, `>`, `"` or `'`, is no shorter, and is unchanged for text with no special character. |
| DashboardHelpers.Entity | scripts/dashboard.js:24 | A special character becomes an entity starting with `&`; any other character is kept. |
| DashboardHelpers.EscapeHtml | scripts/dashboard.js:24 | Null or undefined gives the empty string; text is escaped. |
| DashboardHelpers.EscapeAppend | scripts/dashboard.js:24 | Escaping works character by character and keeps the order. |
| DashboardHelpers.UnescapeEntity | scripts/dashboard.js:24 | Decoding one entity gives back its character. |
| DashboardHelpers.UnescapeEscape | scripts/dashboard.js:24 | Decoding the entities of escaped text gives back the original: escaping loses nothing. |
| DashboardHelpers.QsEntries | scripts/dashboard.js:19 | The kept entries are a subsequence of the given ones, none undefined or empty, and every such entry is kept. |
| DashboardHelpers.QsTextEntries | scripts/dashboard.js:19 | For text-valued entries, exactly the non-empty ones are kept, in order. |
| DashboardHelpers.ListParamsQuery | scripts/dashboard.js:160-165 | The list query always holds page and page size, followed by exactly the non-empty filters in order. |
| DashboardHelpers.InitialsSource | scripts/dashboard.js:52 | Name, else email, else "U": never empty. |
| DashboardHelpers.UpperInitials | scripts/dashboard.js:53-57 | At most two characters. Empty iff the text is all spaces. Otherwise it starts with the upper-cased first non-space character. It has a second character iff a second word follows the first, and that character is the upper-cased first character of the second word. |
| DashboardHelpers.AnonymousInitial | scripts/dashboard.js:52-57 | A user with neither name nor email shows "U". |
| Text.Split | scripts/dashboard.js:53 | At least one part. |
| Text.SplitPieces | scripts/dashboard.js:53 | No part holds a space. |
| Text.JoinSplit | scripts/dashboard.js:53 | Joining the parts with spaces gives the string back. |
| Text.HeadsOfSplit | scripts/dashboard.js:53-55 | The first letters are empty iff the string is all spaces; otherwise they start with its first non-space character. |
| Text.Blanks | scripts/dashboard.js:53-55 | The count of leading spaces: all spaces before it, a non-space at it. |
| Text.WordLength | scripts/dashboard.js:53-55 | The length of the leading word: no space before it, a space at it. |
| Text.HeadsSkipBlanks | scripts/dashboard.js:53-55 | Leading spaces give empty pieces, which add no first letter. |
| Text.HeadsAfterWord | scripts/dashboard.js:53-55 | The pieces after the first give the first letters of the text after the leading word. |
| Text.HeadsOfWord | scripts/dashboard.js:53-55 | A text starting with a word: its first letter, then the first letters of the text after that word. |
| Text.FirstTwoHeads | scripts/dashboard.js:53-56 | The first two first letters: empty iff all spaces; the first non-space character; a second exactly when a second word follows, and it is that word's first character. |
| Text.NextInitials | scripts/dashboard.js:53-55 | The first letters are the first non-space character followed by the first letters of the text after the first word. |
| Text.StrLeIsTotalPreorder | scripts/dashboard.js:342 | `sort()` order on strings is total and transitive. |
| Text.StrLeAntisymmetric | scripts/dashboard.js:342 | Strings each before the other in `sort()` order are equal. |
| Text.Trim | scripts/dashboard.js:114 | The result neither starts nor ends with white space. |
| Text.TrimSlice | scripts/dashboard.js:114 | The trimmed text is a slice of the input; everything after it is white space. |
| Text.DropLeadingSuffix | scripts/dashboard.js:114 | Dropping leading white space keeps a suffix that starts with a non-space; only white space was dropped. |
| Text.DropTrailingPrefix | scripts/dashboard.js:114 | Dropping trailing white space keeps a prefix that ends with a non-space; only white space was dropped. |
| Text.TrimBlank | js/auth.js:39 | Trimming gives the empty string iff the input is all white space. |
| Text.TrimKeeps | scripts/dashboard.js:114 | Text with no white space at either end is left as is. |
| Text.TrimIdempotent | js/auth.js:32-34 | Trimming twice is trimming once. |
| DashboardState.WindowBounds | scripts/dashboard.js:145-147 | The window has at most seven pages, all within `1..pages`, and holds the current page when it is in range. Away from the end it holds exactly seven. |
| DashboardState.Dashboard.constructor | scripts/dashboard.js:70-76 | The initial state: page 1 of 1, total 0, empty filters and an empty preview. |
| DashboardState.Dashboard.ListQueryShape | scripts/dashboard.js:160-165 | The list request names page and page size, then exactly the non-empty filters; with no filters it names only page and size. |
| DashboardState.Dashboard.SetFilter | scripts/dashboard.js:112-134 | A filter input sets its field (the search text trimmed) and resets to page 1; nothing else changes. |
| DashboardState.Dashboard.ApplyListResponse | scripts/dashboard.js:173-174 | The page count falls back to 1 and the total to 0. |
| DashboardState.Dashboard.RenderPagination | scripts/dashboard.js:137-156 | "Page x of y" with y defaulting to 1. Prev is disabled iff page ≤ 1 and Next iff page ≥ pages. The buttons run from the window start to its end, at most seven, all in range, with the current page active. |
| DashboardState.Dashboard.ClickPrev | scripts/dashboard.js:141 | Steps back only above page 1; a page within `1..pages` stays within it. |
| DashboardState.Dashboard.ClickNext | scripts/dashboard.js:142 | Steps forward only below the last page; a page within `1..pages` stays within it. |
| DashboardState.Dashboard.ClickPageButton | scripts/dashboard.js:149-154 | Any button still on screen, including one of a window drawn before a failed load, sets exactly its page; nothing else changes. |
| Preview.PresentRows | scripts/dashboard.js:395 | The present rows, no more than were parsed; empty iff every row is missing. |
| Preview.PresentRowsCount | scripts/dashboard.js:395 | Every present row is kept as many times as it occurs, and a row is kept iff it was present. |
| Preview.PresentRowsOne | scripts/dashboard.js:395 | A single row is kept iff it is present. |
| Preview.PresentRowsAppend | scripts/dashboard.js:395 | The filter keeps the order of the rows: it distributes over concatenation. |
| DashboardState.Dashboard.OpenPreview | scripts/dashboard.js:386-403 | The preview opens iff some parsed item is present. It then holds exactly the normalised present items, in order, each income or expense, and shows their total; otherwise nothing changes. |
| DashboardState.Dashboard.EditPreview | scripts/dashboard.js:476-482 | Exactly one field of one row changes. The displayed total is not redrawn, while the true total moves by the row's change. |
| DashboardState.Dashboard.DeletePreview | scripts/dashboard.js:485-488 | Row i is removed, the other rows keep their order, and the redrawn total drops by that row's signed amount. |
| DashboardState.Dashboard.CommitPreview | scripts/dashboard.js:494-509 | "Nothing to import" iff no normalised draft has a positive amount. Otherwise the drafts are posted in order, and the list returns to page 1 on success. A network failure stops after the failing request and keeps the page. |
| DashboardState.Dashboard.PostInOrder | scripts/dashboard.js:500-504 | The requests go out in order, up to and including the failing one. |
| DashboardCharts.ExpensesByCategory | scripts/dashboard.js:322-333 | One label per distinct category of an expense, with an empty category labelled "Uncategorized" and never "". Each value is that label's sum, and the values add up to all expenses. |
| DashboardCharts.CategoryLabels | scripts/dashboard.js:322-328 | The category dictionary's keys are distinct and exactly the expense labels. |
| DashboardCharts.MonthBucketKeys | scripts/dashboard.js:336-341 | One bucket per distinct month key of a dated record. |
| DashboardCharts.MonthsPresent | scripts/dashboard.js:338-342 | The months are exactly those of the dated records, each 1 to 7 characters long. |
| DashboardCharts.MonthBucketValue | scripts/dashboard.js:336-341 | A month's bucket holds that month's income and expense. |
| DashboardCharts.MonthSeriesSums | scripts/dashboard.js:342-345 | Read off in any order, the month buckets add up to the dated income and expense. |
| DashboardCharts.MonthlySeries | scripts/dashboard.js:336-345 | The months are distinct and sorted as text. The series hold each month's sums and add up to the dated totals. |
| DashboardCharts.AllDatedSeriesSums | scripts/dashboard.js:336-345 | When every record is dated, the series add up to all income and all expense. |
| Preview.OrEmpty | scripts/dashboard.js:436-437 | A missing field becomes the empty string. |
| Preview.Normalize | scripts/dashboard.js:432-440 | The type is income iff the input type is exactly income, otherwise expense. The date is cut to 10 characters, or is today when missing. Category and description default to "" and amount to 0. |
| Preview.NormalizeIdempotent | scripts/dashboard.js:432-440 | Normalising a normalised item changes nothing (given a 10-character today). |
| Preview.PreviewTotal | scripts/dashboard.js:491 | The running total is the expense amounts minus all other amounts. |
| Preview.SignedSplits | scripts/dashboard.js:491 | Summing the signed amounts splits into expense minus the rest. |
| Preview.ExpenseMinusIncomeExample | scripts/dashboard.js:491 | An expense of 100 and an income of 300 give a total of −200. |
| Preview.ApplyEdit | scripts/dashboard.js:476-481 | An edit changes exactly the named field, and the amount is coerced with missing as 0. |
| Preview.Remove | scripts/dashboard.js:487 | `splice(i, 1)`: one row fewer; rows before i are kept and rows after it shift down by one. |
| Preview.RemoveTotal | scripts/dashboard.js:487-491 | Removing a row takes its signed amount out of the total. |
| Preview.ReplaceTotal | scripts/dashboard.js:481-491 | Replacing a row changes the total by the difference of the signed amounts. |
| Preview.CommitSelection | scripts/dashboard.js:495 | A subsequence of the normalised drafts: every positive-amount draft with its multiplicity and nothing else, each income or expense. |
| Preview.NothingToImport | scripts/dashboard.js:495-496 | Nothing is sent iff no draft has a positive amount. |
| Preview.CommitKeepsNormalRows | scripts/dashboard.js:495 | A normalised draft with a positive amount is sent unchanged. |
| Auth.Registry.constructor | js/auth.js:5-15 | The registry holds the stored users and session. |
| Auth.Registry.FindByEmail | js/auth.js:50 | Found iff some stored user has the email. |
| Auth.Registry.FindAccount | js/auth.js:86 | Found iff some stored user matches both email and password. |
| Auth.Registry.Signup | js/auth.js:30-62 | Fails with "fill all fields" iff a trimmed field is empty. Fails with "do not match" iff all are filled and the passwords differ. Fails with "already exists" iff they match and the email is taken. A failure leaves the users unchanged; a success appends exactly the trimmed pair. The session is never touched, and unique emails stay unique. |
| Auth.Registry.Login | js/auth.js:69-94 | Fails with "enter both" iff a trimmed field is empty. Succeeds iff a stored user matches both exactly, and only then sets the session to the email. Users never change. |
| Auth.Registry.Logout | js/auth.js:105-110 | The session is cleared and the users are kept. |
| Auth.SignupThenLogin | js/auth.js:30-94 | A signup succeeds iff the fields are filled and the email is new; logging in with the same details then succeeds and the dashboard guard admits the user. |

## Left out

- Every `fetch`, the DOM, Chart.js drawing, `alert`, redirects and `localStorage`'s JSON encoding: requests are represented by their query entries and bodies. The backend's responses are parameters, and storage is the identity.
- The statement-import handler (scripts/dashboard.js:405-429), `initAddForm`, quick ranges (`applyQuickRange`, dates and time zones), `debounce` and the profile menu: outside the computing core.
- `updateKpis` and `fmtINR`/`formatCurrency`: floating-point percentages and locale formatting.
- NaN: a form amount for which `Number(...)` gives NaN is represented as an absent amount (`None`), which the add form refuses like any falsy amount; the parsing of numeric text itself is not modelled.
- `URLSearchParams` serialisation and percent-encoding: `DashboardHelpers.QsEntries` stops at the list of entries.
- JavaScript objects put integer-like keys first, ahead of insertion order. The dictionaries here keep pure insertion order, so a category named like a number would be listed in a different place.
- JavaScript objects used as dictionaries also inherit properties from `Object.prototype`: in `categories[t.category] || 0` (js/charts.js:10) and `catMap[k]||0` (scripts/dashboard.js:326) a category named, for instance, "constructor" starts from an inherited function, and the sum becomes string concatenation. The association lists here start every category at 0.
- Case mapping covers the ASCII letters only, and the `sort()` order compares characters as code points, not as UTF-16 code units.
- `toLocaleDateString` keys of js/charts.js and `new Date` parsing: dates are modelled as already-valid `(year, month, day)` triples, so two spellings of a day are not merged.
- The overlapping asynchronous refreshes of the dashboard (concurrency).
- js/FileUpload.js, scripts/FileUpload.js, scripts/utils.js, scripts/auth.js and scripts/app.js are not part of this model.

Behaviours of the code that the model keeps as written:

- The preview's running total is expense minus income (`Preview.ExpenseMinusIncomeExample`: 100 of expense and 300 of income give −200).
- The add form of js/app.js accepts negative amounts; only a falsy amount is refused.
- Dashboard months are sorted as text (`Object.keys(buckets).sort()`). This is chronological only for well-formed `YYYY-MM` keys.
- Editing a preview row does not redraw the displayed total (`shownTotal`); only deleting a row or opening the preview does.
- A successful commit does not clear `previewItems`.
