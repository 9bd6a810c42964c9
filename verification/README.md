# Renewal dashboard — a Dafny model

This project models the client-side logic of a renewal-tracking dashboard.
In that dashboard, users and administrators track domains, licences, hosting
and antivirus subscriptions. Each one has an end date, a cost, a status and a
reminder setting.

The dashboard is a React application. Its logic is spread over helpers,
services, components and pages. The model covers the following parts:

- **Date helpers** (`DateUtils`, `Calendars`). The runtime's `Date` parser,
  the clock, date-fns `format` and `toISOString` cannot be seen, so they are
  fields of a `Calendar` value.
- **The two record shapes** (`RenewalShapes`, `Fields`, `JsValues`).
  - The API speaks a legacy snake-case shape: `item_name`, `category`,
    `vendor`, `reminder_days_before`. Newer screens use `service_name`,
    `service_type` and `provider`.
  - Records are maps from property keys to JavaScript values. Truthiness,
    `||`, `parseFloat` and `Number` are modelled explicitly.
- **Status and statistics** (`Domain`, `RenewalService`, `ListUpdates`).
  - Statuses are derived from the days left.
  - `calculateRenewalStats` and `normalizeResponse` are modelled.
  - So are the local list updates the pages apply after a mutation.
- **The in-memory store** (`MockStore`): add, update, delete, filter and
  statistics.
- **Components**: the table's filter, sort and day count
  (`RenewalsTable`); the form's validation, input coercion, submit payload
  and prefill (`RenewalForm`); the history and log filters
  (`RenewalHistory`, `RenewalLogs`, `ReminderLog`); the status menu
  (`StatusToggle`); the admin layout's title, highlight and theme
  (`AdminLayout`).
- **Pages and routes** (`AdminRenewalsPage`, `AdminDashboardPage`,
  `UserDashboardPage`, `AppRoutes`).

JavaScript semantics are modelled as follows:

- An exception (a `TypeError` on `null.x`, `toISOString` on an invalid
  date, `trim` on a number) is `None`, or `Crash` in the form.
- A `NaN` day count is `None`.
- `Array.prototype.sort` is a stable insertion sort, `Seqs.SortBy`.
- `localeCompare` is a parameter. The sortedness lemma assumes it is a
  total preorder.

## Model

| member | source | states |
|---|---|---|
| DateUtils.ToDate | src/utils/dateUtils.ts:10-11 | a string is read by the runtime's date parser; `undefined` and `NaN` never give a valid time |
| DateUtils.ValidDateCases | src/utils/dateUtils.ts:6-15 | `isValidDate` accepts exactly a non-empty string that parses, a non-zero number within the range of dates, and `true` |
| DateUtils.FormatDate | src/utils/dateUtils.ts:20-34 | "N/A" exactly when the value is not a valid date (falsy or unparseable); otherwise the date printed as `MMM d, yyyy` |
| DateUtils.FormatDateForAPI | src/utils/dateUtils.ts:39-51 | "" when the value is not a valid date; otherwise the date printed as `yyyy-MM-dd` |
| DateUtils.GetDaysRemaining | src/utils/dateUtils.ts:56-78 | 0 for a missing or unparseable end date; otherwise the number of calendar days between today and the end date, because both moments are moved to midnight first |
| DateUtils.DaysRemainingNeighbours | src/utils/dateUtils.ts:67-73 | an end date on today's calendar day is 0 days away whatever its time; exactly one day later is 1; one day earlier is -1 |
| DateUtils.SentinelsAgree | src/utils/dateUtils.ts:6-51 | "N/A" and "" come out exactly for the values `isValidDate` rejects, given that the formatter never prints them itself |
| DateUtils.FormatDateForAPIIdempotent | src/utils/dateUtils.ts:39-51 | formatting an API date for the API again gives it back unchanged |
| DateUtils.ApiDateFixed | src/utils/dateUtils.ts:39-51 | a date already in `yyyy-MM-dd` passes through `formatDateForAPI` unchanged |
| Calendars.Midnight | src/utils/dateUtils.ts:68-69 | `setHours(0,0,0,0)` gives the start of the moment's day: at most one day earlier, and a whole number of days |
| Calendars.CeilDays | src/utils/dateUtils.ts:71-72 | `Math.ceil(diff / DayMs)` is the least whole number of days whose span covers the difference |
| Calendars.CeilDaysExact | src/utils/dateUtils.ts:71-72 | a difference of whole days rounds up to exactly that many days |
| JsValues.ParseFloatTrimmed | src/components/dashboard/RenewalForm.tsx:127 | `parseFloat` skips leading whitespace, then reads the longest decimal prefix |
| JsValues.ParseFloatOfNat | src/components/dashboard/RenewalForm.tsx:127 | `parseFloat(String(n))` is `n` for every natural number |
| JsValues.WordIsNaN | src/components/dashboard/RenewalForm.tsx:110 | text that starts with a letter is `NaN` for both `parseFloat` and `Number` |
| RenewalShapes.SnakeToCamel | src/utils/dateUtils.ts:85-102 | id, owner, dates, cost, status and notes are copied unchanged; the reminder setting is kept when truthy and is 7 otherwise, 0 included, so it is always truthy |
| RenewalShapes.SnakeToCamelPairs | src/utils/dateUtils.ts:89-94 | each legacy/current name pair reads its two keys in opposite orders. When only one key is truthy, both names get it. When both are, each name keeps its own. A name is truthy exactly when one of its keys is |
| RenewalShapes.ApiDate | src/utils/dateUtils.ts:116-117 | the camel-case date is formatted for the API when it is truthy and the snake-case one otherwise; the result is always a string |
| RenewalShapes.CostOut | src/utils/dateUtils.ts:118 | the cost sent is never `NaN`; a string or a number leaves as a number; a falsy cost leaves as 0; a string leaves as the non-zero number `parseFloat` reads from it, or else 0; any other truthy value, a number included, is kept |
| RenewalShapes.CamelToSnake | src/utils/dateUtils.ts:109-123 | each field is the first truthy value among its keys, camel case first, or else its default: `user_id` `null`, `item_name` `''`, `category` `'other'`, `vendor` then `provider` then `''`, `status` `'active'`, `notes` `''`, `reminder_days_before` 7; each date is the API format of the camel-case date when truthy and of the snake-case one otherwise; the cost is never `NaN`: a string cost is the non-zero number `parseFloat` reads from it or else 0, any other truthy cost is kept, and a falsy one is 0 |
| RenewalShapes.CamelToSnakeReadsLegacyKeys | src/utils/dateUtils.ts:109-123 | two objects that agree on the keys `camelToSnakeRenewal` reads map to the same legacy record |
| RenewalShapes.CamelToSnakeIgnoresCurrentShape | src/utils/dateUtils.ts:113-114 | removing `serviceName`, `service_name`, `serviceType` and `service_type` changes nothing in the output |
| RenewalShapes.CurrentShapeLosesNameAndType | src/utils/dateUtils.ts:113-114 | a record in the current shape only leaves with an empty `item_name` and with `category` `'other'`, whatever its name and type were |
| RenewalShapes.CamelReadBack | src/utils/dateUtils.ts:85-102 | the object `snakeToCamelRenewal` builds, read by key: dates sit only under their camel-case keys, and each other key holds the mapped value |
| RenewalShapes.ApiDateKept | src/utils/dateUtils.ts:116-117 | an API date under the camel-case key, with nothing under the snake-case key, leaves unchanged |
| RenewalShapes.LegacyRoundTrip | src/utils/dateUtils.ts:85-123 | snake to camel and back keeps the start and end dates of a legacy record that are already API dates, under a calendar whose days behave |
| RenewalShapes.LegacyNamesRoundTrip | src/utils/dateUtils.ts:85-113 | for every legacy record, snake to camel and back gives the owner itself when truthy and `null` otherwise, and the name as `item_name`, else `service_name`, else `''` |
| RenewalShapes.LegacyFieldsRoundTrip | src/utils/dateUtils.ts:85-123 | for every legacy record, snake to camel and back gives the id, and each other field itself when truthy and its default otherwise, the category and the vendor falling back to their current-shape keys and the dates formatted once more; a record whose fields are truthy and whose cost is a number keeps them all |
| Domain.StatusCountsBound | src/services/renewalService.ts:224-226 | the three status counts add up to at most the length, and exactly to it when every status is one of the three declared ones |
| Domain.ToneOf | src/pages/admin/Renewals.tsx:368-374 | red exactly when the count is at most 0, yellow exactly when it is from 1 to 30, green otherwise, a `NaN` count included |
| Domain.TallyPerm | src/services/renewalService.ts:223-236 | the statistics do not depend on the order of the records |
| Domain.TallyAppend | src/services/renewalService.ts:223-236 | appending a record adds one to the total, its cost to the cost sum, and one to the count of its own status only |
| Domain.DeriveStatus | src/data/mockRenewals.ts:133-138 | expired exactly at most 0 days left; expiring soon exactly 1 to 30 days left; active otherwise, including a `NaN` count; always one of the three declared statuses |
| Domain.DeriveStatusMonotone | src/data/mockRenewals.ts:133-138 | more days left never means a more urgent status |
| Domain.ToneMatchesStatus | src/pages/admin/Renewals.tsx:372-374 | the red/yellow/green colour of a day count draws the same lines as the derived status |
| RenewalService.Member | src/services/renewalService.ts:8-13 | a property read throws exactly on `null` and `undefined` |
| RenewalService.Normalize | src/services/renewalService.ts:6-25 | throws exactly on a nullish response. An envelope with a boolean `success` is returned as is. Otherwise a truthy `data` is wrapped alone; anything else is wrapped whole |
| RenewalService.NormalizeSuccess | src/services/renewalService.ts:6-25 | every normalised response has a boolean `success`, which is false only when the response itself said `success: false` |
| RenewalService.NormalizeDropsMessage | src/services/renewalService.ts:13-18 | a Laravel resource with truthy `data` loses its `message`: only `data` and `success` remain |
| RenewalService.NormalizeIdempotent | src/services/renewalService.ts:6-25 | normalising twice is normalising once |
| RenewalService.CalculateRenewalStats | src/services/renewalService.ts:223-236 | counts by stored status, total length and cost sum over all records; the counts partition the total when every status is a declared one |
| RenewalService.CalculateRenewalStatsLaws | src/types/runtime.ts:4-10 | the empty list gives `defaultRenewalStats`, and a reordered list gives the same statistics |
| ListUpdates.RemoveId | src/pages/user/Dashboard.tsx:199 | an order-preserving selection of exactly the records whose id differs |
| ListUpdates.ReplaceId | src/pages/admin/Dashboard.tsx:124-126 | same length; each record with the id is replaced, every other one is kept in place |
| ListUpdates.RemoveIdCount | src/pages/user/Dashboard.tsx:199 | removing an id shortens the list by exactly the number of records carrying it |
| ListUpdates.ReplaceThenRemove | src/pages/admin/Dashboard.tsx:124-126 | replacing an id's records by a copy with the same id, then removing that id, is removing it |
| ListUpdates.AppendStats | src/pages/admin/Dashboard.tsx:132-141 | appending a record grows the total by one and the cost by its cost |
| MockStore.GetRenewalsByUserId | src/data/mockRenewals.ts:96-98 | an order-preserving selection of exactly the owner's renewals, each with all its copies |
| MockStore.GetRenewalStats | src/data/mockRenewals.ts:106-119 | counts by stored status, the length and the cost sum; the counts partition the total in a well-typed store |
| MockStore.DaysUntil | src/data/mockRenewals.ts:129-131 | the raw millisecond difference from now, rounded up to days, with no midnight step; none when the end date does not parse |
| MockStore.AddRenewal | src/data/mockRenewals.ts:124-148 | the record goes at the end with id `length + 1`, the status derived from the days left, and every given field copied |
| MockStore.AddRenewalStatus | src/data/mockRenewals.ts:129-138 | an added renewal is expired exactly when its end date parses and is not after now; an unparseable end date makes it active |
| MockStore.AddRenewalStats | src/data/mockRenewals.ts:124-148 | adding keeps the store well typed and grows total and cost by the new record |
| MockStore.FindIndex | src/data/mockRenewals.ts:152 | the first index holding the id, or none exactly when no record has it |
| MockStore.OverlayLaws | src/data/mockRenewals.ts:158-161 | spreading a patch twice is spreading it once; an empty patch copies |
| MockStore.UpdateRenewal | src/data/mockRenewals.ts:151-170 | `null` and no change exactly when no record has the id; otherwise only the first such record is replaced by its overlay, which is returned |
| MockStore.UpdateKeepsWellTyped | src/data/mockRenewals.ts:151-170 | an update whose status is a declared one keeps every stored status declared |
| MockStore.DeleteRenewal | src/data/mockRenewals.ts:173-177 | every record with the id goes, every other record stays with all its copies, and the order is kept; the answer is true exactly when some record had the id |
| MockStore.DeleteIdempotent | src/data/mockRenewals.ts:173-177 | deleting twice is deleting once, and the second delete reports false |
| MockStore.IdReusedAfterDelete | src/data/mockRenewals.ts:124-177 | with records `1` and `2`, deleting `1` and then adding gives a second record with id `2`: ids are not unique |
| MockStore.FilterRenewals | src/data/mockRenewals.ts:191-234 | an order-preserving selection of exactly the renewals that meet every given criterion, each with all its copies; an end date that does not parse meets both date bounds |
| MockStore.ChecksMatchAll | src/data/mockRenewals.ts:191-234 | the chain of early rejections accepts exactly what the conjunction of the criteria accepts |
| MockStore.NoFiltersKeepAll | src/data/mockRenewals.ts:191-234 | with no criteria every renewal comes back, in order |
| RenewalsTable.FilteredRenewals | src/components/dashboard/RenewalsTable.tsx:53-64 | throws exactly when the search reads a missing service name, provider or service type, testing them left to right and stopping at the first hit; otherwise an order-preserving selection of exactly the renewals that match the search (ignoring case) and the status menu, each with all its copies |
| RenewalsTable.EmptyQueryKeepsAll | src/components/dashboard/RenewalsTable.tsx:47-64 | with an empty search and `'all'` the whole list is shown in order, unless some renewal has no service name, which throws |
| RenewalsTable.InitialShowsAll | src/components/dashboard/RenewalsTable.tsx:47-50 | as the table mounts, every renewal with a service name is shown, sorted by end date, earliest first |
| RenewalsTable.SortedRenewals | src/components/dashboard/RenewalsTable.tsx:67-86 | throws exactly when the filter does; otherwise the sorted rows are a permutation of the filtered rows |
| RenewalsTable.AscCompare | src/components/dashboard/RenewalsTable.tsx:67-86 | by end date, the sign of the difference of two parsing dates and 0 when either does not parse; by cost, the sign of the cost difference; by name or provider, the collation of the two texts, a missing one read as `"undefined"`; 0 for any other key |
| RenewalsTable.Comparator | src/components/dashboard/RenewalsTable.tsx:67-86 | ascending compares the rows in order and descending with the operands swapped, for every key |
| RenewalsTable.SortedRowsOrdered | src/components/dashboard/RenewalsTable.tsx:67-86 | with a total-preorder collation, and end dates that parse when sorting by end date, the rows that are shown are ordered by the chosen column and direction |
| RenewalsTable.AscPreorder | src/components/dashboard/RenewalsTable.tsx:67-86 | the ascending comparison is total and transitive on such rows |
| RenewalsTable.DescReversesAsc | src/components/dashboard/RenewalsTable.tsx:67-86 | descending is the exact reverse of ascending for every key |
| RenewalsTable.UnknownKeyKeepsOrder | src/components/dashboard/RenewalsTable.tsx:85 | an unknown sort key leaves the filtered rows in their order |
| RenewalsTable.HandleSort | src/components/dashboard/RenewalsTable.tsx:94-101 | the clicked column becomes the sort column; the same column flips the direction, a new one starts ascending |
| RenewalsTable.HandleSortTwice | src/components/dashboard/RenewalsTable.tsx:94-101 | clicking the sort column twice restores the state; a new column clicked twice is descending |
| RenewalsTable.DaysRemaining | src/components/dashboard/RenewalsTable.tsx:104-110 | the raw millisecond difference rounded up to days, with no midnight step and no guard; `NaN` exactly when the end date does not parse |
| RenewalsTable.ShowsExpiredIff | src/components/dashboard/RenewalsTable.tsx:304-309 | a row reads "Expired" exactly when its end date parses and is not after now |
| RenewalsTable.DaysRemainingDiverges | src/components/dashboard/RenewalsTable.tsx:104-110 | an end date later today is one day away in the table and zero in the shared helper |
| RenewalsTable.FormatDate | src/components/dashboard/RenewalsTable.tsx:25-39 | "N/A" for an empty string, the string itself when it does not parse, the formatted date otherwise |
| RenewalsTable.FormatDateVersusShared | src/components/dashboard/RenewalsTable.tsx:25-39 | the table agrees with the shared `formatDate` except on unparseable text, which it echoes where the shared one prints "N/A" |
| RenewalForm.ValidateForm | src/components/dashboard/RenewalForm.tsx:89-116 | throws exactly when name or vendor is neither a string nor nullish. Otherwise each field's message is recorded exactly when its rule fails. The end date gets the ordering message only when both dates parse and are out of order |
| RenewalForm.ValidateFormIff | src/components/dashboard/RenewalForm.tsx:89-116 | validation passes exactly for forms that satisfy every rule |
| RenewalForm.UnparseableEndDatePasses | src/components/dashboard/RenewalForm.tsx:104-108 | a non-empty end date that does not parse raises no end-date error |
| RenewalForm.NumericName | src/components/dashboard/RenewalForm.tsx:124 | the inputs read as numbers are exactly `cost` and `reminder_days_before` |
| RenewalForm.NumberInput | src/components/dashboard/RenewalForm.tsx:127 | always a number: the parsed value when it is a non-zero number, 0 otherwise |
| RenewalForm.HandleChange | src/components/dashboard/RenewalForm.tsx:118-143 | only the typed field changes, to a number for numeric fields and to the text otherwise; the field's error, if any, is emptied and the others are kept |
| RenewalForm.InputValue | src/components/dashboard/RenewalForm.tsx:123-134 | numeric fields store a number, the others the text |
| RenewalForm.SetInput | src/components/dashboard/RenewalForm.tsx:125-133 | the field takes the value and every other field is kept |
| RenewalForm.ClearError | src/components/dashboard/RenewalForm.tsx:137-142 | the field's error is emptied; every other error is kept; no key is added |
| RenewalForm.NumericCost | src/components/dashboard/RenewalForm.tsx:110 | a numeric cost is refused exactly when it is not positive |
| RenewalForm.StoredInput | src/components/dashboard/RenewalForm.tsx:118-134 | after typing, the field reads the stored value and every other field reads as before |
| RenewalForm.CostInputOfNat | src/components/dashboard/RenewalForm.tsx:127 | typing a whole number into the cost stores that number |
| RenewalForm.TypedCostStored | src/components/dashboard/RenewalForm.tsx:118-134 | typing a whole number into the cost stores it and leaves name and vendor alone |
| RenewalForm.TypedCostValidates | src/components/dashboard/RenewalForm.tsx:89-143 | after typing a whole number into the cost, validation runs, and the cost error appears exactly for 0 |
| RenewalForm.CutDate | src/components/dashboard/RenewalForm.tsx:167-175 | a truthy date is cut at its first `T` and throws when it is not a string; a falsy one is kept |
| RenewalForm.CutField | src/components/dashboard/RenewalForm.tsx:167-175 | throws exactly when a truthy value is not a string; otherwise a truthy value becomes its text before the first `T`, a falsy one leaves the record as it was, and no other key changes |
| RenewalForm.ParseCost | src/components/dashboard/RenewalForm.tsx:178-180 | a string cost becomes the number `parseFloat` reads from it, or 0 when it reads none or 0; any other cost and every other key is kept |
| RenewalForm.ApiFormData | src/components/dashboard/RenewalForm.tsx:164-180 | throws exactly when a truthy date is not a string; otherwise each truthy date is its text before the first `T`, a falsy one is kept, a string cost becomes the number it reads as (0 when none), and every other key is kept |
| RenewalForm.CutFieldFixed | src/components/dashboard/RenewalForm.tsx:167-175 | a date already cut is left alone |
| RenewalForm.ApiFormDataCut | src/components/dashboard/RenewalForm.tsx:164-180 | both dates of a prepared payload are cut and its cost is no string |
| RenewalForm.ApiFormDataFixed | src/components/dashboard/RenewalForm.tsx:164-180 | a payload with cut dates and a non-string cost is prepared to itself |
| RenewalForm.ApiFormDataIdempotent | src/components/dashboard/RenewalForm.tsx:164-180 | preparing the payload twice is preparing it once |
| RenewalForm.HandleSubmit | src/components/dashboard/RenewalForm.tsx:160-186 | it crashes exactly when preparation or validation throws. The prepared payload is submitted exactly when the form as typed has no error; otherwise the errors are shown |
| RenewalForm.TextCostNotBad | src/components/dashboard/RenewalForm.tsx:110 | text with no number in it is not refused by the cost rule, since `"abc" <= 0` is false |
| RenewalForm.TextCostSubmittedAsZero | src/components/dashboard/RenewalForm.tsx:160-186 | a valid form whose cost is text with no number is submitted with cost 0 |
| RenewalForm.WithKeys | src/components/dashboard/RenewalForm.tsx:60-62 | spreading named keys over a copy adds them, reading missing ones as `undefined` |
| RenewalForm.Prefill | src/components/dashboard/RenewalForm.tsx:57-69 | throws exactly when a date is neither a string nor nullish; otherwise the renewal's fields, each date being its own text before the first `T` when truthy and `''` otherwise, and the reminder setting kept when truthy and 7 otherwise |
| RenewalForm.PrefillIdempotent | src/components/dashboard/RenewalForm.tsx:57-69 | prefilling an already prefilled record changes nothing |
| RenewalHistory.LogDay | src/components/dashboard/RenewalHistory.tsx:79 | the day of a log exists exactly when its timestamp parses |
| RenewalHistory.FilteredLogs | src/components/dashboard/RenewalHistory.tsx:71-87 | throws exactly when some timestamp does not parse; otherwise an order-preserving selection of exactly the logs that meet all four conditions, each with all its copies |
| RenewalHistory.ActionNarrows | src/components/dashboard/RenewalHistory.tsx:71-87 | choosing an action narrows the `'all'` result to that action, keeping its order |
| RenewalHistory.FormatActionLabel | src/components/dashboard/RenewalHistory.tsx:145-151 | the label is the title-cased text with the first `_` turned into a space |
| RenewalHistory.StatusChangedLabel | src/components/dashboard/RenewalHistory.tsx:145-151 | `status_changed` reads "Status Changed" |
| RenewalHistory.SecondUnderscoreKept | src/components/dashboard/RenewalHistory.tsx:145-151 | only the first underscore becomes a space: `a_b_c` reads "A B_c" |
| RenewalHistory.HandleFetchLogs | src/components/dashboard/RenewalHistory.tsx:94-101 | the renewal and the dates are sent as they are; the action is left out exactly for `'all'` |
| RenewalHistory.HistoryFetchAgreesWithFilter | src/components/dashboard/RenewalHistory.tsx:71-101 | the request keeps a log exactly when the page's renewal, date and action checks do; the action sent is absent exactly when the menu's check passes every log; together with the search this is the page's whole filter |
| RenewalLogs.FilteredLogs | src/components/dashboard/RenewalLogs.tsx:108-117 | every log for an empty search; otherwise an order-preserving selection of exactly the logs where one of four fields contains the term, ignoring case, each with all its copies |
| RenewalLogs.FieldMatchesPrefix | src/components/dashboard/RenewalLogs.tsx:112-115 | a field matching a longer term matches its prefix |
| RenewalLogs.TypingNarrows | src/components/dashboard/RenewalLogs.tsx:108-117 | typing more characters only narrows the list, keeping its order |
| RenewalLogs.FormatTimestamp | src/components/dashboard/RenewalLogs.tsx:98-105 | "Unknown date" for a missing or empty timestamp; "Invalid date" when it does not parse; the formatted moment otherwise |
| RenewalLogs.TimestampPlaceholders | src/components/dashboard/RenewalLogs.tsx:98-105 | each placeholder appears exactly in its own case |
| ReminderLog.FilteredLogs | src/components/dashboard/ReminderLog.tsx:79-94 | throws exactly when some `sent_at` does not parse; otherwise an order-preserving selection of exactly the logs meeting search, dates, type and status, each with all its copies |
| ReminderLog.ShownCount | src/components/dashboard/ReminderLog.tsx:399 | "Showing n of m": n never exceeds m |
| ReminderLog.OnlyDatesFilter | src/components/dashboard/ReminderLog.tsx:79-94 | with an empty search and both menus on `'all'`, exactly the logs in the date range remain |
| ReminderLog.HandleFetchLogs | src/components/dashboard/ReminderLog.tsx:101-108 | dates are sent as they are; type and status are left out exactly when on `'all'` |
| ReminderLog.ReminderFetchAgreesWithFilter | src/components/dashboard/ReminderLog.tsx:79-108 | the request keeps a log exactly when the page's date, type and status checks do; a type or status sent as absent is exactly a menu on `'all'`; together with the search this is the page's whole filter |
| ReminderLog.HandleDateChange | src/components/dashboard/ReminderLog.tsx:110-116 | the named bound takes the typed value; everything else is kept |
| ReminderLog.DateChangesCommute | src/components/dashboard/ReminderLog.tsx:110-116 | editing one bound, then the other, gives the same range in either order |
| ReminderLog.HandleSettingToggle | src/components/dashboard/ReminderLog.tsx:118-129 | the patch names the toggled switch only, with the opposite of its current value |
| ReminderLog.PatchesSent | src/components/dashboard/ReminderLog.tsx:118-129 | a run of clicks sends one patch per click, naming the clicked switch only, with the opposite of the value the component was given |
| ReminderLog.ClicksResendSamePatch | src/pages/admin/Dashboard.tsx:170-179 | with no settings passed, as both dashboards do, a switch always sends the same patch: e-mail off, SMS on, in-app off, however often it is clicked |
| StatusToggle.SubmitStatusChange | src/components/dashboard/StatusToggle.tsx:103-124 | sends a non-empty explicit status, else the selected one; dates go along exactly while the dialog is open; the dialog closes only if the change went through; busy ends either way |
| StatusToggle.HandleStatusSelect | src/components/dashboard/StatusToggle.tsx:84-93 | `active` and `renewed` open the dialog and send nothing; any other status is sent at once |
| StatusToggle.RenewThenConfirm | src/components/dashboard/StatusToggle.tsx:84-124 | from a closed dialog, choosing `renewed` then confirming sends `renewed` with the dialog's dates; the dialog stays open exactly when it failed |
| StatusToggle.OtherStatusSentAlone | src/components/dashboard/StatusToggle.tsx:84-124 | from a closed dialog any other choice sends that status without dates |
| StatusToggle.FormatStatusLabel | src/components/dashboard/StatusToggle.tsx:80-82 | same length; the first character is upper-cased and the first `-` after it becomes a space |
| StatusToggle.LabelOfHyphenated | src/components/dashboard/StatusToggle.tsx:80-82 | a hyphenated name reads with its first letter upper-cased and its first hyphen a space |
| StatusToggle.ExpiringSoonLabel | src/components/dashboard/StatusToggle.tsx:80-82 | `expiring-soon` reads "Expiring soon" |
| StatusToggle.StatusLabelsDistinct | src/components/dashboard/StatusToggle.tsx:80-82 | the six status names get six different labels |
| AdminLayout.IsActivePath | src/components/layouts/AdminLayout.tsx:62-64 | the path is the entry's path or lies below it after a `/` |
| AdminLayout.RenewalsXNotActive | src/components/layouts/AdminLayout.tsx:62-64 | `/admin/renewalsX` does not highlight the renewals entry; `/admin/renewals/42` does |
| AdminLayout.BelowIsActive | src/components/layouts/AdminLayout.tsx:62-64 | every page below an entry highlights it |
| AdminLayout.SidebarActive | src/components/layouts/AdminLayout.tsx:82 | an entry without a path, or with the empty one, is never highlighted; otherwise it is highlighted exactly when `isActivePath` holds |
| AdminLayout.EmptyPathGuarded | src/components/layouts/AdminLayout.tsx:82 | `isActivePath('')` holds on every absolute path, yet the guard keeps such an entry dark |
| AdminLayout.GetPageTitle | src/components/layouts/AdminLayout.tsx:66-74 | "Admin Dashboard" exactly on the exact dashboard path |
| AdminLayout.GetPageTitleFollowsTable | src/components/layouts/AdminLayout.tsx:66-74 | the title is the first hit in the ordered rule table |
| AdminLayout.FirstHitIsFirst | src/components/layouts/AdminLayout.tsx:66-74 | for any rule table, the answer is the value of the earliest rule that hits the path |
| AdminLayout.BelowRenewalsTitle | src/components/layouts/AdminLayout.tsx:66-74 | every page below the renewals entry is titled "Renewals Management" |
| AdminLayout.FirstHitWins | src/components/layouts/AdminLayout.tsx:66-74 | a page below the users entry whose path mentions the renewals page is titled after the renewals page |
| AdminLayout.ThemeFor | src/components/layouts/AdminLayout.tsx:41-49 | the class added, if any, is one of the four theme classes |
| AdminLayout.ThemeFollowsTable | src/components/layouts/AdminLayout.tsx:41-49 | the theme is the first hit in its ordered rule table |
| AdminLayout.ApplyTheme | src/components/layouts/AdminLayout.tsx:31-50 | non-theme classes are untouched; afterwards the theme classes are exactly the one for the path, or none |
| AdminLayout.ThemeForgetsHistory | src/components/layouts/AdminLayout.tsx:31-50 | at most one theme class is on the body, and it depends only on the current path |
| AdminLayout.ThemeMatchesTitle | src/components/layouts/AdminLayout.tsx:41-74 | theme and title agree on the dashboard and renewals pages |
| AppRoutes.ProtectedRoute | src/App.tsx:17-37 | a spinner exactly while loading; login exactly when signed out; the user dashboard exactly for a non-admin on an admin route; the children otherwise |
| AppRoutes.RouteFor | src/App.tsx:43-88 | no route exactly when no path matches; otherwise the element of a route with that path |
| AppRoutes.RouteForFirst | src/App.tsx:43-88 | the first route whose path equals the visited one is the one taken |
| AppRoutes.Visit | src/App.tsx:17-88 | an unknown path shows no route |
| AppRoutes.AdminPagesNeedAdmin | src/App.tsx:45-87 | an admin page renders only for a signed-in admin after loading, and only on its three paths |
| AppRoutes.UserDashboardForAnyUser | src/App.tsx:74-81 | the user dashboard renders for any signed-in user, admins included |
| AppRoutes.NonAdminRedirectSettles | src/App.tsx:31-81 | a non-admin sent from an admin page to the user dashboard sees it render: no redirect loop |
| AppRoutes.RootGoesToLogin | src/App.tsx:84-87 | `/` redirects to login, signed in or not |
| AppRoutes.SignedOutGoesToLogin | src/App.tsx:27-29 | a signed-out visitor to a guarded page goes to login, which renders |
| AdminRenewalsPage.StampOwner | src/pages/admin/Renewals.tsx:68-70 | a signed-in user becomes the owner only when none is given; nothing else changes |
| AdminRenewalsPage.StampOwnerKeepsOwner | src/pages/admin/Renewals.tsx:68-70 | a given owner is kept, and stamping twice is stamping once |
| AdminRenewalsPage.NormalizeDate | src/pages/admin/Renewals.tsx:73-75 | throws exactly when the date is truthy and invalid; a truthy date becomes its ISO day; nothing else changes |
| AdminRenewalsPage.Clean | src/pages/admin/Renewals.tsx:82-85 | exactly the `undefined` and `null` entries are dropped; the rest keep their values |
| AdminRenewalsPage.CleanKeepsFalsy | src/pages/admin/Renewals.tsx:82-85 | `0`, `''` and `false` survive cleaning, and cleaning twice is cleaning once |
| AdminRenewalsPage.PrepareAddPayload | src/pages/admin/Renewals.tsx:67-85 | no nullish entry remains; the owner is the signed-in user when none was filled in and the one given otherwise; the end date goes out exactly as given |
| AdminRenewalsPage.PrepareAddPayloadStart | src/pages/admin/Renewals.tsx:72-79 | a filled-in start date goes out as the calendar day of the date typed; the repeated step changes nothing |
| AdminRenewalsPage.PrepareAddPayloadFixed | src/pages/admin/Renewals.tsx:72-79 | the corrected payload has no nullish entry |
| AdminRenewalsPage.NormalizeDateTwice | src/pages/admin/Renewals.tsx:73-79 | normalising a date again changes nothing |
| AdminRenewalsPage.EndDateNotNormalised | src/pages/admin/Renewals.tsx:72-79 | an end date with a time of day goes out verbatim; the corrected payload sends its calendar day |
| AdminRenewalsPage.FixedPayloadParses | src/pages/admin/Renewals.tsx:72-79 | when the payload as written goes out and the end date parses, the corrected one goes out too |
| AdminRenewalsPage.FixedPayloadDates | src/pages/admin/Renewals.tsx:72-79 | the corrected payload sends each filled-in date as its calendar day |
| AdminRenewalsPage.HandleEditRenewal | src/pages/admin/Renewals.tsx:114-121 | nothing is sent exactly when the id is falsy; otherwise the whole data goes to that id |
| AdminRenewalsPage.EditWithoutIdIgnored | src/pages/admin/Renewals.tsx:115 | a missing id, `''`, `0`, `null` or `undefined` sends nothing |
| AdminRenewalsPage.DetailBadge | src/pages/admin/Renewals.tsx:367-386 | the badge prints the table's day count and reads "Expired" exactly when red |
| AdminRenewalsPage.DetailBadgeCases | src/pages/admin/Renewals.tsx:367-386 | "Expired" exactly where the table says so; an unparseable end date shows a green "NaN days"; yellow exactly for an expiring-soon count |
| AdminDashboardPage.FormatDate | src/pages/admin/Dashboard.tsx:150-163 | "N/A" for an empty string, the string itself when it does not parse, the long date otherwise |
| AdminDashboardPage.FormatDateVersusOthers | src/pages/admin/Dashboard.tsx:150-163 | on bad input it agrees with the table and not the shared helper; on a good date it differs from both only in the pattern |
| AdminDashboardPage.HandleDeleteRenewal | src/pages/admin/Dashboard.tsx:98-114 | nothing changes unless confirmed and successful; then the id is removed and the statistics describe the new list |
| AdminDashboardPage.DeleteKeepsStats | src/pages/admin/Dashboard.tsx:98-114 | statistics that described the list keep describing it, and the total drops by the copies removed |
| AdminDashboardPage.SubmittedList | src/pages/admin/Dashboard.tsx:116-134 | a failure leaves the list alone; an edit replaces the edited id's records by the server copy; a creation appends it |
| AdminDashboardPage.HandleFormSubmit | src/pages/admin/Dashboard.tsx:116-148 | the list follows the response, while the statistics always describe the list with the response applied |
| AdminDashboardPage.FailedCreateCountsPhantom | src/pages/admin/Dashboard.tsx:136-142 | a failed creation keeps the list but counts one renewal more, so the statistics no longer describe the list |
| AdminDashboardPage.HandleFormSubmitFixed | src/pages/admin/Dashboard.tsx:136-142 | the corrected submit keeps the statistics on failure |
| AdminDashboardPage.FixedSubmitKeepsStats | src/pages/admin/Dashboard.tsx:116-142 | the corrected submit keeps statistics that describe the list, and agrees with the page whenever the request succeeds |
| AdminDashboardPage.Upcoming | src/pages/admin/Dashboard.tsx:343-346 | the first at most three expiring-soon renewals, in list order |
| AdminDashboardPage.UpcomingEmptyIff | src/pages/admin/Dashboard.tsx:343-369 | the panel is empty, showing "No upcoming renewals", exactly when none is expiring soon; with three or more it shows three |
| UserDashboardPage.GetDaysRemaining | src/pages/user/Dashboard.tsx:216-236 | 0 for an empty or unparseable end date; otherwise the raw millisecond difference rounded up to days |
| UserDashboardPage.WithinOneDayOfShared | src/pages/user/Dashboard.tsx:216-236 | the page's count is the shared helper's, or one more |
| UserDashboardPage.LaterTodayDiverges | src/pages/user/Dashboard.tsx:229-231 | an end date later today is one day away here and zero in the shared helper |
| UserDashboardPage.ShowDays | src/pages/user/Dashboard.tsx:529-547 | "Invalid date" exactly when `isValidDate` fails; otherwise a badge with the page's count that reads "Expired" exactly when red |
| UserDashboardPage.ShowDaysCases | src/pages/user/Dashboard.tsx:529-547 | "Invalid date" exactly where `formatDate` prints "N/A"; "Expired" exactly when the end is not after now; yellow exactly for expiring soon |
| UserDashboardPage.AssignOwner | src/pages/user/Dashboard.tsx:108-110 | a signed-in user always becomes the owner; nothing else changes |
| UserDashboardPage.OwnerStampsDiffer | src/pages/user/Dashboard.tsx:108-110 | for a form naming another owner, the admin page keeps that owner and this page replaces it |
| UserDashboardPage.ConfirmDelete | src/pages/user/Dashboard.tsx:190-213 | nothing changes without a selection or on failure; otherwise the selected id is removed and the statistics describe the new list |
| UserDashboardPage.ConfirmDeleteKeepsStats | src/pages/user/Dashboard.tsx:190-213 | statistics that described the list keep describing it, and never grow |
| UserDashboardPage.EditTarget | src/pages/user/Dashboard.tsx:135-139 | no request exactly without a selection; the data's id when truthy, the selected renewal's id otherwise |
| UserDashboardPage.EditFallsBackToSelected | src/pages/user/Dashboard.tsx:136-139 | a form without an id edits the selected renewal, where the admin page sends nothing |

## Left out

- Network calls are left out: the `api` client, the fetches, the toasts, `alert`, `console` and the PUT-then-PATCH retry. A page sees only the
  response's `success` flag and data, which are parameters.
- The authentication context is a parameter (`AppRoutes.Session`, the
  current user as an `Option`).
- Route matching is exact. React Router's ranking, nested routes and
  trailing slashes are not modelled.
- Rendering, styling, icons and dialogs are not modelled. The DOM class
  list of the theme effect is a set of strings, and the dark-mode toggle is
  left out.
- React's asynchronous state is not modelled. Each handler is modelled as
  the value it computes from the state it closes over. Stale closures over
  `renewals` in the admin dashboard's submit are therefore not modelled.
- The runtime's date parser, clock, `format` and `toISOString` are
  uninterpreted fields of `Calendar`. Timezones and daylight saving are not
  modelled: a day is 86 400 000 ms from the epoch. `DayLaws` and
  `NoSentinelOutput` state the few library facts the lemmas rely on.
- DateUtils.ToDate: arrays and objects never give a valid date. JavaScript
  first turns them to strings.
- JsValues.ParseFloat: no exponent, `Infinity` or hex form, and only ASCII
  whitespace is skipped.
- JsValues.ToNumber: arrays and objects convert to `NaN`.
- Case mapping (`toLowerCase`, `toUpperCase`) is ASCII only.
- The placeholder `{}` that the service returns on failure stands for a
  record whose cost is missing. `AdminDashboardPage.Placeholder` gives it
  cost 0, while the source's sum would become `NaN`. Its status is `Unset`.
- Domain.TallyPerm: costs are mathematical reals, not IEEE doubles. A
  floating-point sum depends on the order of its terms (`1e16 + 1 - 1e16`
  is 0, `1e16 - 1e16 + 1` is 1), so the order independence of the cost
  total, here and in `RenewalService.CalculateRenewalStatsLaws`, holds
  only up to rounding in the source.
- RenewalsTable.AscCompare: sorting by name or provider calls
  `localeCompare` on the first operand's field, which throws when that
  field is missing. The model compares the text `"undefined"` instead,
  because which pairs the runtime's sort compares is implementation-defined.
- RenewalsTable.SortedRenewals: `Array.prototype.sort` with an
  inconsistent comparator is implementation-defined. The model sorts
  stably by insertion. Sortedness is proved only for a total-preorder
  collation and parseable end dates.
- The form's defaults for a new renewal are left out, because they are
  computed from the clock. So are the reset on close and the
  `handleSelectChange` handler, which is `handleChange` without numeric
  parsing.
- RenewalForm.HandleChange takes the input's field as a `Key`.
  `Fields.KeyOf` maps an input name to its key, and `RenewalForm.NumericName`
  covers the name test at RenewalForm.tsx:124.
- The `handleDateChange` of the history view and of the status menu are
  left out. They are the same spread as `ReminderLog.HandleDateChange`.
- MockStore.UpdateRenewal: a patch whose key is present but holds
  `undefined` overwrites the field with `undefined` in the source. In the
  model, a present key always carries a value.
- The unused getters `getAllRenewals`, `getRenewal`, `getRenewalsByStatus`
  and `getRenewalStats` of the service are left out, because they are
  network calls only.
- The statistics cards, the quick links and the add-log modal are left
  out. They are not part of the modelled core.

## Findings

| source | as written | input that shows it | evidently intended | confidence | as-written member | corrected member |
|---|---|---|---|---|---|---|
| src/pages/admin/Renewals.tsx:77-79 | The second date step tests and rewrites `start_date` again, so `end_date` is never normalised. | Add a renewal whose `end_date` is a timestamp with a time of day, such as `2025-06-01T15:30:00Z`. It is sent verbatim. | Normalise `end_date` to its calendar day, as the comment "Format dates correctly for API" says. | not executed | AdminRenewalsPage.EndDateNotNormalised | AdminRenewalsPage.FixedPayloadDates |
| src/pages/admin/Dashboard.tsx:136-142 | The statistics are recomputed from the list with the response applied, whether or not the request succeeded. | A creation that fails: the service answers `success: false` with data `{}`. The list keeps its n renewals, but the statistics count n + 1. | Recompute the statistics only from the list actually kept. | not executed | AdminDashboardPage.FailedCreateCountsPhantom | AdminDashboardPage.FixedSubmitKeepsStats |

## Notes on the code

The model follows the code in each case.

- `camelToSnakeRenewal` (src/utils/dateUtils.ts:109-123) never reads
  `service_name` or `service_type`. A record in the current shape reaches
  the API with an empty `item_name` and `category` `'other'`
  (`RenewalShapes.CurrentShapeLosesNameAndType`).
- The form compares the two dates only when both parse
  (src/components/dashboard/RenewalForm.tsx:104-108), so an end date that
  does not parse raises no error (`RenewalForm.UnparseableEndDatePasses`).
- The table (src/components/dashboard/RenewalsTable.tsx:104-110), the
  user page (src/pages/user/Dashboard.tsx:216-236) and the store
  (src/data/mockRenewals.ts:129-131) count days from raw milliseconds, while the shared helper (src/utils/dateUtils.ts:56-78)
  counts calendar days (`RenewalsTable.DaysRemainingDiverges`,
  `UserDashboardPage.WithinOneDayOfShared`).
- The declared `Renewal` type (src/types/index.ts:12-24) has no
  `service_name`, `service_type` or `provider`, yet the table's search
  reads all three (src/components/dashboard/RenewalsTable.tsx:53-57). A
  record lacking one of them makes the search throw
  (`RenewalsTable.FilteredRenewals`).
- Neither dashboard passes `settings` to the reminder log, and both only
  log the patch it sends (src/pages/admin/Dashboard.tsx:170-179,
  src/pages/user/Dashboard.tsx:244-257). No code applies the patch, so the
  switches always show their defaults and each click resends the same
  patch (`ReminderLog.ClicksResendSamePatch`).
