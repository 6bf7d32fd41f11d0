# Shippy admin dashboard: record pages, salary record and withdrawal wizard

This project models the data layer of the Shippy admin dashboard in Dafny.
The dashboard is a single-user React application. All of its state lives in
the browser's `localStorage`. The model covers three page components:

- **Products** and **Team Members** each keep an ordered list of records
  keyed by a string `id`. When the storage key is absent, the page installs
  and stores fixed sample data. An add appends a record, guarded by trimmed
  required fields. An inline edit rewrites one field of the records whose id
  matches, with `map`. A delete drops them, with `filter`. Every change writes
  the whole list back. One optional `editingId` marks the row in edit mode.
- **Salary** keeps a single salary record. On mount the record is seeded, and
  it is moved on to the next 25th once its date has passed. A one-field edit
  buffer supports edit, save and cancel. The page derives days-until, a
  progress percentage and a monthly average from the record. The withdrawal
  wizard goes from amount entry to payment details, then to a processing
  spinner and an error panel, and finally closes. It never succeeds.

Layout:

- `Storage` models `localStorage` as a class holding a map from key to whole
  value, with `GetItem` and `SetItem`.
- `ProductRecords`, `TeamRecords` and `SalaryRecords` hold the records and the
  pure expressions of each page: the new lists, field edits, seeds, role
  colours and counts, and derived salary figures.
- `RecordLists` defines `filter` and the "map where the id matches" transform
  once, with their lemmas.
- `Text` models `String.prototype.trim`: the slice left after cutting off leading and trailing whitespace, and its emptiness test.
- `Calendar` models dates and clock instants.
- `Withdrawal` is the wizard as a pure state machine. The two `setTimeout`
  callbacks become explicit timer events.
- `ProductsPage.Products`, `TeamMembersPage.TeamMembers` and
  `SalaryPage.Salary` are the components as classes. Their fields are the
  React state. The named constructor `Mount` is the initial render followed
  by the mount effect. The methods are the handlers. Each class's `Valid()`
  says that the stored value equals the one in memory, and every handler
  preserves it. The `Salary` class ties its wizard fields to the pure
  machine through `WizardState()`.

Clock, ids and time zone:

- The clock is a parameter: a `Calendar.Instant` (a UTC date plus
  milliseconds since midnight), or the ISO date text where the page only
  formats it.
- New ids (`Date.now().toString()`) are parameters.
- The local time zone is taken to be UTC.

The salary mount effect is modelled as written. Its closure still holds the
record of the first render. So it compares and spreads the built-in default
record (salary date 2025-08-25), not the record it has just read from storage.
Once that default date has passed, any stored record is replaced on every
mount by the default record with a new salary date, and earlier edits are lost
(`SalaryRecords.LoadIgnoresStoredRecord`).

"Passed" compares the clock with UTC midnight of the date string. A salary date
therefore counts as passed once the first millisecond of its own day is over,
that is, from 00:00:00.001 UTC on (`SalaryRecords.PassedMeans`).

`setMonth(+1)` keeps the day of the month and overflows. From the 29th to the
31st, the new date can therefore skip a month: January 31, 2025 leads to
March 25 (`SalaryRecords.NextPaydaySkipsMonth`,
`SalaryRecords.NextPaydaySkipsFebruary`).

## Model

| member | source | states |
|---|---|---|
| `Text.Trim` | src/components/Products.tsx:60 | `trim()` is the string with a blank prefix and a blank suffix cut off; it is empty exactly when the string is all whitespace, and otherwise starts and ends with a non-whitespace character |
| `RecordLists.Filter` | src/components/Products.tsx:80 | `filter` keeps exactly the elements satisfying the predicate and never lengthens the list |
| `RecordLists.MapWhere` | src/components/Products.tsx:73-75 | the conditional `map` keeps the length and rewrites exactly the selected positions, leaving every other element as it was |
| `ProductRecords.DefaultDraft` | src/components/Products.tsx:18-25 | the add-form draft starts with an empty name, zero stock and price, and a category, GST rate and condition taken from the offered options |
| `ProductRecords.SampleProducts` | src/components/Products.tsx:37-48 | exactly ten sample products with ids "1" to "10", starting with the Cotton T-Shirt record, all in offered categories, at 18% GST and in "New" condition |
| `ProductRecords.SampleProductsUnique` | src/components/Products.tsx:37-48 | the ten sample ids are pairwise distinct |
| `ProductRecords.Edited` | src/components/Products.tsx:74 | `{ ...p, [field]: value }` gives the edited field the new value and leaves every other field unchanged |
| `ProductRecords.EditProducts` | src/components/Products.tsx:72-77 | the edit keeps length, order and every id; it changes records whose id matches (only the named field) and no others; an unknown id yields the same list |
| `ProductRecords.DeleteProducts` | src/components/Products.tsx:79-82 | the result holds exactly the records with another id, and none with the deleted id |
| `ProductRecords.DeleteKeepsOrder` | src/components/Products.tsx:80 | deleting distributes over concatenation, so the surviving records keep their relative order |
| `ProductRecords.DeleteLength` | src/components/Products.tsx:79-82 | with unique ids, a present id removes exactly one record and an absent id leaves the list identical |
| `ProductRecords.DeleteIdempotent` | src/components/Products.tsx:80 | deleting the same id twice equals deleting it once |
| `ProductRecords.UniqueIdsPreserved` | src/components/Products.tsx:59-82 | unique ids stay unique after an edit, after a delete, and after an add whose id is not already taken |
| `ProductsPage.Products.Mount` | src/components/Products.tsx:31-52 | with the key absent, the ten samples are shown and stored; otherwise the stored list is shown and the store is untouched; no row is in edit mode and the form is hidden with the default draft |
| `ProductsPage.Products.SaveProducts` | src/components/Products.tsx:54-57 | the list is shown and stored whole under `shippy_products`; no other key changes |
| `ProductsPage.Products.HandleAddProduct` | src/components/Products.tsx:59-70 | with a non-blank trimmed name, the record with the new id and the draft's fields is appended last and stored, the draft is reset and the form hidden; with a blank name the list, draft, form and store are unchanged |
| `ProductsPage.Products.HandleEditProduct` | src/components/Products.tsx:72-77 | the shown and stored list becomes `EditProducts` of the old list; edit mode, form and draft are unchanged |
| `ProductsPage.Products.HandleDeleteProduct` | src/components/Products.tsx:79-82 | the shown and stored list becomes `DeleteProducts` of the old list |
| `ProductsPage.Products.StartEditing` | src/components/Products.tsx:328 | exactly the given id is in edit mode, replacing any earlier one; the list and store are unchanged |
| `ProductsPage.Products.StopEditing` | src/components/Products.tsx:311-324 | both Save and Cancel leave edit mode and keep the list and store as they are, so cancelling reverts nothing |
| `ProductsPage.Products.ToggleAddForm` | src/components/Products.tsx:92 | the add form flips between shown and hidden; nothing else changes |
| `ProductsPage.Products.CloseAddForm` | src/components/Products.tsx:181 | the add form is hidden and the draft is kept |
| `ProductsPage.Products.EditDraft` | src/components/Products.tsx:109-163 | an add-form input changes exactly one field of the draft |
| `TeamRecords.DefaultDraft` | src/components/TeamMembers.tsx:17-23 | the member draft starts blank, with role Employee and today's date as join date |
| `TeamRecords.SampleMembers` | src/components/TeamMembers.tsx:33-58 | exactly three sample members with ids "1" to "3", all distinct, each holding one of the five roles |
| `TeamRecords.Edited` | src/components/TeamMembers.tsx:84 | the named field takes the value and every other field is unchanged |
| `TeamRecords.EditMembers` | src/components/TeamMembers.tsx:82-87 | the edit keeps length, order and ids; it changes only the named field of matching members and leaves the others as they were; an unknown id yields the same list |
| `TeamRecords.DeleteMembers` | src/components/TeamMembers.tsx:89-92 | the result holds exactly the members with another id, and none with the deleted id |
| `TeamRecords.DeleteKeepsOrder` | src/components/TeamMembers.tsx:90 | deleting distributes over concatenation, so the remaining members keep their relative order |
| `TeamRecords.DeleteLength` | src/components/TeamMembers.tsx:89-92 | with unique ids, a present id removes exactly one member and an absent id leaves the list identical |
| `TeamRecords.UniqueIdsPreserved` | src/components/TeamMembers.tsx:69-92 | unique ids stay unique after an edit, after a delete, and after an add with an unused id |
| `TeamRecords.RoleColor` | src/components/TeamMembers.tsx:94-109 | the gray default is returned exactly for strings that are not one of the five roles |
| `TeamRecords.RoleColorsDistinct` | src/components/TeamMembers.tsx:94-109 | two different roles never share a badge colour |
| `RecordLists.FilterLength` | src/components/TeamMembers.tsx:363 | `xs.filter(p).length` equals the number of elements satisfying `p`, counted independently |
| `TeamRecords.RoleCount` | src/components/TeamMembers.tsx:363 | the count is the number of members holding the role; it is at most the total, and zero exactly when no member holds the role |
| `TeamRecords.RoleCountAfterAdd` | src/components/TeamMembers.tsx:69-80 | adding a member raises its role's count by one and leaves every other role's count unchanged |
| `TeamRecords.RoleCountsWithinTotal` | src/components/TeamMembers.tsx:352-374 | Admins plus Employees never exceed the Total card |
| `TeamMembersPage.TeamMembers.Mount` | src/components/TeamMembers.tsx:27-62 | with the key absent, the three samples are shown and stored; otherwise the stored list is shown and the store is untouched |
| `TeamMembersPage.TeamMembers.SaveTeamMembers` | src/components/TeamMembers.tsx:64-67 | the list is shown and stored whole under `shippy_team_members`; no other key changes |
| `TeamMembersPage.TeamMembers.HandleAddMember` | src/components/TeamMembers.tsx:69-80 | when both the trimmed name and the trimmed email are non-empty, the new member is appended last and stored, the draft is reset with today's date and the form hidden; otherwise list, draft, form and store are unchanged |
| `TeamMembersPage.TeamMembers.HandleEditMember` | src/components/TeamMembers.tsx:82-87 | the shown and stored list becomes `EditMembers` of the old list |
| `TeamMembersPage.TeamMembers.HandleDeleteMember` | src/components/TeamMembers.tsx:89-92 | the shown and stored list becomes `DeleteMembers` of the old list |
| `TeamMembersPage.TeamMembers.StartEditing` | src/components/TeamMembers.tsx:323 | exactly the given id is in edit mode, replacing any earlier one |
| `TeamMembersPage.TeamMembers.StopEditing` | src/components/TeamMembers.tsx:305-318 | Save and Cancel both clear edit mode and keep the list and store |
| `TeamMembersPage.TeamMembers.ToggleAddForm` | src/components/TeamMembers.tsx:119 | the add form flips between shown and hidden |
| `TeamMembersPage.TeamMembers.CloseAddForm` | src/components/TeamMembers.tsx:192 | the add form is hidden and the draft kept |
| `TeamMembersPage.TeamMembers.EditDraft` | src/components/TeamMembers.tsx:136-178 | an add-form input changes exactly one field of the draft |
| `TeamMembersPage.TeamMembers.RoleSummary` | src/components/TeamMembers.tsx:352-374 | Total is the list length; Admins and Employees are the role counts, and together they are at most Total |
| `SalaryRecords.InitialSalary` | src/components/Salary.tsx:23-29 | the default record: salary 45000, next salary 3500 on 2025-08-25, total earnings 170000, last update today |
| `SalaryRecords.Current` | src/components/Salary.tsx:78 | the buffer entry created for a field belongs to that field and holds its current value |
| `SalaryRecords.WithEdit` | src/components/Salary.tsx:85 | writing a buffered value changes that field only |
| `SalaryRecords.CurrentRoundTrip` | src/components/Salary.tsx:76-85 | saving an unedited buffer writes back the value already there, so the record is unchanged |
| `SalaryRecords.Saved` | src/components/Salary.tsx:83-87 | the saved record changes the buffered field and `lastUpdate`, and nothing else |
| `SalaryRecords.DaysUntil` | src/components/Salary.tsx:120-126 | the ceiling of the millisecond difference to UTC midnight of the salary date, in days, equals the difference of the day numbers whatever the time of day |
| `SalaryRecords.IsDue` | src/components/Salary.tsx:576-579 | `daysUntilSalary > 0` fails, so the card shows "Due Today!" and "Payment due"; its calendar meaning is `DueMeans` |
| `SalaryRecords.DueMeans` | src/components/Salary.tsx:576-579 | the card shows "Due Today!" exactly when the salary date is today or an earlier day; otherwise it shows a day count of at least 1 |
| `SalaryRecords.ProgressPercent` | src/components/Salary.tsx:591 | the nearest whole percent of `(30 - max(days, 0)) / 30`, halves up; 100 when due, and between 0 and 100 for waits of 0 to 30 days |
| `SalaryRecords.ProgressAntitone` | src/components/Salary.tsx:591 | a longer wait never shows more progress |
| `SalaryRecords.AverageMonthly` | src/components/Salary.tsx:668 | `round(totalEarnings / 5)`: within half a rupee of a fifth of the total, halves up |
| `SalaryRecords.Passed` | src/components/Salary.tsx:56-58 | `today > nextSalary` as a comparison of epoch milliseconds with UTC midnight of the date; its meaning in calendar terms is `PassedMeans` |
| `SalaryRecords.PassedMeans` | src/components/Salary.tsx:56-58 | `today > nextSalary` holds exactly when the salary date is an earlier day, or today after its first millisecond |
| `SalaryRecords.NextPayday` | src/components/Salary.tsx:59-61 | the moved-on date is a calendar date on the 25th, strictly after today |
| `SalaryRecords.NextPaydayNextMonth` | src/components/Salary.tsx:60-61 | when today's day exists in the next month (always up to the 28th), the new date is the 25th of that month; with `NextPaydaySkipsMonth` every day is covered |
| `SalaryRecords.NextPaydaySkipsMonth` | src/components/Salary.tsx:59-61 | whenever today's day does not exist in the next month (only from the 29th to the 31st), the new date is the 25th of the month after the next |
| `SalaryRecords.NextPaydaySkipsFebruary` | src/components/Salary.tsx:60-61 | January 31, 2025 moves on to March 25, 2025 |
| `SalaryRecords.LoadAdvancesPassedDate` | src/components/Salary.tsx:55-68 | once the initial date has passed, the loaded record has a date on the 25th strictly after today; its days-until is positive, so it is not "Due Today!"; all other fields are the initial record's |
| `SalaryRecords.LoadIgnoresStoredRecord` | src/components/Salary.tsx:56-66 | once the initial date has passed, the loaded record does not depend on what was stored |
| `SalaryRecords.LoadedSalary` | src/components/Salary.tsx:47-68 | before the initial date has passed, the stored record is used unchanged, or the initial one when nothing was stored; afterwards the initial record with only its salary date moved on to a 25th strictly after today |
| `SalaryPage.Salary.Mount` | src/components/Salary.tsx:47-69 | the shown record is the as-written load result; it is what ends up stored, and no other key changes; no field is being edited and the wizard is closed |
| `SalaryPage.Salary.SaveSalaryData` | src/components/Salary.tsx:71-74 | the record is shown and stored under `shippy_salary` |
| `SalaryPage.Salary.HandleEdit` | src/components/Salary.tsx:76-79 | the edited field becomes `f`; the buffer becomes exactly `{f: current value}`, dropping anything buffered before |
| `SalaryPage.Salary.UpdateBuffer` | src/components/Salary.tsx:417 | the input of the field being edited replaces its buffered value only |
| `SalaryPage.Salary.HandleSave` | src/components/Salary.tsx:81-92 | when `f` is buffered, only `f` and `lastUpdate` change and the result is stored; otherwise record and store are unchanged; in every case editing ends and the buffer is emptied |
| `SalaryPage.Salary.HandleCancel` | src/components/Salary.tsx:94-97 | editing ends and the buffer is emptied; the record and the store are untouched |
| `SalaryPage.Salary.OpenWithdrawal` | src/components/Salary.tsx:138 | the modal opens; the record is untouched |
| `SalaryPage.Salary.EnterAmount` | src/components/Salary.tsx:199 | step 1's input sets the requested amount |
| `SalaryPage.Salary.ChooseMethod` | src/components/Salary.tsx:257-275 | the method buttons set the payout method |
| `SalaryPage.Salary.FillDetail` | src/components/Salary.tsx:295-353 | the detail inputs set one detail and keep amount and method |
| `SalaryPage.Salary.HandleWithdrawalSubmit` | src/components/Salary.tsx:99-118 | the wizard takes the `Submit` step against the current total earnings; the salary record, the buffer and the store never change |
| `SalaryPage.Salary.TimerElapsed` | src/components/Salary.tsx:107-116 | the pending callback fires: processing gives way to the error panel, and the error panel to the closed, reset wizard |
| `SalaryPage.Salary.CloseWithdrawal` | src/components/Salary.tsx:174-178 | the modal closes with step 1 and `{amount: 0, method: 'bank'}` |
| `SalaryPage.Salary.BackToAmount` | src/components/Salary.tsx:363 | "Back" returns to step 1 and keeps the amount and details |
| `Withdrawal.WithDetail` | src/components/Salary.tsx:295-353 | the edited detail takes the typed text; the amount, the method and the other four details are unchanged |
| `Withdrawal.ContinueEnabled` | src/components/Salary.tsx:238 | the negation of `disabled`: a non-zero amount not above total earnings; how it relates to the handler is `ContinueButtonVersusHandler` |
| `Withdrawal.Submit` | src/components/Salary.tsx:99-118 | the modal stays open and the request is kept; step 1 moves to step 2 exactly when `0 < amount <= totalEarnings` and leaves the form on screen; step 2 shows the spinner and schedules the processing callback |
| `Withdrawal.TimerFires` | src/components/Salary.tsx:107-116 | keeps the wizard consistent; the processing callback swaps the spinner for the error panel and schedules the error callback; the error callback leaves the closed, reset wizard |
| `Withdrawal.Close` | src/components/Salary.tsx:174-178 | the modal is hidden with step 1 and `{amount: 0, method: 'bank'}` |
| `Withdrawal.Back` | src/components/Salary.tsx:363 | step 1 is on screen again with the request and timers as they were |
| `Withdrawal.Open` | src/components/Salary.tsx:138 | the modal becomes visible and nothing else changes; a closed consistent wizard opens onto its form |
| `Withdrawal.EnterAmount` | src/components/Salary.tsx:199 | on step 1 the typed amount replaces the request's amount; the method, the details, the step and the timers are unchanged and the form stays on screen |
| `Withdrawal.ChooseMethod` | src/components/Salary.tsx:257-275 | on step 2 the clicked method replaces the request's method; the amount, the details, the step and the timers are unchanged and the form stays on screen |
| `Withdrawal.FillDetail` | src/components/Salary.tsx:295-353 | on step 2 the typed text goes into one detail exactly as `WithDetail` states; everything outside the request is unchanged and the form stays on screen |
| `Withdrawal.FormShownHasNoTimer` | src/components/Salary.tsx:150-167 | while a form is on screen, no callback is waiting |
| `Withdrawal.ApplyKeepsConsistent` | src/components/Salary.tsx:99-118 | every event keeps the wizard invariant: the spinner is up exactly while processing is pending, the error panel exactly while the error delay is pending, both only on an open step 2 with a positive amount |
| `Withdrawal.RunKeepsConsistent` | src/components/Salary.tsx:99-178 | any feasible sequence of events from a consistent state, the closed wizard included, leaves it consistent |
| `Withdrawal.SubmitAmountGuard` | src/components/Salary.tsx:100-103 | step 1's submit moves to step 2 exactly when `0 < amount <= totalEarnings`, and otherwise leaves the wizard unchanged |
| `Withdrawal.ContinueButtonVersusHandler` | src/components/Salary.tsx:238 | a positive enabled amount is accepted, and a disabled button's amount would be rejected; a negative amount leaves the button enabled but is rejected by the handler |
| `Withdrawal.SubmitDetailsAlwaysFails` | src/components/Salary.tsx:104-116 | submitting step 2 shows the spinner, then the error panel, then ends in the closed wizard with step 1 and an empty request; there is no success outcome |
| `Withdrawal.CloseResetsBackKeeps` | src/components/Salary.tsx:174-178 | closing from a form yields exactly the closed, reset wizard; "Back" keeps the modal open with the request intact |
| `Storage.LocalStore.GetItem` | src/components/Products.tsx:32 | `getItem` returns the value stored under the key, or nothing when the key is absent |
| `Storage.LocalStore.SetItem` | src/components/Products.tsx:56 | `setItem` overwrites the whole value under the key, and every other key keeps its value |

## Left out

- Rendering, styling, icons and the fixed display lists (salary history, recent activity) are presentation only.
- JSON encoding is not modelled: a key holds exactly the value written. Malformed stored data is out of scope, so each `Mount` requires the stored value under its key to have the page's shape, with calendar dates in a salary record.
- `setTimeout` delays are not modelled as time. The two callbacks are `TimerElapsed` events.
- `Date` arithmetic is reduced to calendar dates plus milliseconds of the day, with the local time zone taken as UTC. Time-zone shifts of `setMonth`, `setDate` and `toISOString` are out of scope.
- Floating-point amounts and prices are whole numbers. The `parseFloat(...) || 0` and `parseInt(...) || 0` coercions of the inputs are not modelled: handlers receive numbers.
- A cleared date input gives `""`, which is an invalid `Date`. This is not modelled: the edit that carries a date carries a calendar date.
- `Date.now()` ids are a parameter. The code does not promise them to be unique, so freshness only appears as the hypothesis of the add case in the ensures of `UniqueIdsPreserved`.
- `ProductsPage.Products.HandleEditProduct`, `TeamMembersPage.TeamMembers.HandleEditMember`: the field argument is typed `keyof T` and admits `id`, but no caller passes it. Editing the id is not modelled.
- `SalaryPage.Salary.HandleEdit`: the string argument could name `lastUpdate`, but only the four fields with edit buttons are modelled.
- `ProductsPage.Products.HandleDeleteProduct` has no caller in the page's markup. It is modelled as the handler it is.
- Some handlers are reachable only from controls that are on screen in certain states. The wizard's inputs, buttons and submit exist only while the modal shows a form, not the spinner or the error panel. The salary buffer input exists only for the field being edited. These handlers require that state, which is the render condition of their control. Each cites the corresponding JSX.
- `Withdrawal.FillDetail`: step 2 renders only the inputs of the chosen payout method, yet the model accepts an edit of any detail whatever the method. Such edits are harmless: every detail is optional and nothing reads the details.
- Overview, Dashboard, App and the real-time clock components are not part of this model. They are read-only lookups with hard-coded fallbacks, a tab switch, the login flag in `shippy_auth`, and a ticking time display.
- Two mounted copies of one page writing the same key are covered only in that `SetItem` is last-write-wins. The model says nothing about the copies' views diverging.
