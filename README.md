# Air-conditioning service booking: client-side model

This project models the logic of the React front end of an air-conditioning
service business. Customers book cleaning, repair, installation and
maintenance visits. Administrators review appointments, keep a calendar, and
read revenue and reports. Each page is a Dafny module. Its pure computations
(filters, the sort, page arithmetic, the CSV text, date keys, totals) are
functions with contracts and lemmas. Its component state (the form, the tab
shown, the open modals, the page number, the browser's `localStorage`) is a
class whose methods change fields named in `modifies` clauses.

The front end has no scheduling back end: nothing in it keeps a capacity per
day, checks availability before booking, reserves slots or moves an appointment
through its lifecycle. The admin handlers only log and show a toast, and the
API module only sends HTTP requests. None of that is modelled.

Modules:

- `Wrappers`, `Seqs`, `Text`, `Dates` are shared helpers:
  - `Option`;
  - JavaScript's `filter`, `join`, `split`, `String(n)`, `padStart`, and string `<` taken as code-point order;
  - the fact that on strings of the `YYYY-MM-DD` shape, string order is the order of (year, month, day) read as numbers.
- `Reports` covers `src/Pages/admin/ReportsPage.tsx`: the status tabs, the column sort, ten rows per page and the CSV export.
- `Booking` covers `src/Pages/BookingPage.tsx`: the booking form with its list of services.
- `Calendar` covers `src/Pages/admin/CalendarPage.tsx`:
  - the month grid;
  - day keys;
  - events per day and the "+k more" line;
  - the unavailable-day toggle.
- `Revenue` covers `src/Pages/admin/RevenuePage.tsx`: per-row discount edits and the totals.
- `AdminAppointments` covers `src/Pages/admin/AppointmentsPage.tsx`:
  - the tabs and the actions each tab offers;
  - the technician checkboxes;
  - the guarded modal handlers;
  - the status labels.
- `CustomerAppointments` covers `src/Pages/customer/AppointmentsPage.tsx`: the upcoming/past split, the row actions and the badge colours.
- `Storage` is `localStorage`, a map from keys to values.
- `ProtectedRoute` covers `src/routes/ProtectedRoute.tsx`: the route guard.
- `AuthLayout` covers `src/Auth/AuthLayout.tsx`: logout.
- `CustomerLogin` and `AdminLogin` cover the two login pages.

## Model

| member | source | states |
|---|---|---|
| Seqs.Filter | src/Pages/admin/ReportsPage.tsx:97 | `filter` keeps exactly the elements that pass, never more than the input |
| Seqs.FilterAppend | src/Pages/admin/ReportsPage.tsx:97 | filtering a concatenation is concatenating the filters, so order is kept |
| Seqs.FilterPartition | src/Pages/customer/AppointmentsPage.tsx:60-62 | two complementary filters together keep every element exactly once |
| Seqs.FilterNoDuplicates | src/Pages/admin/CalendarPage.tsx:72 | filtering never introduces a duplicate |
| Seqs.RemoveAll | src/Pages/admin/CalendarPage.tsx:72 | `filter(y => y !== x)` drops every `x` and keeps every other value's membership |
| Seqs.RemoveAllAfterAppend | src/Pages/admin/CalendarPage.tsx:72-75 | removing a value just appended (and absent before) restores the list |
| Text.Split | src/Pages/admin/ReportsPage.tsx:134-145 | `split` gives at least one piece and no piece holds the separator; the page itself only joins here, and `Split` is the reader the CSV read-back lemmas use |
| Text.SplitJoin | src/Pages/admin/ReportsPage.tsx:134-145 | join then split is the identity when no part holds the separator |
| Text.JoinSplit | src/Pages/admin/ReportsPage.tsx:134-145 | split then join is the identity on every string |
| Text.NatToString | src/Pages/BookingPage.tsx:60 | `String(n)` is a non-empty digit string without a leading zero |
| Text.ParseNatToString | src/Pages/BookingPage.tsx:60 | the digits of `String(n)` denote `n` |
| Text.IntToStringDenotes | src/Pages/admin/CalendarPage.tsx:104 | `String(i)` is non-empty, starts with '-' exactly for a negative `i`, and its digit part denotes `|i|` |
| Text.IntToStringInjective | src/Pages/admin/CalendarPage.tsx:104 | `String(i)` is one-to-one on integers, negatives included |
| Text.PadStart | src/Pages/admin/CalendarPage.tsx:104 | `padStart` gives the target length, ends with the input and fills only in front |
| Text.TwoDigitsValue | src/Pages/admin/CalendarPage.tsx:104 | below 100, the padded form has two digits and denotes the number |
| Text.LexTrichotomy | src/Pages/admin/ReportsPage.tsx:118-120 | of two strings exactly one is less or they are equal, so the comparator's three branches cover every pair |
| Text.LexDigits | src/Pages/admin/ReportsPage.tsx:118-119 | on equal-length digit strings, `<` is numeric order and equality is equal value |
| Dates.StringOrderIsCalendarOrder | src/Pages/admin/ReportsPage.tsx:113-119 | on strings of the `YYYY-MM-DD` shape, string `<` is the order of (year, month, day) read as numbers, and equal strings have equal numbers; the shape does not check that the month or day exists |
| Reports.FilterByStatus | src/Pages/admin/ReportsPage.tsx:97 | the tab lists exactly the records with the tab's status |
| Reports.FilterByStatusAppend | src/Pages/admin/ReportsPage.tsx:97 | the tab filter keeps the records' original order |
| Reports.TabCountsSum | src/Pages/admin/ReportsPage.tsx:333-335 | the three tab counts add up to the number of records |
| Reports.Compare | src/Pages/admin/ReportsPage.tsx:109-121 | the comparator is -1, 0 or 1; 0 exactly on equal keys; negative exactly when `a`'s key is less (asc) or greater (desc) |
| Reports.CompareMeaning | src/Pages/admin/ReportsPage.tsx:109-121 | the comparator puts `a` first exactly when the keys are non-decreasing (asc) or non-increasing (desc) |
| Reports.KeysInOrderTotal | src/Pages/admin/ReportsPage.tsx:118-119 | any two keys are in order one way or the other |
| Reports.KeysInOrderTransitive | src/Pages/admin/ReportsPage.tsx:118-119 | key order is transitive in both directions |
| Reports.Insert | src/Pages/admin/ReportsPage.tsx:109-121 | inserting into a sorted list keeps it sorted and adds exactly the one record |
| Reports.SortRecords | src/Pages/admin/ReportsPage.tsx:109-121 | the sorted copy is a permutation of the tab's records, ordered on the column in the chosen direction |
| Reports.SortedOnDateIsChronological | src/Pages/admin/ReportsPage.tsx:113-119 | a list sorted on the date column, with dates of the `YYYY-MM-DD` shape, is in (year, month, day) order: ascending for asc, descending for desc |
| Reports.SortedByDateIsChronological | src/Pages/admin/ReportsPage.tsx:109-121 | sorting on the date column lists dates of the `YYYY-MM-DD` shape in (year, month, day) order |
| Reports.TotalPages | src/Pages/admin/ReportsPage.tsx:123 | `ceil(n / 10)`: the fewest pages of ten that hold every row |
| Reports.ClampIndex | src/Pages/admin/ReportsPage.tsx:125 | `slice` keeps an index in `[0, len]`, reads `-len <= i < 0` as `len + i`, maps anything below `-len` to 0 and anything past `len` to `len` |
| Reports.PageRows | src/Pages/admin/ReportsPage.tsx:124-125 | page `p` is `sorted[(p-1)*10 .. min((p-1)*10+10, n)]`, at most ten rows |
| Reports.RowOnPage | src/Pages/admin/ReportsPage.tsx:123-125 | row `i` appears at position `i % 10` of page `i / 10 + 1`, and that page is within the page count |
| Reports.PreviousPage | src/Pages/admin/ReportsPage.tsx:381 | one page back, never below 1 (ranges in PageButtonsStayInRange) |
| Reports.NextPage | src/Pages/admin/ReportsPage.tsx:407 | one page on, never past the last page (ranges in PageButtonsStayInRange) |
| Reports.PageButtonsStayInRange | src/Pages/admin/ReportsPage.tsx:381-407 | Previous and Next keep the page in `[1, totalPages]`; each moves exactly when not at its end |
| Reports.Headers | src/Pages/admin/ReportsPage.tsx:128-132 | four headers for completed records and five otherwise; customer, service and AC type on every tab; the reason only on the rejected tab; the original and new dates only on the rescheduled tab |
| Reports.CsvCells | src/Pages/admin/ReportsPage.tsx:134-143 | a record gives as many cells as its tab has headers |
| Reports.CellsUnderHeaders | src/Pages/admin/ReportsPage.tsx:128-143 | each cell is the record's value for the field its header names, with "" for a missing reason or date |
| Reports.CsvLines | src/Pages/admin/ReportsPage.tsx:127-145 | the export is the header line, then one comma-joined line per sorted record, in order |
| Reports.CsvContent | src/Pages/admin/ReportsPage.tsx:133-145 | the exported text begins with the header line, and is just that line when the tab is empty |
| Reports.CsvShape | src/Pages/admin/ReportsPage.tsx:128-143 | four columns for completed records and five otherwise; every line has as many cells as the header |
| Reports.HeadersPlain | src/Pages/admin/ReportsPage.tsx:128-132 | no header holds a comma or a line break |
| Reports.LineReadsBack | src/Pages/admin/ReportsPage.tsx:134-144 | a line of cells without commas or line breaks splits back into those cells |
| Reports.CsvReadsBack | src/Pages/admin/ReportsPage.tsx:134-145 | when no cell holds a comma or a line break, the text splits back into the header and each record's cells |
| Reports.CommaInReasonAddsColumn | src/Pages/admin/ReportsPage.tsx:140 | without quoting, the reason "late, again" yields six cells under a five-column header |
| Reports.ReportsView.PaginatedRecords | src/Pages/admin/ReportsPage.tsx:123-125 | the table shows at most ten rows, each a record of the active tab |
| Reports.ReportsView.constructor | src/Pages/admin/ReportsPage.tsx:22-26 | the page opens on the completed tab, page 1, sorted on date, descending |
| Reports.ReportsView.HandleSort | src/Pages/admin/ReportsPage.tsx:99-107 | the same column flips the direction; a new column sorts ascending; both go back to page 1 |
| Reports.ReportsView.SelectTab | src/Pages/admin/ReportsPage.tsx:339-342 | a tab click shows that tab from page 1 and keeps the sort |
| Reports.ReportsView.GoToPreviousPage | src/Pages/admin/ReportsPage.tsx:381 | Previous sets `max(1, page - 1)` and keeps the page valid |
| Reports.ReportsView.GoToNextPage | src/Pages/admin/ReportsPage.tsx:407 | Next sets `min(totalPages, page + 1)` and keeps the page valid |
| Reports.ReportsView.GoToPage | src/Pages/admin/ReportsPage.tsx:389-404 | a numbered button (one of the first five pages) shows that page |
| Booking.ApplyEdit | src/Pages/BookingPage.tsx:44-47 | a service edit sets its own field and keeps the other three |
| Booking.ChangeService | src/Pages/BookingPage.tsx:41-53 | the list keeps its length, service `index` is edited and every other service is unchanged |
| Booking.WithAddedService | src/Pages/BookingPage.tsx:55-63 | one default service is appended with id `String(oldLength + 1)`, and the old ones keep their places |
| Booking.WithoutService | src/Pages/BookingPage.tsx:65-70 | an in-range index drops exactly that service; an out-of-range index changes nothing |
| Booking.RemoveKeepsOthers | src/Pages/BookingPage.tsx:65-70 | removal shortens the list by one, shifts the later services down, and keeps a list of two or more non-empty |
| Booking.AddAfterRemoveRepeatsId | src/Pages/BookingPage.tsx:60 | remove-then-add gives the new service the id the last service already has |
| Booking.InitialFormRepeatsIdAfterEdits | src/Pages/BookingPage.tsx:55-70 | from the initial form, add, remove the first, add gives two services with id "2" |
| Booking.BookingForm.constructor | src/Pages/BookingPage.tsx:25-31 | empty contact fields and exactly one service: id "1", Cleaning, Split, no date |
| Booking.BookingForm.HandleInputChange | src/Pages/BookingPage.tsx:33-39 | only the named contact field changes; the services are untouched |
| Booking.BookingForm.HandleServiceChange | src/Pages/BookingPage.tsx:41-53 | the services become the edited list, and the list stays non-empty |
| Booking.BookingForm.AddService | src/Pages/BookingPage.tsx:55-63 | the services get the appended default service |
| Booking.BookingForm.RemoveService | src/Pages/BookingPage.tsx:65-70 | the services lose the indexed service; with the button's guard (more than one service, lines 215-223) the list stays non-empty |
| Calendar.ToggleDay | src/Pages/admin/CalendarPage.tsx:70-78 | a toggled date is listed afterwards exactly when it was not before; other dates keep their membership |
| Calendar.ToggleKeepsOthersInOrder | src/Pages/admin/CalendarPage.tsx:71-76 | other dates keep their order and count; an unlisted date is appended at the end |
| Calendar.ToggleTwice | src/Pages/admin/CalendarPage.tsx:72-75 | toggling an unlisted date twice restores the list exactly |
| Calendar.ToggleNoDuplicates | src/Pages/admin/CalendarPage.tsx:71-75 | the toggle keeps a duplicate-free list duplicate-free |
| Calendar.MonthGrid | src/Pages/admin/CalendarPage.tsx:80-101 | `s + n` cells: `s` blanks, then cell `s + d - 1` holds day `d`, for `1 <= d <= n` |
| Calendar.KeyPieces | src/Pages/admin/CalendarPage.tsx:104 | a key splits back into year, month and day, because the last two parts are two characters wide |
| Calendar.DateKeyInjective | src/Pages/admin/CalendarPage.tsx:104 | different days (any year, month index 0-11, day below 100) have different keys (`DateKey`) |
| Calendar.FourDigits | src/Pages/admin/CalendarPage.tsx:104 | a year from 1000 to 9999 prints as four digits |
| Calendar.DateKeyWellFormed | src/Pages/admin/CalendarPage.tsx:104 | for a four-digit year, the key `DateKey` builds is `YYYY-MM-DD` naming that year, month + 1 and day |
| Calendar.JoinedDatePieces | src/Pages/admin/CalendarPage.tsx:104 | four digits, two digits and two digits joined by '-' are a `YYYY-MM-DD` string whose fields are those pieces |
| Calendar.KeyIsOnlyNameOfDay | src/Pages/admin/CalendarPage.tsx:104 | for a four-digit year, the key is the only `YYYY-MM-DD` string naming its day |
| Calendar.EventsForDate | src/Pages/admin/CalendarPage.tsx:103-106 | a day's events are exactly the events whose date is that day's key |
| Calendar.EventInItsDayCell | src/Pages/admin/CalendarPage.tsx:103-106 | an event with a well-formed date is in a day's cell exactly when its year, month and day are that day's |
| Calendar.ShownEvents | src/Pages/admin/CalendarPage.tsx:245 | a cell draws the first `min(3, k)` of its `k` events |
| Calendar.CellAccountsForAllEvents | src/Pages/admin/CalendarPage.tsx:245-258 | "+m more" appears exactly when `k > 3`; the drawn events plus `m` make `k` |
| Calendar.UnavailableExactlyWhenListed | src/Pages/admin/CalendarPage.tsx:122-125 | `isDateUnavailable` (IsDateUnavailable): for a four-digit year, a day is marked exactly when the list holds a `YYYY-MM-DD` string naming that day |
| Calendar.ClickFlipsOnlyThatDay | src/Pages/admin/CalendarPage.tsx:227-230 | clicking a day flips that day's unavailable mark and no other day's |
| Calendar.CalendarView.constructor | src/Pages/admin/CalendarPage.tsx:17-18 | the page opens on the current month with no date marked |
| Calendar.CalendarView.GetEventsForDate | src/Pages/admin/CalendarPage.tsx:103-106 | `getEventsForDate(day)` on the page's own events and month: exactly the events dated that day of the month shown |
| Calendar.CalendarView.ToggleDayAvailability | src/Pages/admin/CalendarPage.tsx:70-78 | the unavailable list becomes its toggle |
| Calendar.CalendarView.ClickDay | src/Pages/admin/CalendarPage.tsx:227-230 | the cell's click toggles the key that `isDateUnavailable` reads, so the cell's mark flips |
| Revenue.WithDiscount | src/Pages/admin/RevenuePage.tsx:72-78 | the saved row has the new discount and net = gross - discount; id, date, customer, service and gross are kept |
| Revenue.SaveDiscount | src/Pages/admin/RevenuePage.tsx:69-82 | every row with the id gets the new discount and net; other rows, the length and the order are kept |
| Revenue.SaveKeepsConsistent | src/Pages/admin/RevenuePage.tsx:73 | saving keeps net = gross - discount on every row |
| Revenue.SaveUnchangedDiscount | src/Pages/admin/RevenuePage.tsx:64-82 | editing a row and saving without a change leaves a consistent ledger with unique ids as it was |
| Revenue.SaveDoesNotClamp | src/Pages/admin/RevenuePage.tsx:73 | a discount above the gross is stored as is, and the net goes negative |
| Revenue.CalculateTotals | src/Pages/admin/RevenuePage.tsx:97-103 | on a consistent ledger, the net total is the gross total less the discount total |
| Revenue.NetTotalIsGrossLessDiscount | src/Pages/admin/RevenuePage.tsx:97-103 | over consistent rows, the sum of the nets is the sum of the gross amounts less the sum of the discounts (by induction over the fold) |
| Revenue.SaveKeepsGrossTotal | src/Pages/admin/RevenuePage.tsx:69-103 | saving a discount never changes the gross total |
| Revenue.SampleTotals | src/Pages/admin/RevenuePage.tsx:23-60 | the sample rows are consistent and total 24000 gross, 1650 discount, 22350 net |
| Revenue.RevenueLedger.constructor | src/Pages/admin/RevenuePage.tsx:17-19 | no rows, nothing being edited, the input at 0 |
| Revenue.RevenueLedger.LoadSampleRecords | src/Pages/admin/RevenuePage.tsx:22-62 | the mount effect loads the sample rows, which are consistent |
| Revenue.RevenueLedger.EditDiscount | src/Pages/admin/RevenuePage.tsx:64-67 | the row is being edited, starting from its current discount |
| Revenue.RevenueLedger.SetTempDiscount | src/Pages/admin/RevenuePage.tsx:223 | the input's change sets the pending discount |
| Revenue.RevenueLedger.SaveDiscountFor | src/Pages/admin/RevenuePage.tsx:69-85 | the rows take the save, no row is being edited, and consistency is kept |
| Revenue.RevenueLedger.CancelEdit | src/Pages/admin/RevenuePage.tsx:87-90 | no row is being edited, the input resets to 0, and the rows are untouched |
| Revenue.RevenueLedger.Summary | src/Pages/admin/RevenuePage.tsx:97-103 | the summary cards satisfy net = gross - discount |
| AdminAppointments.FilteredAppointments | src/Pages/admin/AppointmentsPage.tsx:96-98 | the pending tab lists exactly the pending appointments; the accepted tab exactly the accepted ones |
| AdminAppointments.TabsShowOnlyOpenWork | src/Pages/admin/AppointmentsPage.tsx:96-98 | completed and rejected appointments appear under neither tab, and none appears under both |
| AdminAppointments.SampleTabs | src/Pages/admin/AppointmentsPage.tsx:32-51 | on the sample data each tab shows one appointment |
| AdminAppointments.Actions | src/Pages/admin/AppointmentsPage.tsx:210-244 | Accept and Reject only on the pending tab, Complete only on the accepted tab, Reschedule on both |
| AdminAppointments.ToggleTechnician | src/Pages/admin/AppointmentsPage.tsx:337-343 | checking lists the id; unchecking removes every occurrence; other ids keep their membership |
| AdminAppointments.ToggleTechnicianKeepsOthers | src/Pages/admin/AppointmentsPage.tsx:337-343 | other ids keep their order and count |
| AdminAppointments.UpperChar | src/Pages/admin/AppointmentsPage.tsx:205 | ASCII lower-case letters go to upper case; every other character is kept |
| AdminAppointments.Capitalize | src/Pages/admin/AppointmentsPage.tsx:205 | the first character is upper-cased and the rest is unchanged |
| AdminAppointments.StatusLabels | src/Pages/admin/AppointmentsPage.tsx:205 | the labels are "Pending", "Accepted", "Completed", "Rejected", one per status |
| AdminAppointments.AdminAppointmentsView.constructor | src/Pages/admin/AppointmentsPage.tsx:22-29 | the pending tab, no selection, every modal closed, every input empty |
| AdminAppointments.AdminAppointmentsView.SelectTab | src/Pages/admin/AppointmentsPage.tsx:115-125 | a tab button shows that tab |
| AdminAppointments.AdminAppointmentsView.OpenRejectModal | src/Pages/admin/AppointmentsPage.tsx:219-222 | Reject selects the appointment and opens its modal |
| AdminAppointments.AdminAppointmentsView.OpenRescheduleModal | src/Pages/admin/AppointmentsPage.tsx:237-240 | Reschedule selects the appointment and opens its modal |
| AdminAppointments.AdminAppointmentsView.OpenTechnicianModal | src/Pages/admin/AppointmentsPage.tsx:185-188 | the technician button selects the appointment and opens its modal |
| AdminAppointments.AdminAppointmentsView.SetRejectReason | src/Pages/admin/AppointmentsPage.tsx:265 | typing sets the reason |
| AdminAppointments.AdminAppointmentsView.SetNewDate | src/Pages/admin/AppointmentsPage.tsx:300 | picking sets the new date |
| AdminAppointments.AdminAppointmentsView.CheckTechnician | src/Pages/admin/AppointmentsPage.tsx:337-343 | the checked list becomes its toggle |
| AdminAppointments.AdminAppointmentsView.HandleReject | src/Pages/admin/AppointmentsPage.tsx:66-72 | with no selection or an empty reason nothing changes; otherwise the modal closes and the reason is cleared |
| AdminAppointments.AdminAppointmentsView.HandleReschedule | src/Pages/admin/AppointmentsPage.tsx:74-80 | with no selection or an empty date nothing changes; otherwise the modal closes and the date is cleared |
| AdminAppointments.AdminAppointmentsView.HandleAssignTechnicians | src/Pages/admin/AppointmentsPage.tsx:88-94 | with no selection or no technician checked nothing changes; otherwise the modal closes and the checks are cleared |
| AdminAppointments.AdminAppointmentsView.CancelReject | src/Pages/admin/AppointmentsPage.tsx:273-276 | Cancel closes the modal and clears the reason |
| AdminAppointments.AdminAppointmentsView.CancelReschedule | src/Pages/admin/AppointmentsPage.tsx:307-310 | Cancel closes the modal and clears the date |
| AdminAppointments.AdminAppointmentsView.CancelTechnicians | src/Pages/admin/AppointmentsPage.tsx:352-355 | Cancel closes the modal and clears the checks |
| CustomerAppointments.FilteredAppointments | src/Pages/customer/AppointmentsPage.tsx:60-62 | upcoming lists exactly the scheduled visits; past lists exactly the others |
| CustomerAppointments.TabsPartition | src/Pages/customer/AppointmentsPage.tsx:60-62 | every appointment is under exactly one tab; the two tabs together hold the whole list |
| CustomerAppointments.SampleTabs | src/Pages/customer/AppointmentsPage.tsx:22-37 | on the sample data one visit is upcoming and one is past |
| CustomerAppointments.Actions | src/Pages/customer/AppointmentsPage.tsx:145-160 | Reschedule and Cancel for a scheduled visit, nothing otherwise |
| CustomerAppointments.PastRowsOfferNoAction | src/Pages/customer/AppointmentsPage.tsx:145-160 | no row of the past tab offers an action |
| CustomerAppointments.StatusColorsDiffer | src/Pages/customer/AppointmentsPage.tsx:49-58 | `getStatusColor` (StatusColor) gives different statuses different badge colours |
| CustomerAppointments.CustomerAppointmentsView.constructor | src/Pages/customer/AppointmentsPage.tsx:16-19 | the upcoming tab, both modals closed, no selection |
| CustomerAppointments.CustomerAppointmentsView.SelectTab | src/Pages/customer/AppointmentsPage.tsx:79-89 | a tab button shows that tab |
| CustomerAppointments.CustomerAppointmentsView.HandleReschedule | src/Pages/customer/AppointmentsPage.tsx:39-42 | selects the visit and opens the reschedule modal |
| CustomerAppointments.CustomerAppointmentsView.HandleCancel | src/Pages/customer/AppointmentsPage.tsx:44-47 | selects the visit and opens the cancel modal |
| CustomerAppointments.CustomerAppointmentsView.CloseRescheduleModal | src/Pages/customer/AppointmentsPage.tsx:182 | the dismiss button closes the reschedule modal |
| CustomerAppointments.CustomerAppointmentsView.CloseCancelModal | src/Pages/customer/AppointmentsPage.tsx:208 | the dismiss button closes the cancel modal |
| Storage.WithItem | src/Pages/customer/LoginPage.tsx:27 | `setItem` sets its key and keeps every other key |
| Storage.WithoutItem | src/Auth/AuthLayout.tsx:14-15 | `removeItem` drops its key, present or not, and keeps every other key |
| Storage.GetItem | src/routes/ProtectedRoute.tsx:10-11 | `getItem` is null exactly for an absent key |
| Storage.LocalStorage.constructor | src/routes/ProtectedRoute.tsx:10-11 | the store starts as whatever the browser already holds, and every page reads and writes that one store |
| Storage.LocalStorage.SetItem | src/Pages/customer/LoginPage.tsx:27-32 | the store becomes the store with the item set |
| Storage.LocalStorage.RemoveItem | src/Auth/AuthLayout.tsx:14-15 | the store becomes the store without the key |
| ProtectedRoute.Decide | src/routes/ProtectedRoute.tsx:9-21 | the children render exactly when the role's flag is "true"; otherwise the role's login page is the redirect |
| ProtectedRoute.DecisionReadsOnlyOwnFlag | src/routes/ProtectedRoute.tsx:10-13 | admin routes depend only on `isAdminAuthenticated`; customer routes only on `isAuthenticated` |
| ProtectedRoute.OnlyTrueCounts | src/routes/ProtectedRoute.tsx:10-11 | an absent flag, or a flag with any other value, redirects |
| ProtectedRoute.LoginPathsDiffer | src/routes/ProtectedRoute.tsx:14 | the two roles have different login pages |
| CustomerLogin.SubmitStore | src/Pages/customer/LoginPage.tsx:22-37 | a filled-in form sets the flag to "true" and the user to {"Jane", email}, and changes no other key; an incomplete form changes nothing |
| CustomerLogin.SubmitNavigation | src/Pages/customer/LoginPage.tsx:25-35 | the dashboard follows exactly a filled-in form |
| CustomerLogin.LoginGrantsOnlyCustomer | src/Pages/customer/LoginPage.tsx:25-32 | a login opens the customer pages and leaves the admin pages' decision unchanged |
| CustomerLogin.CustomerLoginPage.constructor | src/Pages/customer/LoginPage.tsx:9-12 | both fields start empty |
| CustomerLogin.CustomerLoginPage.HandleInputChange | src/Pages/customer/LoginPage.tsx:14-20 | only the named field changes |
| CustomerLogin.CustomerLoginPage.HandleSubmit | src/Pages/customer/LoginPage.tsx:22-37 | the store takes the submit's writes and the navigation is the submit's |
| AdminLogin.SubmitStore | src/Pages/admin/LoginPage.tsx:22-34 | a filled-in form sets the admin flag to "true" and the admin user to {username, "admin"}, and changes no other key; an incomplete form changes nothing |
| AdminLogin.SubmitNavigation | src/Pages/admin/LoginPage.tsx:25-32 | the admin dashboard follows exactly a filled-in form |
| AdminLogin.LoginGrantsOnlyAdmin | src/Pages/admin/LoginPage.tsx:25-30 | a login opens the admin pages and leaves the customer pages' decision unchanged |
| AdminLogin.AdminLoginPage.constructor | src/Pages/admin/LoginPage.tsx:9-12 | both fields start empty |
| AdminLogin.AdminLoginPage.HandleInputChange | src/Pages/admin/LoginPage.tsx:14-20 | only the named field changes |
| AdminLogin.AdminLoginPage.HandleSubmit | src/Pages/admin/LoginPage.tsx:22-34 | the store takes the submit's writes and the navigation is the submit's |
| AuthLayout.LogoutStore | src/Auth/AuthLayout.tsx:13-17 | `isAuthenticated` and `user` are gone; every other key, the admin keys included, is kept |
| AuthLayout.LogoutIdempotent | src/Auth/AuthLayout.tsx:14-15 | logging out twice is logging out once |
| AuthLayout.LogoutEndsCustomerSession | src/Auth/AuthLayout.tsx:14 | after logout the customer pages redirect to "/customer/login" |
| AuthLayout.CustomerLoginThenLogout | src/Auth/AuthLayout.tsx:14-15 | a customer login followed by logout leaves the store as logout alone would |
| AuthLayout.LogoutKeepsAdminSession | src/Auth/AuthLayout.tsx:14-15 | as written, logout leaves the admin pages' decision unchanged |
| AuthLayout.AdminStillSignedInAfterLogout | src/Auth/AuthLayout.tsx:13-17 | an admin who signs in and logs out can still open the admin pages |
| AuthLayout.LogoutAllRoles | src/Auth/AuthLayout.tsx:13-17 | the corrected logout removes the four session keys and keeps every other key |
| AuthLayout.LogoutAllRolesEndsEverySession | src/Auth/AuthLayout.tsx:13-17 | after the corrected logout, the pages of both roles redirect to their login |
| AuthLayout.HandleLogout | src/Auth/AuthLayout.tsx:13-17 | the store loses the two customer keys and the navigation is "/customer/login", whatever the role |

## Left out

- The scheduling back end (daily capacity, availability checks, reservations, lifecycle transitions) is not in the code. `src/Api/api.tsx` (HTTP calls, interceptors, logging) is not part of this model.
- Rendering, `toast`, `console.log`, and React's re-render and state-batching behaviour are left out. Each handler is one atomic change of the state object.
- `navigate()` is modelled only as the path a handler returns. Router history is not modelled.
- The `handleAccept` and `handleComplete` handlers (admin appointments) and `handleSaveToHistory` (revenue) are left out. They only log or show a toast. The customer modals' confirm buttons have no handler. The booking `handleSubmit` only logs the form.
- The appointment lists are constants of the page. No handler changes an appointment, which the `const` fields express.
- The CSV download and the Excel export are left out: Blob, object URL, anchor click, and the file name with today's date. Only the CSV text is modelled.
- The "Showing a-b of n" caption of the report table is display only. It reads "Showing 1-0 of 0" on an empty tab.
- Reports.SortRecords: the sorted list is not stated to be stable. The model's insertion sort is stable, but only the permutation and the order are proved.
- Reports.Compare: the date column uses `new Date(...)`, and the model compares the date strings instead. Dates.StringOrderIsCalendarOrder shows that on `YYYY-MM-DD` strings this is (year, month, day) order, so the two agree on real calendar dates only. A string of that shape with an impossible month or day (month 00 or 13-99, day 00 or 32-99) is an Invalid Date in the source, where both `<` and `>` are false and the comparator returns 0; the model orders it by its characters. A day past the end of its month ("2025-02-30") is treated differently by different JavaScript engines and is not modelled either. Malformed strings of other shapes are not modelled.
- Text.LexLess: compares strings by code point, not by UTF-16 code unit as JavaScript's `<` does (the customer, service and AC type columns, src/Pages/admin/ReportsPage.tsx:118-119). The two orders differ only when, at the first character where two strings differ, one has a character above U+FFFF and the other one in U+E000-U+FFFF, e.g. "😀" (U+1F600) against "Ａ" (U+FF21).
- Calendar.MonthGrid takes the weekday of the 1st and the month's length as inputs. The JavaScript `Date` computations that supply them are not modelled. Neither are `navigateMonth` (`setMonth`, which can overflow the day) and `formatMonth` (`toLocaleDateString`).
- Calendar.DateKey takes the year and month index from the date library, as the page's current month.
- Revenue amounts are exact reals. Floating-point rounding, `toFixed` display and `Number()` of an empty or non-numeric input (0 or NaN) are not modelled.
- Revenue.RevenueLedger.SetTempDiscount: the input's `min`/`max` attributes are hints only and are not enforced. The model accepts any amount, as the code does.
- Booking.BookingForm.HandleServiceChange requires an in-range index. Each row passes its own index. The JavaScript behaviour for an out-of-range index (a sparse array holding a partial service) is not modelled.
- Booking.ServiceEdit: the edit carries a typed value. The source's `value: string` is only ever set from the page's own select options and date input.
- AdminAppointments.UpperChar upper-cases ASCII letters only. The full Unicode case mapping of `toUpperCase` is not modelled; every status starts with an ASCII letter.
- The stored user records are kept as their fields. Their JSON text (`JSON.stringify`) is not modelled.
- Static pages and duplicate checks are not part of this model: the route table, header, landing page, sidebar links and both dashboards.

## Findings

| source | as written | input that shows it | evidently intended | confidence | as-written member | corrected member |
|---|---|---|---|---|---|---|
| src/Auth/AuthLayout.tsx:13-17 | logout removes only `isAuthenticated` and `user`, though the layout wraps only admin pages (it is imported by the admin calendar, appointments, reports, revenue and dashboard pages, e.g. src/Pages/admin/ReportsPage.tsx:3) | an admin signs in (`isAdminAuthenticated` = "true"), then presses Logout, which only admin pages show: every admin page still renders | logout ends the admin session it is pressed in (and any customer session): no role keeps a session key | medium; not executed | AuthLayout.AdminStillSignedInAfterLogout | AuthLayout.LogoutAllRolesEndsEverySession |
