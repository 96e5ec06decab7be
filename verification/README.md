# A verified model of the portal's client-side logic

This project models, in Dafny, the parts of the repository whose behaviour is hardest to see by
reading: the business calendar in a time zone, the loaders whose replies may arrive in any order,
the quote form that must register a request once, the messages that carry declines and change
requests as text, and the arithmetic of money. Every theorem is stated for all inputs, or for all
runs of a protocol from its initial state.

`dafny verify dfyconfig.toml` checks everything. The lemmas listed below switch off Dafny's own induction,
so that their proofs are the ones written out.

| module | models |
|---|---|
| `Gregorian`, `CalendarDates`, `ZonedCalendar` | civil dates and day numbers (ECMA-262, section 21.4.1), date strings and their shifts, the conversion between instants and local dates |
| `ClientPortal`, `ClientFiles`, `StaffRequests`, `AuditPaging` | the loaders: a class with the component's refs and state, a function for every start and settlement that its methods are proved to compute, and a `World` of all fetches, notices and effects whose every run keeps an invariant |
| `FileMerge`, `AuditDays` | merging pages of files by id; day headings and quick ranges of the audit log |
| `QuoteForm`, `QuoteText`, `JsonText` | the form's idempotency key and the server that removes duplicates by it; the normalized texts a record stores; the JSON body and its length in bytes |
| `DeclineRequest`, `ChangeRequest` | the two chat-message formats, printers and parsers |
| `MoneyInput`, `DashboardAmounts`, `QuoteTotals` | money typed, shown short and exactly, and totalled |
| `Decimal`, `JsText`, `Wrappers` | numerals, trimming, string order; `Option` and `Result` |

Some properties one would expect are not true of the code; the model keeps the code as it is, shows a
failing case and proves exactly when the property holds:

- A local midnight that the clock skips is converted to an instant an offset jump away from it, and need
  not read back as its date (`SkippedMidnightGoesBack`; exactly when: `ExistsExactly`,
  `DateRoundTripsExactly`).
- Shifting a date twice differs from shifting it once when the date in between leaves the years 100 to
  9999, and the three shifts of the repository differ below the year 100, where `Date.UTC` moves a date to
  the 1900s (`BackAndForthMoves`, `ShiftsDiffer`; exactly when: `ShiftIsAction`, `ShiftsAgreeExactly`).
- In the file list, a loud reload that overtakes "Ver más" leaves its flag up for ever (`StuckIsReached`,
  `StuckForever`), a page that overtakes a loud load leaves the other flag up (exactly when:
  `FlagsAtRest`), and a page that overtakes the reload of a notice drops the files it brings
  (`PageOvertakingNoticeDropsIt`; exactly when: `NoticeAtRest`).
- In the staff inbox, the detail on screen may be of another request than the selected one
  (`ClearedIsShown`, `FailedLoadKeepsOther`; exactly when: `AstrayExactly`, `StoresSelectedExactly`,
  `ShownIsSelectedExactly`). In the portal this takes a click between a reply of the list and its effect
  (`ReturnBeforeEffectKeepsOther`; exactly when: `WorkspaceIsSelectedExactly`).
- Without an edit the draft of an assignee need not be the one on screen: a failed list load forgets the
  detail and keeps the draft (`ForgottenDraftStays`; exactly when: `DraftFollowsExactly`).
- A honeypot filled with white space does not stop a request (`SpacedBaitRecorded`), and a form that the
  browser lets through the server may refuse (`BlankDimensionsRefused`; exactly what is recorded:
  `RecordableExactly`, `RefusedExactly`).
- A change request with leading zeros in its version is read by one parser and not by the other
  (`LeadingZerosDisagree`; exactly when: `ParsersAgreeExactly`).
- The short amount overstates negative amounts that have a fraction (`FractionOverstated`; exactly when:
  `NeverOverstatesExactly`).
- A clock that goes back across midnight gives one day two headings (`BackAtMidnightSplits`; exactly when:
  `SplitsExactly`).

## Model

| member | source | states |
|---|---|---|
| Gregorian.CivilOf | src/lib/calendar-timezone.ts:36-37 | the UTC fields of a day number are a date of the calendar with that number; with `CivilRoundTrip`, dates and day numbers are in bijection |
| Gregorian.CivilRoundTrip | src/lib/calendar-timezone.ts:35-37 | writing the number of a calendar date out gives the date back |
| Gregorian.DayOfTomorrow | src/lib/calendar-timezone.ts:44 | the numbering is the one that counts calendar days from 1970-01-01, by the rules for months and leap years alone |
| Gregorian.FormulaCountsYears | src/lib/calendar-timezone.ts:35 | counting years one by one agrees with the closed form of DayFromYear in ECMA-262, for every year |
| Gregorian.DayOfOrder | src/lib/calendar-timezone.ts:35-38 | day numbers follow the order of year, month and day, so distinct dates have distinct numbers |
| CalendarDates.SerialAccepts | src/lib/calendar-timezone.ts:29-39 | the written-out check accepts exactly the calendar's dates of the years 0100 to 9999 in the format, and gives their UTC midnight |
| CalendarDates.SerialOrder | src/lib/calendar-timezone.ts:29-39 | serials are strictly increasing in the lexicographic order of the strings |
| CalendarDates.SerialImage | src/lib/calendar-timezone.ts:29-39 | the serials are exactly the consecutive multiples of a day from 0100-01-01 to 9999-12-31 |
| CalendarDates.IsoDateRoundTrip | src/lib/calendar-timezone.ts:45 | printing a day in range gives a valid date that reads back as that day |
| CalendarDates.DateRoundTrip | src/lib/calendar-timezone.ts:42-45 | every valid date is what its day number prints |
| CalendarDates.PrintsAgreeExactly | src/lib/calendar-timezone.ts:45 | two days print alike if and only if they are the same, or of one month of a year of six digits, where the cut drops the day |
| CalendarDates.AddOnValid | src/lib/calendar-timezone.ts:41-46 | a shifted valid date prints the day so many days on, or fails where a Date ends |
| CalendarDates.AuditOnValid | src/components/StaffAuditPanel.tsx:73-77 | the noon shift of the audit panel prints the same day |
| CalendarDates.DashboardOnValid | src/components/StaffDashboardPanel.tsx:392-401 | the dashboard's millisecond subtraction prints the first day of the period |
| CalendarDates.ShiftsAgree | src/components/StaffAuditPanel.tsx:73-77 | the three shifts agree on every valid date and number of days, except where the result is the very last Date, which has no noon |
| CalendarDates.ShiftsAgreeExactly | src/lib/calendar-timezone.ts:41-46 | on every readable date and every number of days `addCalendarDays` agrees with the audit panel's shift and with the dashboard's, each if and only if the year is at least 100 or both fail, but for the last Date, which has no noon |
| CalendarDates.ShiftsDiffer | src/lib/calendar-timezone.ts:44 | the day before 0100-01-01, moved by no day at all, is another date by `addCalendarDays` and itself by the other two |
| CalendarDates.ShiftIsAction | src/lib/calendar-timezone.ts:41-46 | shifting by m and then n is shifting by m + n if and only if the date in between is one that is accepted, or both leave the range of a Date |
| CalendarDates.ShiftUndoes | src/lib/calendar-timezone.ts:41-46 | shifting back undoes a shift under the same condition and no other |
| CalendarDates.BackAndForthMoves | src/lib/calendar-timezone.ts:41-46 | one day back from 0100-01-01 and one on again is another date |
| ZonedCalendar.ZonedCalendarDateToUtc | src/lib/calendar-timezone.ts:57-66 | the conversion is four corrections of the naive instant, or fails where the date is not valid |
| ZonedCalendar.SettleCandidate | src/lib/calendar-timezone.ts:59-65 | the loop computes the fourth iterate of the correction |
| ZonedCalendar.DateUtcReads | src/lib/calendar-timezone.ts:61-62 | the parts Intl prints, put back into Date.UTC, are the wall clock, from the year 100 on |
| ZonedCalendar.OffsetIsOfChange | src/lib/calendar-timezone.ts:5-27 | the offset in force is that of the last change at or before the instant |
| ZonedCalendar.OffsetIsInitial | src/lib/calendar-timezone.ts:5-27 | and the initial one before all changes |
| ZonedCalendar.ExistsExactly | src/lib/calendar-timezone.ts:57-66 | midnight exists if and only if the change does not skip it |
| ZonedCalendar.LoopFindsMidnight | src/lib/calendar-timezone.ts:57-66 | with at most one change around it, an existing midnight is reached in two corrections and kept; a skipped one makes the corrections alternate and is missed by exactly the jump, early or late as the naive instant precedes the change or not |
| ZonedCalendar.LoopPicksMidnight | src/lib/calendar-timezone.ts:57-66 | which of two occurrences of a repeated midnight the loop ends at |
| ZonedCalendar.OccursOnceExactly | src/lib/calendar-timezone.ts:57-66 | midnight occurs exactly once if and only if the change does not cross it |
| ZonedCalendar.CutExistsExactly | src/lib/calendar-timezone.ts:57-66 | some instant begins the day for good if and only if the change does not take the clock back across midnight |
| ZonedCalendar.CutsExactly | src/lib/calendar-timezone.ts:57-66 | the conversion is the first instant of the local day, all earlier ones showing an earlier day and no later one, if and only if the change leaves the beginning of the day alone |
| ZonedCalendar.ShowsDate | src/lib/calendar-timezone.ts:52-55 | an instant is shown as a date if and only if that is its local day |
| ZonedCalendar.DaysTile | src/lib/calendar-timezone.ts:52-74 | an instant lies between the conversion of a date and its end of day if and only if it is shown as that date, through days of any length |
| ZonedCalendar.DaysTileExactly | src/lib/calendar-timezone.ts:52-74 | for offsets of less than half a day, all instants of a date's interval and no others are shown as the date if and only if the changes leave the beginnings of the day and of the next one alone |
| ZonedCalendar.DaysTileBetweenSingleMidnights | src/lib/calendar-timezone.ts:52-74 | in particular between midnights that each occur exactly once |
| ZonedCalendar.DateRoundTripsExactly | src/lib/calendar-timezone.ts:52-66 | the conversion of a date reads back as the date if and only if the change does not skip its midnight, or skips it by less than a day and not after the naive instant |
| ZonedCalendar.ConvertsInStretch | src/lib/calendar-timezone.ts:57-66 | away from all changes every date converts with the offset of the stretch it lies in, however many changes there are before and after |
| ZonedCalendar.SeasonsConvert | src/lib/calendar-timezone.ts:57-66 | in a zone that goes forward in spring and back in autumn, the dates before, between and after convert each with the offset of its season |
| ZonedCalendar.SeasonsShow | src/lib/calendar-timezone.ts:5-27 | and every instant shows the wall clock of its season |
| ZonedCalendar.SkippedMidnightGoesBack | src/lib/calendar-timezone.ts:57-66 | for every date, a zone five hours behind UTC that skips its midnight, where the conversion shows 23:00 of the day before |
| ClientPortal.ClientPortalPanel.LoadRequests | src/components/ClientPortalPanel.tsx:184-194 | the whole new state of starting a list load, and whether it starts a fetch |
| ClientPortal.ClientPortalPanel.SettleRequests | src/components/ClientPortalPanel.tsx:198-221 | the whole new state of a list reply, superseded or newest, with the reload it may start |
| ClientPortal.ClientPortalPanel.LoadDetail | src/components/ClientPortalPanel.tsx:228-243 | the whole new state of starting a workspace load |
| ClientPortal.ClientPortalPanel.SettleWorkspace | src/components/ClientPortalPanel.tsx:247-265 | the whole new state of a workspace reply, and the load it leaves to a microtask |
| ClientPortal.ClientPortalPanel.SelectionEffect | src/components/ClientPortalPanel.tsx:277 | the whole new state of the effect: a loud load of the selection, or no workspace |
| ClientPortal.ListLoaderRuns | src/components/ClientPortalPanel.tsx:184-222 | in every run in-flight holds exactly while the newest fetch is unsettled, pending implies it, loading holds exactly while the newest is unsettled and loud, and without pending the newest fetch is no older than the last notice |
| ClientPortal.ScreenRuns | src/components/ClientPortalPanel.tsx:199-213 | in every run the list in the state is, entry by entry, that of the newest stored fetch, refreshed by the workspaces stored since, and empty after a loud failure |
| ClientPortal.RefreshedEntry | src/components/ClientPortalPanel.tsx:251 | a refreshed entry keeps its request and place and shows the status of the request's last workspace, or else the listed one |
| ClientPortal.ListFreshAtRest | src/components/ClientPortalPanel.tsx:184-222 | at rest the last fetch began at or after the last notice, and if it succeeded the list in the state is its list, refreshed since |
| ClientPortal.ShownNeverGoesBack | src/components/ClientPortalPanel.tsx:198-205 | a list that comes on screen is that of a fetch newer than every one stored before |
| ClientPortal.SelectionSettles | src/components/ClientPortalPanel.tsx:202-205 | in every run a list that has the selected request keeps it selected; one without it selects its first request, or none |
| ClientPortal.SelectionMoves | src/components/ClientPortalPanel.tsx:202-205 | so the selection changes only by a choice or by a list without it |
| ClientPortal.ReportsRun | src/components/ClientPortalPanel.tsx:191-212 | in every run the error, the closed portal and the total are those that the events say: the newest loud failure reports, a loud start clears, a stored list opens |
| ClientPortal.FailureClears | src/components/ClientPortalPanel.tsx:206-213 | a loud failure takes the workspace off the screen, that of the list the list as well |
| ClientPortal.LoadsAreAsked | src/components/ClientPortalPanel.tsx:184-265 | in every run there are no more fetches, of the list or of a workspace, than requests for one, those put off counted |
| ClientPortal.DetailLoaderRuns | src/components/ClientPortalPanel.tsx:228-266 | the same coherence of the workspace loader, and a notice for the selected request is always pending, queued, or followed by a fetch |
| ClientPortal.NothingOwedAtRest | src/components/ClientPortalPanel.tsx:233-264 | no notice for the selected request is ever dropped |
| ClientPortal.QueuedIsSelected | src/components/ClientPortalPanel.tsx:262-264 | what a settlement leaves to a microtask is a load of the request selected then |
| ClientPortal.StoresSelectedOnly | src/components/ClientPortalPanel.tsx:247-248 | a workspace is stored only from the newest fetch, and only if it is the selected request's at that moment |
| ClientPortal.StoresSelected | src/components/ClientPortalPanel.tsx:247-251 | and there it always is stored, with its entry in the list |
| ClientPortal.WorkspaceIsSelectedExactly | src/components/ClientPortalPanel.tsx:228-277 | in every run, at rest with the effect of the selection run, the workspace on screen is the selected request's if and only if no load the selection asked for was overtaken or dropped under another's workspace |
| ClientPortal.WorkspaceIsSelected | src/components/ClientPortalPanel.tsx:247-277 | so always, when actions load the request on screen and the effect runs before the next choice or list |
| ClientPortal.ReturnBeforeEffectKeepsOther | src/components/ClientPortalPanel.tsx:203-277 | a run in which a choice before the effect leaves another request's workspace on screen |
| FileMerge.MergeFiles | src/components/ClientFilesPanel.tsx:57-64 | the map filled in place and sorted is the list that upserts each file in turn |
| FileMerge.MergeLists | src/components/ClientFilesPanel.tsx:57-64 | the result is strictly sorted by date and id, without duplicates, and holds exactly the union of ids, the incoming file winning |
| FileMerge.ListsUnique | src/components/ClientFilesPanel.tsx:60-63 | a map of files has one sorted list |
| FileMerge.MergeIdempotent | src/components/ClientFilesPanel.tsx:57-64 | merging the same page again changes nothing |
| FileMerge.MergeAssociative | src/components/ClientFilesPanel.tsx:57-64 | merging is associative |
| FileMerge.PagesMergeAtOnce | src/components/ClientFilesPanel.tsx:115 | merging pages one at a time is merging them all at once |
| ClientFiles.ClientFilesPanel.LoadFiles | src/components/ClientFilesPanel.tsx:100-108 | the whole new state of starting a load |
| ClientFiles.ClientFilesPanel.SettleFiles | src/components/ClientFilesPanel.tsx:114-131 | the whole new state of a reply |
| ClientFiles.ClientFilesPanel.LoadMoreFiles | src/components/ClientFilesPanel.tsx:137-140 | the whole new state of asking for a further page |
| ClientFiles.SettlesIsSettleLoad | src/components/ClientFilesPanel.tsx:114-131 | the world's settlement is the component's, and a superseded one changes nothing |
| ClientFiles.FileLoaderRuns | src/components/ClientFilesPanel.tsx:100-140 | in every run in-flight and pending are coherent, and each busy flag is up exactly when its last fetch has not settled as the newest |
| ClientFiles.FlagsAtRest | src/components/ClientFilesPanel.tsx:100-140 | at rest "loading more" is up if and only if a loud load has overtaken a page, and "loading" if and only if a page has overtaken the last loud load; so both are down if they never overlapped |
| ClientFiles.StuckForever | src/components/ClientFilesPanel.tsx:123-140 | once superseded, the page flag stays up whatever happens, and no page is ever asked for again |
| ClientFiles.ReloadOvertakingPageSticks | src/components/ClientFilesPanel.tsx:105-124 | a full reload during a page load reaches that state |
| ClientFiles.StuckIsReached | src/components/ClientFilesPanel.tsx:100-140 | a run that reaches that state and comes to rest in it, whatever the replies |
| ClientFiles.ScreenRuns | src/components/ClientFilesPanel.tsx:114-117 | in every run the files in the state are those of the last full load stored, with all pages stored since merged in one at a time, and the cursor is the last reply's |
| ClientFiles.ScreenIsOneMerge | src/components/ClientFilesPanel.tsx:115 | which is one merge of them all: the union of ids, each once, in order, the newest page winning |
| ClientFiles.PagesFollow | src/components/ClientFilesPanel.tsx:114-140 | in every run each page in the state was asked for with the cursor that came with the page before it, or with the full load, whatever reloads and late replies came between |
| ClientFiles.ErrorsRun | src/components/ClientFilesPanel.tsx:114-122 | in every run the error is that of the newest loud failure since files were stored |
| ClientFiles.LoadsAreAsked | src/components/ClientFilesPanel.tsx:101-130 | and there are no more fetches than reloads, notices and clicks |
| ClientFiles.NoticeAtRest | src/components/ClientFilesPanel.tsx:101-130 | at rest the last full load began at or after the last notice, and its files, if it succeeded, are the ones in the state if and only if no page overtook it |
| ClientFiles.PageOvertakingNoticeDropsIt | src/components/ClientFilesPanel.tsx:105-140 | whatever the overtaken reload of a notice brings, the state holds the files from before it and the page, with nothing left to load |
| StaffRequests.StaffRequestsPanel.LoadDetail | src/components/StaffRequestsPanel.tsx:340-355 | the whole new state of starting a load |
| StaffRequests.StaffRequestsPanel.SettleDetail | src/components/StaffRequestsPanel.tsx:359-387 | the whole new state of a reply, loud or live |
| StaffRequests.StaffRequestsPanel.SelectionEffect | src/components/StaffRequestsPanel.tsx:408-412 | a selection loads the request loudly, none forgets it |
| StaffRequests.StaffRequestsPanel.PendingEffect | src/components/StaffRequestsPanel.tsx:414-419 | the pending live refresh runs after a load, if its request is still selected |
| StaffRequests.StaffLoaderRuns | src/components/StaffRequestsPanel.tsx:340-425 | in every run loading holds exactly while the newest fetch is an unsettled loud one, and an owed refresh is pending with its effect to come |
| StaffRequests.SilentNeverSupersedesLoud | src/components/StaffRequestsPanel.tsx:342-345 | a live refresh never supersedes a loud load |
| StaffRequests.NothingOwedAtRest | src/components/StaffRequestsPanel.tsx:342-425 | no live notice for the selected request is dropped |
| StaffRequests.PendingRuns | src/components/StaffRequestsPanel.tsx:342-419 | in every run the refresh put off is that of the last notice during a loud load, until the effect runs with nothing loading |
| StaffRequests.LoadsAreAsked | src/components/StaffRequestsPanel.tsx:340-425 | and there are no more fetches than selections, reloads and notices |
| StaffRequests.AstrayExactly | src/components/StaffRequestsPanel.tsx:340-425 | whether the newest fetch is of another request than the selected one, from the events alone: a cleared selection or a reload of another request leads it astray, the next load of the selected one back |
| StaffRequests.StoresSelectedExactly | src/components/StaffRequestsPanel.tsx:359-364 | a reply of the newest fetch is always stored, and shows the selected request if and only if those events have not led the fetch astray |
| StaffRequests.ShownIsSelectedExactly | src/components/StaffRequestsPanel.tsx:340-412 | in every run, with nothing loading and no loud load failed since a reply was stored, the detail shown is the selected request's if and only if it was not stored astray, whatever list loads and actions do to the error |
| StaffRequests.ClearedIsShown | src/components/StaffRequestsPanel.tsx:408-412 | a run in which the detail of a request comes on screen after the selection was cleared |
| StaffRequests.FailedLoadKeepsOther | src/components/StaffRequestsPanel.tsx:287-387 | a run in which a failed load leaves the request selected before on screen, with its error or without |
| StaffRequests.DraftKept | src/components/StaffRequestsPanel.tsx:360-369 | no run of refreshes, loads and selections overwrites a draft that differs from the stored assignee, short of an edit or a loud reply |
| StaffRequests.DraftAfterRefreshes | src/components/StaffRequestsPanel.tsx:360-364 | after any number of live refreshes the draft follows the last if it ever coincided with a stored assignee, and is untouched if not |
| StaffRequests.LoudReplyResets | src/components/StaffRequestsPanel.tsx:368-374 | in every run the newest loud reply sets the draft to its assignee and empties the status form |
| StaffRequests.FormsRun | src/components/StaffRequestsPanel.tsx:373-374 | so the status form is what was filled in since the last loud reply |
| StaffRequests.ErrorsRun | src/components/StaffRequestsPanel.tsx:350-386 | in every run the error is that of the newest loud failure, unless a loud start or a report came after it |
| StaffRequests.DraftFollowsExactly | src/components/StaffRequestsPanel.tsx:360-369 | in every run without an edit since the last loud reply the draft is the assignee on screen if and only if the detail was not forgotten under it, with no reply since to catch up |
| StaffRequests.ForgottenDraftStays | src/components/StaffRequestsPanel.tsx:300-369 | a run in which a failed list load leaves the old assignee in the draft, with nobody having edited it |
| QuoteForm.QuoteFormPanel.UpdateFormField | src/components/QuoteForm.tsx:133-143 | an edit drops the key |
| QuoteForm.QuoteFormPanel.Consent | src/components/QuoteForm.tsx:321 | so does a change of consent |
| QuoteForm.QuoteFormPanel.HandleSubmit | src/components/QuoteForm.tsx:198-209 | a valid form is sent with its key, or with a fresh one; an invalid one is not sent |
| QuoteForm.QuoteFormPanel.SettleSubmit | src/components/QuoteForm.tsx:238-257 | a success resets the form, a failure keeps it and its key |
| QuoteForm.OneKeyOnePayload | src/components/QuoteForm.tsx:133-257 | in every run no key is sent with two payloads, nor in two epochs of editing |
| QuoteForm.RetryReusesKey | src/components/QuoteForm.tsx:209 | a retry without an edit or a success in between reuses the key |
| QuoteForm.EditSetsOneField | src/components/QuoteForm.tsx:133-143 | an edit sets its field and no other |
| QuoteForm.ScreenRuns | src/components/QuoteForm.tsx:133-257 | in every run the fields, the consent, the submitting flag and the feedback are those that the events say: a success empties the form, a failure keeps it |
| QuoteForm.FolioEmptiesForm | src/components/QuoteForm.tsx:243-248 | in every run a folio on screen stands over an empty form without a key, which is not sent |
| QuoteForm.SentIsComplete | src/components/QuoteForm.tsx:145-205 | in every run whatever is sent has consent, a project type, an address, and the texts at the lengths asked for |
| QuoteForm.CompleteIsSent | src/components/QuoteForm.tsx:145-205 | and every form that has them is sent |
| QuoteForm.EmailIsPattern | src/components/QuoteForm.tsx:145-170 | the test of an address is the regular expression: three plain texts with an at sign and a point between them |
| QuoteForm.BodyCarries | src/components/QuoteForm.tsx:218-234 | the body holds each field under its key, but for the four that are left out when empty |
| JsonText.TextReads | src/components/QuoteForm.tsx:218 | a text in the body reads back as it was, whatever had to be escaped |
| JsonText.ObjectLength | src/components/QuoteForm.tsx:218 | the bytes the server counts are those of the JSON text in UTF-8 |
| QuoteForm.Lookup | src/server/modules/quote-requests/service.ts:161-166 | the lookup finds a record of the key, or there is none |
| QuoteText.TextIs | src/server/modules/quote-requests/domain.ts:153-157 | a normalized text is the words of the text with a single space between them |
| QuoteText.WordsOfGap | src/server/modules/quote-requests/domain.ts:154 | white space between two texts separates their words |
| QuoteText.TextsAgreeExactly | src/server/modules/quote-requests/domain.ts:153-157 | two texts are normalized to the same if and only if they have the same words |
| QuoteText.TextFixesExactly | src/server/modules/quote-requests/domain.ts:153-157 | a text is stored as it was typed if and only if it has nothing to trim and only single spaces inside |
| QuoteText.TextIsShorter | src/server/modules/quote-requests/domain.ts:153-157 | normalizing makes no text longer, and empty only one of white space |
| QuoteForm.RecordStoresItsForm | src/server/modules/quote-requests/service.ts:208-262 | in every run each field of a record is the field of that name of the form it came from: the words of the texts, verbatim where they are clean, and the choices as they are |
| QuoteForm.CandidatesAgreeExactly | src/server/modules/quote-requests/service.ts:208-226 | two forms give one detail if and only if they agree field by field up to white space |
| QuoteForm.ConflictsExactly | src/server/modules/quote-requests/service.ts:227-236 | whatever client sends it, a key that comes back with another project is a conflict, with the same one it is told the folio there is, and neither stores anything |
| QuoteForm.AcceptedIsRecorded | src/server/modules/quote-requests/service.ts:187-299 | the server never answers that a key came back with other data, and a folio it answers is a record of what was sent |
| QuoteForm.OneRecordPerEpoch | src/server/modules/quote-requests/service.ts:231-297 | however requests are repeated, reordered, run at once and their replies lost, an epoch of editing creates at most one record |
| QuoteForm.OneFolioPerEpoch | src/server/modules/quote-requests/service.ts:231-297 | and every reply within it names the same folio |
| QuoteForm.ToldIsRecorded | src/components/QuoteForm.tsx:238-244 | in every run a folio the visitor reads is that of a record of what the request just settled carried |
| QuoteForm.RecordedIsTaken | src/app/api/quote-requests/route.ts:15-66 | whatever is recorded passed the form's checks, the schema, the limit of the body and the trimmed honeypot |
| QuoteForm.RefusedExactly | src/app/api/quote-requests/route.ts:15-28 | what the schema refuses of a form that the browser lets through, exactly |
| QuoteForm.SchemaIsEnough | src/server/modules/quote-requests/domain.ts:153-157 | the service throws on no text that the schema took |
| QuoteForm.TakenIsRecorded | src/app/api/quote-requests/route.ts:15-92 | whatever passes them is recorded by some run |
| QuoteForm.RecordableExactly | src/app/api/quote-requests/route.ts:15-92 | a form with a honeypot can be recorded if and only if it passes them |
| QuoteForm.SpacedBaitRecorded | src/app/api/quote-requests/route.ts:27-66 | a run that records a form filled in with a single space in the honeypot |
| QuoteForm.BlankDimensionsRefused | src/app/api/quote-requests/route.ts:23 | a form that passes the browser's checks and is never recorded: white space for dimensions |
| DeclineRequest.ParseOfPattern | src/lib/decline-request.ts:52-65 | what the parser makes of any text of the pattern, for every version however large |
| DeclineRequest.ParsedIsPattern | src/lib/decline-request.ts:52-65 | every accepted text is of the pattern, with the version's canonical numeral |
| DeclineRequest.AcceptsExactly | src/lib/decline-request.ts:52-65 | which texts of the pattern are accepted, and so versions exactly from 1 to 2^53 - 1 |
| DeclineRequest.DeclineRoundTrip | src/lib/decline-request.ts:45-65 | parsing a printed decline gives the version, the reason and the normalized comment back |
| DeclineRequest.PrintsExactly | src/lib/decline-request.ts:32-50 | exactly which inputs the printer takes |
| DeclineRequest.RaisesExactly | src/lib/decline-request.ts:32-50 | exactly which inputs raise which error, the version before the reason before the comment |
| DeclineRequest.DeclineReads | src/lib/decline-request.ts:4-50 | the text of every reason with its comment, word for word |
| DeclineRequest.BodyInjective | src/lib/decline-request.ts:45-50 | two inputs print the same text only if they agree up to trimming |
| DeclineRequest.ReprintIsCanonical | src/lib/decline-request.ts:45-65 | an accepted text reprints, and the reprint parses to the same value |
| DeclineRequest.CanonicalExactly | src/lib/decline-request.ts:45-65 | the reprint is the text itself if and only if its comment has nothing to trim |
| ChangeRequest.ChangeRoundTrip | src/lib/change-request.ts:5-17 | read with its own version a text gives the trimmed message, with any other version nothing |
| ChangeRequest.ChangeReads | src/lib/change-request.ts:5-11 | the text of a change request, word for word |
| ChangeRequest.ParsedOnce | src/lib/change-request.ts:14-17 | no text asks for changes of two versions |
| ChangeRequest.ParsersAgreeExactly | src/lib/change-request.ts:14-26 | the parser of one version accepts, with a version that is not negative, if and only if the parser of any version finds that version and message in a numeral without leading zeros; what it accepts with a negative one the other rejects |
| ChangeRequest.LeadingZerosDisagree | src/lib/change-request.ts:14-26 | a text that only the parser of any version takes |
| ChangeRequest.AnyRoundTrip | src/lib/change-request.ts:9-26 | every printed text is read by the parser of any version, except with a negative version |
| ChangeRequest.ReprintReadsTheSame | src/lib/change-request.ts:9-17 | a message read from a text and printed again reads the same |
| ChangeRequest.NeverBoth | src/lib/change-request.ts:14-26 | no text is both a change request and a decline |
| JsText.TrimIs | src/lib/change-request.ts:10 | trimming takes off the white space around a text and nothing else |
| JsText.SpacesAre | src/lib/change-request.ts:10 | the characters taken off are the 25 of ECMA-262 |
| AuditPaging.StaffAuditPanel.Load | src/components/StaffAuditPanel.tsx:124-128 | the whole new state of starting a load |
| AuditPaging.StaffAuditPanel.SettleLoad | src/components/StaffAuditPanel.tsx:129-161 | the whole new state of a reply, newest or superseded |
| AuditPaging.StaffAuditPanel.ApplyFilters | src/components/StaffAuditPanel.tsx:170-196 | new filters forget the pages and the cursor and load |
| AuditPaging.StaffAuditPanel.LoadPreviousEvents | src/components/StaffAuditPanel.tsx:198-201 | the next page is asked for with the cursor shown |
| AuditPaging.ShownIsThePages | src/components/StaffAuditPanel.tsx:124-201 | in every run of filters, pages, failures and retries the visible items are the pages since the filters were applied, each asked for with the cursor of the one before, each once; no load ever overtakes another |
| AuditPaging.FilterIsAsked | src/components/StaffAuditPanel.tsx:113-196 | in every run the newest load asks for the filter applied last, and every page shown was asked for with it |
| AuditPaging.StatusRuns | src/components/StaffAuditPanel.tsx:124-161 | in every run the flag, the error and the refusal of access are those that the events say |
| AuditPaging.SupersededTellsRefusal | src/components/StaffAuditPanel.tsx:144-161 | a superseded reply changes nothing, but that a refusal still sets the error and closes the panel |
| AuditPaging.ChainIsPrefix | src/components/StaffAuditPanel.tsx:147 | pages so chained and served from one log concatenate to a prefix of it |
| AuditPaging.ShownIsAPrefix | src/components/StaffAuditPanel.tsx:124-201 | so the panel shows the log from its start, nothing left out or twice, and all of it when no cursor is left |
| AuditPaging.ShownIsOfTheFilter | src/components/StaffAuditPanel.tsx:113-201 | with a log for each filter, it is the log of the filter applied last |
| AuditDays.DayGroups | src/components/StaffAuditPanel.tsx:210-216 | the reduction computes the day groups |
| AuditDays.GroupsKeepItems | src/components/StaffAuditPanel.tsx:210-216 | the groups concatenate to the items |
| AuditDays.GroupsAreDays | src/components/StaffAuditPanel.tsx:210-216 | a group holds entries of its day, never none, and the next group is of another day |
| AuditDays.HeadingsAreKeys | src/components/StaffAuditPanel.tsx:210-216 | the headings are the days of the entries |
| AuditDays.OneHeadingExactly | src/components/StaffAuditPanel.tsx:210-216 | no day has two headings if and only if the entries of each day stand together |
| AuditDays.KeysAgreeExactly | src/components/StaffAuditPanel.tsx:62-66 | two instants have the same key if and only if they fall on the same local day, or on the same date of years that mirror each other across the eras |
| AuditDays.KeyIsDateExactly | src/components/StaffAuditPanel.tsx:62-66 | the key is the date the calendar shows if and only if the year has four digits or more |
| AuditDays.HeadingIsInterval | src/components/StaffAuditPanel.tsx:62-66 | in years of four digits the entries under a heading are those between the conversions of its date and of its end of day, where these begin their days right |
| AuditDays.OneHeadingPerDay | src/components/StaffAuditPanel.tsx:210-216 | latest first, where the clock does not go back across their midnights, each day has one heading |
| AuditDays.OneHeadingUnlessBack | src/components/StaffAuditPanel.tsx:210-216 | so where no change near the midnights of the entries takes the clock back across one |
| AuditDays.SplitsExactly | src/components/StaffAuditPanel.tsx:210-216 | some entries of two neighbouring days, latest first, give a day two headings if and only if the change between takes the clock back across midnight |
| AuditDays.BackAtMidnightSplits | src/components/StaffAuditPanel.tsx:210-216 | for every date, a zone that goes back from half past midnight and entries that split the day |
| AuditDays.PresetCovers | src/components/StaffAuditPanel.tsx:183-189 | a preset of so many days covers exactly the dates of the last so many day numbers |
| AuditDays.PresetShows | src/components/StaffAuditPanel.tsx:183-189 | so its headings are exactly those of the last so many local days |
| AuditDays.ActivePresetExactly | src/components/StaffAuditPanel.tsx:217 | a preset is active if and only if the range is the one it applies |
| MoneyInput.LabelRoundTrip | src/lib/money-input.ts:5-17 | parsing the grouped label of a digit string gives its canonical numeral |
| MoneyInput.ParsedDenotes | src/lib/money-input.ts:12-17 | the result counts exactly 100 times the decimal that was typed |
| MoneyInput.AcceptsExactly | src/lib/money-input.ts:12-17 | exactly which texts are accepted |
| MoneyInput.RelabelIsFixed | src/lib/money-input.ts:5-17 | labelling and parsing a parsed amount changes nothing |
| MoneyInput.LabelInjective | src/lib/money-input.ts:5-9 | different amounts have different labels |
| MoneyInput.LabelLooks | src/lib/money-input.ts:5-9 | a label has two digits behind a point and a comma at every fourth place before it, and what is not a digit string has none |
| MoneyInput.GroupedInThrees | src/lib/money-input.ts:8 | counted from the right, every fourth character is a comma and no other |
| MoneyInput.GroupedStrips | src/lib/money-input.ts:8-13 | dropping the commas undoes the grouping |
| DashboardAmounts.CompactReads | src/components/StaffDashboardPanel.tsx:176-184 | the short form of every amount, read by the money parser with its sign and unit, is the value denoted |
| DashboardAmounts.UnitExactly | src/components/StaffDashboardPanel.tsx:176-184 | which amounts are shown in millions, in thousands and in pesos, and which with a decimal |
| DashboardAmounts.NeverOverstatesExactly | src/components/StaffDashboardPanel.tsx:176-184 | the value denoted is at most the amount if and only if that is not negative or has no fraction |
| DashboardAmounts.FractionOverstated | src/components/StaffDashboardPanel.tsx:176-184 | an amount of minus one peso and a half is shown as minus one |
| DashboardAmounts.FallsShortBy | src/components/StaffDashboardPanel.tsx:176-184 | by less than a peso below 10,000 pesos, and by less than a tenth of the value shown from there up |
| DashboardAmounts.DenotedMonotone | src/components/StaffDashboardPanel.tsx:176-184 | a larger amount never shows a smaller value, across the three scales |
| DashboardAmounts.FormatReads | src/components/StaffDashboardPanel.tsx:186-193 | the exact form reads back as the currency and the amount, to the last minor unit, with its sign |
| DashboardAmounts.FormatInjective | src/components/StaffDashboardPanel.tsx:186-193 | the exact form tells every signed amount and every currency apart |
| QuoteTotals.TotalsConserve | scripts/render-quote-pdf-fixture.ts:30-41 | subtotal less discounts is what is taxed, and the line totals sum to the grand total |
| QuoteTotals.LineNonNegative | scripts/render-quote-pdf-fixture.ts:30-35 | with discounts of at most 100% no amount of a line is negative |
| QuoteTotals.LineIs | scripts/render-quote-pdf-fixture.ts:30-35 | each amount of a line is the exact one floored, nothing discounted at 0% and nothing left at 100% |
| QuoteTotals.TaxableIsClose | scripts/render-quote-pdf-fixture.ts:30-33 | what is taxed is less than one minor unit from the exact price less the exact discount |
| QuoteTotals.TaxGapExactly | scripts/render-quote-pdf-fixture.ts:34-41 | how far the line taxes fall short of the tax on the total, exactly |
| QuoteTotals.TaxGapBound | scripts/render-quote-pdf-fixture.ts:34-73 | never negative, and at most 24 units for every 25 lines, so fewer units than lines |
| QuoteTotals.TaxGapAttained | scripts/render-quote-pdf-fixture.ts:34-41 | the bound is reached for every number of lines |

## Left out

- Rendering, focus, scrolling, storage, URLs, and the network, database, mail and crypto calls: a fetch is a start and a settlement with any reply, in any order.
- `Intl`: a zone is an offset of whole seconds, less than a day, that changes at a sorted list of instants; years before the year 1, which Intl prints without their era, are read back by no theorem.
- ZonedCalendar.LoopFindsMidnight: asks for at most one change of offset within the zone's largest offset of the midnight, and for a date from 0100-01-03 on, since the two days before it may convert through the year 99.
- ZonedCalendar.DaysTile: leaves out 9999-12-31, which has no next date that can be printed.
- ZonedCalendar.DaysTileExactly: asks for offsets of less than half a day, so that what happens at one midnight cannot hide what happens at the next.
- Parsing an ISO date string that the calendar does not have is left to the engine by ECMA-262; the audit and dashboard shifts are modelled as failing on it.
- React batches the state updates of one settlement and runs the effects of a user event before the next one; the model takes each as one step. So the refs that effects copy from state (`selectedDataRef`, `loadingDetailRef`) are the state itself.
- ClientFiles: an empty cursor counts as none, as in the source; a change of the request while the panel is mounted, uploads and deletions are reloads like any other.
- FileMerge: an id is its rank under `localeCompare` and a date its instant; a date that does not parse is not modelled.
- ClientPortal: signing out during a fetch, and the thread and activity of the workspace. Between a live change and the loads stand a delay of 600 ms that joins changes and a ref, `pendingDetailRef`, that remembers whether one was of the selected request; a notice of the model is the moment after the delay when the loads are asked for, of the list always and of the workspace if the ref was set.
- StaffRequests: the list loader with its delay of 800 ms, and the forms other than the assignee and status drafts; a reload after an action is a loud load of any request.
- QuoteForm: the error texts and the two steps of the form. The library's test of an address is a parameter. A request refused for its origin or its rate creates nothing and is a failure reply; `crypto.randomUUID` never repeats; a folio is the place of its record, without the year.
- QuoteForm.AcceptedIsRecorded: the server compares the details of the project and not the contact, so it is the form, by `OneKeyOnePayload`, that keeps a key from being sent with another contact.
- DeclineRequest: a reason or comment that is not a string, and half a surrogate pair, are not modelled; a version of 2^53 or more is a number that is not a safe integer.
- ChangeRequest: versions are safe integers; how a number beyond them prints is not modelled.
- AuditPaging: the capabilities, the initial values of the date pickers, and unmounting. The error of a superseded reply is set as in the source, but no run of the buttons supersedes a load.
- QuoteTotals: the PDF itself.
- `StaffFilesPanel`, which repeats the file loader, the messaging threads, the inbox, and the label tables.
