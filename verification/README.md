# Sales-funnel lead CRM — a verified Dafny model of its core

The system is a small single-user CRM for an electricity-connection sales
team. Leads hold the following:

- the client and company;
- the supply size (kVA) and the consumer number;
- a list of phone numbers, one of them the main one;
- a status and a follow-up date;
- an audit trail of activities.

This model covers the core logic, and proves the properties below about it:

- **Lead store** (`app/context/LeadContext.tsx`). Add, update, delete,
  mark-as-done, add-activity and saved views, as pure functions over
  sequences.
- **Store filter and search engine.** A status filter, a follow-up range
  compared as strings, and a two-stage search. A digit-only term is first
  looked for in the digits of each phone number. Otherwise the search is a
  case-insensitive substring test over the text fields.
- **Date views.** The follow-up parser reads `DD-MM-YYYY` day first and
  passes other strings to the `Date` constructor. The views built on it
  are: due today, overdue, the next seven days, the rest of this week,
  the documentation and signed-mandate lists, and the reminders page.
  The reminders page has an inclusive start/end window, a status filter,
  an include-done switch, a time sort in either direction, and a reset.
- **Add/edit lead form.**
  - The validator, as a list of field errors that is empty exactly when
    the form is acceptable.
  - The mobile-number editor and its single-main selector.
  - The main-number fallback.
  - Loading a stored lead for editing, including legacy leads that have
    one number.
  - The `DD-MM-YYYY` last-activity stamp.
  - Building new and edited leads.
- **Lead table.** A click-to-sort header state machine. The comparator
  treats undefined values as ties and negates itself for a descending
  sort. The table also covers date formatting and the dash-free main
  phone cell.
- **All-leads page.** Its own copy of the search, which also scans contact
  names and the status. Then the all/active tabs, the phone fallback to
  'N/A', the `yyyy-mm-dd` to `dd-mm-yyyy` swap, and the last three
  activities.

Modules follow the program's structure:

- `Wrappers`, `Seqs` and `Strings` are generic helpers.
- `LeadModel` holds the types.
- `LeadStore` and `Search` model the context provider.
- `Dates` is the follow-up parser and the calendar arithmetic of the
  `Date` constructor.
- Then one module per page: `DateViews` (due-today and upcoming),
  `Reminders`, `FollowUpMandate`, `LeadForm` and `AllLeadsPage`.
- `LeadTable` is the table component.
- `MobileNumbers` holds the phone-list lookups that several pages share.

Time and the outside world are parameters:

- "Today" is a day ordinal, counted in days since 1970-01-01.
- `new Date(string)` is a function `string -> Option<int>`, where `None`
  stands for an invalid date.
- `toLocaleDateString` is a function `int -> string`.
- The clock, the id generator and the ISO timestamp are plain arguments.
- The regex of `extractAddressFromNotes` is a function argument.
- The date views take the follow-up-date reader as an argument `parse`.
  The pages' reader is `DateViews.PageParse(native)`: the `Dates`
  follow-up parser over the native `new Date(string)`.

## Model

| member | source | states |
|---|---|---|
| LeadStore.AddLead | app/context/LeadContext.tsx:103-110 | the new lead is appended at the end; the length grows by one and every earlier lead is unchanged |
| LeadStore.UpdateLead | app/context/LeadContext.tsx:112-116 | the length is kept; every lead with the updated id is replaced by the update, and every other lead is untouched |
| LeadStore.UpdateAbsent | app/context/LeadContext.tsx:112-116 | an update whose id is not in the store leaves the store unchanged |
| LeadStore.UpdateIdempotent | app/context/LeadContext.tsx:112-116 | applying the same update twice is the same as once |
| LeadStore.UpdateKeepsIds | app/context/LeadContext.tsx:112-116 | an update changes no lead's id |
| LeadStore.DeleteLead | app/context/LeadContext.tsx:118-120 | afterwards no lead has the id; the result is an order-preserving subsequence, and every lead with another id keeps its multiplicity |
| LeadStore.AddThenDelete | app/context/LeadContext.tsx:103-120 | deleting a freshly added lead whose id was not yet used restores the store |
| LeadStore.MarkAsDone | app/context/LeadContext.tsx:122-126 | the leads with the id become done and change in no other field; every other lead is untouched |
| LeadStore.MarkAsDoneIdempotent | app/context/LeadContext.tsx:122-126 | marking a lead done twice is the same as once |
| LeadStore.MarkAsDoneMarksId | app/context/LeadContext.tsx:122-126 | every lead with the id is done afterwards |
| LeadStore.AddActivity | app/context/LeadContext.tsx:128-149 | each matching lead's activities grow by one entry for that lead, and its last-activity date becomes the second clock reading; other leads are untouched |
| LeadStore.AddActivityAppendsOne | app/context/LeadContext.tsx:128-149 | the target's activity list (a missing list counts as empty) is the old list followed by exactly one new activity whose lead id is the target's |
| LeadStore.AddSavedView | app/context/LeadContext.tsx:212-214 | the view is appended, and the earlier views are unchanged |
| LeadStore.DeleteSavedView | app/context/LeadContext.tsx:216-218 | no view with the id remains; the others keep their order and multiplicity |
| LeadStore.AddThenDeleteSavedView | app/context/LeadContext.tsx:212-218 | deleting a freshly added view with a new id restores the list |
| Search.StoreFields | app/context/LeadContext.tsx:188-201 | a string is searched exactly when it is non-empty and is one of: name, company, a phone number, consumer number, kVA, location, notes or conclusion |
| Search.AnyPhoneDigitsContain | app/context/LeadContext.tsx:172-184 | true exactly when some non-empty phone number, with its non-digits stripped, contains the term |
| Search.StoreSearchMatch | app/context/LeadContext.tsx:166-203 | a lead matches exactly when the term is digit-only and found in some phone's digits, or (including a digit-only term no phone holds) some searched field contains it after lower-casing both |
| Search.StoreSearchMiss | app/context/LeadContext.tsx:188-203 | a term that is not digit-only and that no searched field contains (lower-cased) does not match |
| Search.DigitTermFallsThrough | app/context/LeadContext.tsx:170-203 | a digit-only term contained in the consumer number matches even when no phone holds it, because the phone loop only exits early on success |
| Search.GetFilteredLeads | app/context/LeadContext.tsx:150-208 | the result is an order-preserving subsequence; each result meets a non-empty status list, the string-ordered date bounds that are set, and the search; a stored lead is kept exactly when it meets all three, as many times as it is stored |
| Search.NoFiltersKeepsAll | app/context/LeadContext.tsx:150-208 | with no criteria every lead is returned, in order |
| Search.EmptyStatusListNoConstraint | app/context/LeadContext.tsx:153-155 | an empty status list filters exactly like no status list |
| Search.PhoneDigitsFound | app/context/LeadContext.tsx:170-184 | a lead that passes the other filters, and has a phone whose digits contain the digit-only term, is returned |
| Search.PunctuatedPhoneExample | app/context/LeadContext.tsx:179-181 | the stored number "98765-43210" is found by the term "9876543210" |
| Search.CaseInsensitiveExample | app/context/LeadContext.tsx:167-203 | the term "acme" finds a lead whose company is "ACME Corp" |
| Dates.ClassifyFollowUpDate | app/due-today/page.tsx:23-39 | the empty string is no date; a string is read day first exactly when it has a '-', its first segment has one or two characters, and its first three segments are non-empty; any other string goes to the `Date` constructor |
| Dates.FollowUpDay | app/due-today/page.tsx:23-24 | the empty string has no follow-up day |
| Dates.MakeDayInRange | app/due-today/page.tsx:32 | for a month in range, the constructor's day is the proleptic Gregorian day count |
| Dates.YearRollover | app/upcoming/page.tsx:36-37 | the day after 31 December (day 32 of month index 11) is 1 January of the next year |
| Dates.MonthRollover | app/upcoming/page.tsx:36-37 | the day after the last day of a month (Gregorian lengths, 29 days in a leap February) is the 1st of the next month |
| Dates.YearLength | app/upcoming/page.tsx:36-37 | the year up to 1 March of a year has 366 days exactly when that year is a Gregorian leap year, else 365 |
| Dates.CalendarAnchors | app/due-today/page.tsx:32 | 1970-01-01 is day 0, and 2025-03-05 is day 20152 and a Wednesday |
| Dates.DayFirstDay | app/due-today/page.tsx:31 | a day-first date is defined only when all three segments are digit strings; with a month from 1 to 12 it is the proleptic Gregorian day of (year, month, day), where a year from 0 to 99 counts as 1900 to 1999, and it is invalid more than 10^8 days from the epoch |
| Dates.ShortYearExample | app/due-today/page.tsx:31 | "01-01-70" is read as 1 January 1970, day 0 |
| Dates.DayFirstExample | app/due-today/page.tsx:28-33 | "05-03-2025" is read day first as day 5, month 3, year 2025, which is day 20152 |
| Dates.IsoGoesNative | app/due-today/page.tsx:28-36 | "2025-03-05" has a four-character first segment, so it goes to the `Date` constructor |
| DateViews.DueDay | app/due-today/page.tsx:47-53 | a lead that has a due day is open and has a follow-up date |
| DateViews.TodayLeads | app/due-today/page.tsx:43-56 | the leads due today, in order: open leads whose follow-up date parses to today, each as many times as it is stored |
| DateViews.OverdueLeads | app/due-today/page.tsx:58-71 | the open leads whose follow-up date parses to a day before today, in order, each as many times as it is stored |
| DateViews.TodayOverdueDisjoint | app/due-today/page.tsx:54-69 | no lead is both due today and overdue |
| DateViews.DoneInNoView | app/due-today/page.tsx:48-63 | a done lead is in none of the today, overdue, upcoming and this-week views |
| DateViews.DueTodayOnlyInToday | app/due-today/page.tsx:43-71 | an open lead whose follow-up is today is in the today view only |
| DateViews.MarkDoneLeavesToday | app/due-today/page.tsx:48 | after marking a lead done it leaves the today view |
| DateViews.WindowLeads | app/upcoming/page.tsx:33-65 | the open leads whose follow-up day is after today and at most the horizon days ahead, in order, each as many times as it is stored |
| DateViews.UpcomingLeads | app/upcoming/page.tsx:33-48 | the open leads due after today and at most seven days ahead, in store order, each as many times as it is stored |
| DateViews.ThisWeekLeads | app/upcoming/page.tsx:50-65 | the open leads due after today and no later than the end of the week, in store order, each as many times as it is stored |
| DateViews.WindowMonotone | app/upcoming/page.tsx:33-65 | a shorter horizon gives a subsequence of a longer one |
| DateViews.WeekHorizon | app/upcoming/page.tsx:54 | the this-week horizon is between one and seven days, and it is seven exactly on a Sunday |
| DateViews.ThisWeekWithinUpcoming | app/upcoming/page.tsx:50-65 | the this-week view is a subsequence of the next-seven-days view |
| DateViews.ThisWeekIsUpcomingOnSunday | app/upcoming/page.tsx:54 | on a Sunday the two views coincide |
| DateViews.UpcomingDisjointFromDue | app/upcoming/page.tsx:46 | an upcoming or this-week lead is neither due today nor overdue |
| Reminders.Selected | app/reminders/page.tsx:110-126 | a subsequence of the leads holding exactly those that pass the done, status, start and end-of-next-day criteria, each as many times as it is stored |
| Reminders.FilteredAndSorted | app/reminders/page.tsx:104-135 | a permutation of the selected leads, whose members are exactly the leads shown; neighbours with valid dates are in the requested time order |
| Reminders.ComparatorAntisymmetric | app/reminders/page.tsx:128-132 | swapping the arguments negates the time comparator |
| Reminders.SortedWhenStartSet | app/reminders/page.tsx:117-132 | with a start date every shown lead has a valid date, and every pair of rows is in the requested time order |
| Reminders.ResetShowsOpenLeads | app/reminders/page.tsx:137-143 | after a reset the page shows exactly the open leads |
| Reminders.StatusFilterExact | app/reminders/page.tsx:114-116 | with a status filter every row has exactly that status |
| Reminders.MarkDoneHides | app/reminders/page.tsx:112 | unless done leads are included, a lead marked done disappears |
| Reminders.InvalidDateNeedsNoBounds | app/reminders/page.tsx:117-126 | a lead with an invalid date is shown only when neither bound is set |
| Reminders.BadgeOf | app/reminders/page.tsx:15 | a card is marked done exactly when the lead is done, and past exactly when an open lead's date is before today's UTC midnight |
| FollowUpMandate.Documentation | app/follow-up-mandate/page.tsx:13-15 | a subsequence of the open leads awaiting documents, and exactly those, each as many times as it is stored |
| FollowUpMandate.MandateSent | app/follow-up-mandate/page.tsx:17-19 | a subsequence of the open leads with a signed mandate, and exactly those, each as many times as it is stored |
| FollowUpMandate.ViewsDisjoint | app/follow-up-mandate/page.tsx:13-19 | no lead is in both lists, and a done lead is in neither |
| FollowUpMandate.ViewsFitInStore | app/follow-up-mandate/page.tsx:13-19 | the two lists together are no longer than the store |
| FollowUpMandate.NewLeadAwaitsDocuments | app/add-lead/page.tsx:319-321 | a lead created by the form appears in the documentation list |
| FollowUpMandate.MarkDoneLeavesBoth | app/follow-up-mandate/page.tsx:14-18 | a lead marked done leaves both lists |
| MobileNumbers.FirstMainIndex | app/add-lead/page.tsx:262 | the position of the first entry flagged main, or none exactly when no entry is |
| MobileNumbers.MainNumberIsFirstMain | app/add-lead/page.tsx:262 | the main number looked up is the first main entry's |
| LeadForm.RequiredFieldErrors | app/add-lead/page.tsx:131-147 | no error exactly when kVA, company and client name are non-blank after trimming and the consumer number is non-blank and of phone characters |
| LeadForm.InvalidNumberErrors | app/add-lead/page.tsx:155-163 | an error for entry i exactly when entry i is non-blank and not of phone characters |
| LeadForm.HasValidNumber | app/add-lead/page.tsx:150-153 | true exactly when some entry is non-blank and of phone characters |
| LeadForm.ValidateForm | app/add-lead/page.tsx:127-177 | no error exactly when the form is acceptable: the required fields are filled, some phone is valid and none is malformed, the connection date is empty or `DD-MM-YYYY`, and the follow-up date is empty or not before today |
| LeadForm.HandleMobileNumberChange | app/add-lead/page.tsx:180-186 | only entry `index` changes, and only its number, which becomes the value |
| LeadForm.HandleMainMobileNumberChange | app/add-lead/page.tsx:200-208 | exactly entry `index` is main afterwards; ids, numbers, names and length are kept |
| LeadForm.SelectionLeavesOneMain | app/add-lead/page.tsx:200-208 | after a selection in range the selected entry is the first and only main one |
| LeadForm.SelectedMainIsStored | app/add-lead/page.tsx:200-208 | after selecting a non-empty number as main, that number is the lead's stored main number |
| LeadForm.NumberChangeKeepsMain | app/add-lead/page.tsx:180-186 | editing a number does not move the main flag |
| LeadForm.MainMobileNumber | app/add-lead/page.tsx:262 | the first main entry's number when non-empty; when there is no main entry or its number is empty, the first entry's number, or the empty string for an empty list; always some entry's number or the empty string |
| LeadForm.ExtractAddressFromNotes | app/add-lead/page.tsx:39-42 | notes without "Address:" give an empty address and the notes unchanged |
| LeadForm.SlotsOf | app/add-lead/page.tsx:79-85 | stored numbers are loaded one for one, with a missing id replaced by the position counted from 1 |
| LeadForm.LoadForEdit | app/add-lead/page.tsx:69-106 | a lead with a phone list loads it; a legacy lead gets its number in slot 1 as main with slots 2-3 empty; otherwise three empty slots |
| LeadForm.LegacyNumberIsMain | app/add-lead/page.tsx:86-89 | a legacy lead's number is the loaded form's main number |
| LeadForm.EditRoundTrip | app/add-lead/page.tsx:69-106 | loading a lead and saving it unchanged keeps its id, kVA, company, client name, consumer number, connection and follow-up dates, status and unit type, and notes without an address |
| LeadForm.DateStamp | app/add-lead/page.tsx:254-258 | the stamp splits on '-' into the padded day, the padded month and the year, and has the `DD-MM-YYYY` shape for four-digit years |
| LeadForm.StampReadsBack | app/add-lead/page.tsx:254-258 | the follow-up parser reads the stamp back as the clock's date |
| LeadForm.BuildLead | app/add-lead/page.tsx:265-284 | the built lead carries the id, the stamp and the main number, and the form's kVA, connection date, consumer number, company, client name, phone list, location, unit type, status, follow-up date, conclusion and notes; it is open, has a pending mandate and documents, and no marketing objective, budget, timeline or contact owner |
| LeadForm.NewLead | app/add-lead/page.tsx:303-326 | a new lead is open, pending, and has exactly one activity, "Lead created", belonging to it |
| LeadForm.EditedLead | app/add-lead/page.tsx:265-284 | an edited lead keeps its id, is open and pending, and has no activities field |
| LeadForm.Save | app/add-lead/page.tsx:260-333 | in edit mode the lead with the editing id is replaced by the edited lead built from the form (ids kept, stamped with the current date, not done) and every other lead is unchanged; otherwise the store is extended by the new lead built from the form, with the fresh id |
| LeadForm.NewLeadLoadsBack | app/add-lead/page.tsx:69-106 | loading a lead the form created gives back its kVA, company, client name, consumer number, dates, status, unit type, conclusion, entered location, address-free notes and number slots (exactly, when every slot has an id and no name) |
| LeadForm.Submit | app/add-lead/page.tsx:243-330 | a submission is rejected, with the validator's non-empty error list, exactly when the form is not acceptable; an accepted one saves with the clock's date stamp |
| LeadForm.StampIgnoresFormInput | app/add-lead/page.tsx:315 | a new lead's last-activity date is the clock's stamp whatever the form said |
| LeadTable.FieldValue | app/components/LeadTable.tsx:62-65 | every column header field is defined on every lead |
| LeadTable.HandleSort | app/components/LeadTable.tsx:81-91 | the clicked field becomes the sort field; re-clicking it flips the direction, and a new field starts ascending |
| LeadTable.TwoClicksRestore | app/components/LeadTable.tsx:81-91 | clicking the sorted column twice restores the state |
| LeadTable.NewColumnAscThenDesc | app/components/LeadTable.tsx:81-91 | a new column sorts ascending on the first click and descending on the second |
| LeadTable.DescendingNegatesAscending | app/components/LeadTable.tsx:65-74 | the descending comparator is the negated ascending one, and undefined values tie |
| LeadTable.ComparatorAntisymmetric | app/components/LeadTable.tsx:61-75 | swapping the rows negates the comparator |
| LeadTable.HeaderComparatorTransitive | app/components/LeadTable.tsx:61-75 | on a column header the comparator is transitive |
| LeadTable.SortedLeads | app/components/LeadTable.tsx:58-76 | unsorted the rows are unchanged; sorted they are a permutation with neighbours in order |
| LeadTable.HeaderSortIsTotal | app/components/LeadTable.tsx:58-76 | sorted by a column header, every pair of rows is in order |
| LeadTable.FormatDate | app/components/LeadTable.tsx:99-122 | the empty string shows as empty; a string that is neither `DD-MM-YYYY` nor a valid date shows unchanged; any other non-`DD-MM-YYYY` string shows as its native date |
| LeadTable.DayFirstIgnoresNative | app/components/LeadTable.tsx:103-111 | a `DD-MM-YYYY` string is formatted without the native parser |
| LeadTable.StampShownAsClockDate | app/components/LeadTable.tsx:103-111 | a last-activity stamp with a four-digit year is shown as the clock's date |
| LeadTable.MobileCell | app/components/LeadTable.tsx:272 | the cell has no '-', and keeps every other character of the main (else legacy) number, in order |
| AllLeadsPage.PageFields | app/all-leads/page.tsx:41-59 | the page searches the store's fields plus contact names and the status, with empty strings dropped |
| AllLeadsPage.PageSearchMatchIff | app/all-leads/page.tsx:21-62 | a lead matches exactly when a digit-only term is in some phone's digits, or some page field contains the term after lower-casing both |
| AllLeadsPage.SearchLeads | app/all-leads/page.tsx:21-62 | the search keeps an order-preserving subsequence holding each matching lead as many times as it is stored, and no other lead |
| AllLeadsPage.SearchLeadsMembers | app/all-leads/page.tsx:21-62 | a lead is kept exactly when it is stored and matches, and every kept lead matches |
| AllLeadsPage.AllLeads | app/all-leads/page.tsx:17-66 | with no term every lead; otherwise the matching leads as an order-preserving subsequence, each as many times as it is stored |
| AllLeadsPage.ActiveLeads | app/all-leads/page.tsx:69-119 | an order-preserving subsequence with no done lead, holding exactly the open matching leads, each as many times as it is stored |
| AllLeadsPage.OpenLeads | app/all-leads/page.tsx:69-70 | the leads not done, in order, each as many times as it is stored |
| AllLeadsPage.ActiveSearch | app/all-leads/page.tsx:69-119 | under a search term, the open matching leads in order, each as many times as it is stored, and no other lead |
| AllLeadsPage.EmptyTermListsAll | app/all-leads/page.tsx:17-20 | without a term the all tab is the whole store |
| AllLeadsPage.ActiveIsAllWithoutDone | app/all-leads/page.tsx:17-119 | the active tab is the all tab with the done leads removed, and so a subsequence of it |
| AllLeadsPage.StoreMatchFoundOnPage | app/all-leads/page.tsx:21-62 | whatever the store's search finds, the page's search finds |
| AllLeadsPage.StatusOnlyMatch | app/all-leads/page.tsx:47-62 | a term found only in the status is missed by the store's search but found by the page's |
| AllLeadsPage.MainPhoneDisplay | app/all-leads/page.tsx:276-279 | never blank: the first main entry's number, else the first entry's, else 'N/A'; without a phone list, the legacy number or 'N/A' |
| AllLeadsPage.PhoneDisplayMatchesStoredMain | app/all-leads/page.tsx:276-279 | with a phone list, the card shows the number the form stores as main, or 'N/A' when that is empty |
| AllLeadsPage.FollowUpDisplay | app/all-leads/page.tsx:286-293 | a date of three '-'-parts is shown with the parts reversed; any other string is shown unchanged |
| AllLeadsPage.FollowUpDisplayInvolution | app/all-leads/page.tsx:286-293 | swapping twice gives the date back |
| AllLeadsPage.IsoShownDayFirst | app/all-leads/page.tsx:288-290 | `yyyy-mm-dd` is shown as `dd-mm-yyyy` |
| AllLeadsPage.LastThree | app/all-leads/page.tsx:681 | the last three activities (all when fewer), in their original order, as a suffix |
| AllLeadsPage.RecentActivities | app/all-leads/page.tsx:677-681 | the panel is absent exactly when the lead has no activities, and otherwise lists the last three |

## Left out

- Persistence: the `localStorage` load and save, the JSON parsing, and the
  error logging around them. The store is a value that the operations
  return.
- The UI around the core is not modelled:
  - React state, memoisation and rendering;
  - navigation and URL tabs;
  - the clipboard and its `setTimeout` reset;
  - the simulated one-second save delay;
  - `handleChange` and clearing errors as the user types.
- The id generator, the clock and `toISOString` are arguments. `addActivity` reads the clock twice, so it takes two readings.
- `new Date(string)` and `toLocaleDateString` are function parameters.
  Their behaviour is not modelled.
- Time zones and daylight saving: dates are local day ordinals.
  - The reminders page works in milliseconds.
  - Its "next day" is 86 400 000 ms after the end date, so a
    daylight-saving change is not modelled.
- The day-first parser:
  - It requires every segment to be a digit string. The partial
    `parseInt` of strings such as "5x" is not modelled.
  - Negative clock years are not modelled.
- `localeCompare` is modelled as code-unit order, and `toLowerCase` as
  ASCII lower-casing.
- The reminder sort and missing values: a comparator result of `NaN`
  counts as a tie, as ECMAScript's `SortCompare` does. Sorting is
  modelled by a stable insertion sort. The order an engine actually
  produces for an inconsistent comparator is implementation-defined.
- LeadForm.ExtractAddressFromNotes: the address-matching branch is a
  function argument. Only the case without "Address:" is stated.
- Strings are sequences of Unicode scalar values, not UTF-16 code units:
  a character outside the Basic Multilingual Plane is one `char` here but
  two code units in JavaScript, and lone surrogates are not modelled.
- LeadForm.ValidateForm: states the empty-iff-acceptable property only.
  - The per-entry phone errors are stated on `InvalidNumberErrors`.
  - That the two consumer-number errors exclude each other is not
    stated.
- LeadTable.FormatDate: the `DD-MM-YYYY` branch is stated through
  `StampShownAsClockDate` for stamps only. For other two-digit inputs the
  branch is stated through `DayFirstIgnoresNative` alone.
- The `Navigation` component, the dashboard and the form pages outside
  `app/add-lead` are not part of this model.
- The mobile-number contact name: the `MobileNumber` interface has no
  such field, but the all-leads page reads `name`, so the model carries
  an optional name. The form drops it when loading a lead, as the
  source's mapping does.
