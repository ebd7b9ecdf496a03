# Member administration rules of the digcity dashboard, in Dafny

The digcity dashboard is a React client with a small Express/MySQL server. It
keeps the organisation's member records (`data_anggota`). This project models
the pure rules behind its member screens and its navigation sidebar, and
proves properties about them:

- **the members table**: case-insensitive search over name, NPM, division and
  position; pages of ten; the page footer; the Previous and Next buttons;
- **the division donut chart**: active members counted per division, with
  "BPH" left out; the chart entries in first-seen order; the total; the
  colour cycle; the error and empty states;
- **the `GET /anggota/stats` query**: `COUNT`/`SUM(CASE …)` under SQL's
  three-valued logic, where a NULL status or sanction falls into neither
  bucket;
- **the detail/edit dialog**: view fallbacks, edit mode and cancel, per-field
  validation with its messages, clearing an error on change, the error
  banner count, submit and its outcomes, the tenure period, and the WhatsApp
  link;
- **the add-member dialog and the inline add panel**: blank forms, filling
  the province from the city, first-failure validation (dialog) or required
  fields only (panel), submit, reset, and close;
- **the read-only detail dialog**: date and dash fallbacks, the WhatsApp
  link, and the status and sanction badge colours;
- **the sidebar**: open and collapsed, expandable groups, hover flyouts,
  icon tooltips, and the set of links with exact-path highlighting.

A member record is a `map<string, Option<string>>`:

- a missing key is JavaScript's `undefined`;
- `None` is `null` (SQL `NULL`);
- JavaScript truthiness (`Records.Filled`) and the `|| "-"` fallback
  (`Records.OrDash`) are written out once and reused.

The browser's date parsing, the database collation, and the city-to-province
table are parameters of the operations that use them.

Modules follow the source files:

| module | models |
|---|---|
| `Records`, `Text`, `Seqs` | shared record access, ASCII text helpers, filtering and counting |
| `Validators` | the e-mail and phone regular expressions |
| `Tenure` | the "start year-end year" tenure label |
| `UsersTable` | `UsersTable.jsx` |
| `DonutChart` | `AnggotaDonutChart.jsx` |
| `Stats` | `server.js` |
| `Locations` | the shared city/province handling |
| `DetailAnggota` | `DetailAnggotaModal.jsx` |
| `TambahModal` | `TambahAnggotaModal.jsx` |
| `TambahButton` | `TambahAnggota.jsx` |
| `DetailUsers` | `DetailUsersModal.jsx` |
| `Sidebar` | `components/Sidebar.jsx` |

In the statistics query (server/server.js:37-45):

- the inactive and bad-sanction counters are `!=` comparisons, so a row
  whose status or sanction is NULL is counted in neither bucket;
- whether `'Aktif'` matches `'aktif'` is left to the database collation,
  which is a parameter.

## Model

| member | source | states |
|---|---|---|
| Records.OrDash | client/src/components/users/DetailUsersModal.jsx:98 | a field shows its own text when that is non-empty, and "-" when it is missing, null or empty |
| Records.TruthyOr | client/src/components/users/DetailAnggotaModal.jsx:212 | `x \|\| fallback` gives the value when it is a non-empty string, and the fallback otherwise |
| Text.LowerIdempotent | client/src/components/users/UsersTable.jsx:81 | lower-casing an already lower-cased term changes nothing |
| Text.EmptyIncluded | client/src/components/users/UsersTable.jsx:86-89 | `includes("")` holds for every string, so an empty search term matches any present field |
| Text.DigitsOnly | client/src/components/users/DetailUsersModal.jsx:140-143 | stripping `\D` keeps exactly the digit characters, which is the generic filter with the digit test |
| Text.DigitsOnlyKeepsDigits | client/src/components/users/DetailUsersModal.jsx:140-143 | a string of digits is left unchanged by stripping non-digits |
| Text.DigitsOnlyIdempotent | client/src/components/users/DetailUsersModal.jsx:140-143 | stripping non-digits a second time changes nothing |
| Text.WhatsAppHref | client/src/components/users/DetailUsersModal.jsx:140-143 | the chat link is "https://wa.me/" followed by the stripped number, and holds only digits after the prefix |
| Text.WhatsAppHrefDigits | client/src/components/users/DetailUsersModal.jsx:140-143 | the digits after the prefix are the number's digit characters, each taken from its own position, in their original order, and no other character |
| Text.WhatsAppHrefStable | client/src/components/users/DetailAnggotaModal.jsx:454 | building a link from the digits of a link gives the same link again |
| Text.DecimalRoundTrip | client/src/components/users/DetailAnggotaModal.jsx:118 | a year written in decimal reads back as the same year |
| Validators.ValidEmail | client/src/components/users/DetailAnggotaModal.jsx:151 | the check accepts a string exactly when it matches `^[^\s@]+@[^\s@]+\.[^\s@]+$` |
| Validators.EmailCheckMatchesPattern | client/src/components/users/DetailAnggotaModal.jsx:151 | no whitespace, exactly one "@" with text before it, and a "." with text on both sides after it: exactly the strings the pattern matches |
| Validators.AcceptedPhoneLink | client/src/components/users/DetailAnggotaModal.jsx:156 | an accepted number gives a chat link with at most 15 digits, and the link carries the whole number exactly when the number is all digits |
| Validators.NoDigitsStripToNothing | client/src/components/users/DetailUsersModal.jsx:140-143 | a number without any digit strips to the empty string |
| Validators.AcceptedPhoneWithoutDigits | client/src/components/users/DetailAnggotaModal.jsx:156 | "(---------)" passes the phone check, yet its chat link is the bare "https://wa.me/" |
| Validators.PhoneExamples | client/src/components/users/DetailAnggotaModal.jsx:156 | "0812-3456-7890" and "+62 812 3456 78" are accepted; 9 or 16 characters, or a letter, are rejected |
| Validators.EmailExamples | client/src/components/users/DetailAnggotaModal.jsx:151 | "a@b.co" is accepted; "a@b@c.d", "a@.bc" and "a b@c.d" are rejected |
| Tenure.SpanNamesBothYears | client/src/components/users/DetailAnggotaModal.jsx:112-122 | the label of a date in year Y names the years Y and Y+1, and parses back to them |
| Tenure.SpanIsNotPlaceholder | client/src/components/users/DetailAnggotaModal.jsx:112-122 | the label of a real date is never the "-" placeholder, nor "NaN-NaN" |
| Tenure.StartOf | client/src/components/users/DetailAnggotaModal.jsx:113-115 | the start date is blank exactly when the field is empty; otherwise it is the browser's reading, or invalid when that fails |
| Tenure.PeriodLabel | client/src/components/users/DetailAnggotaModal.jsx:112-122 | "-" exactly for a blank start date; "NaN-NaN" exactly for an invalid one; otherwise a label that parses back to (Y, Y+1) |
| Seqs.FilterIsOrderedSubsequence | client/src/components/users/UsersTable.jsx:85-90 | the filtered list is exactly the kept elements, in their original order |
| Seqs.FilterIdempotent | client/src/components/users/UsersTable.jsx:85-90 | filtering twice with the same test is filtering once |
| Seqs.FilterAppend | client/src/components/users/UsersTable.jsx:85-90 | filtering a concatenation is concatenating the filtered parts |
| Seqs.FilterKeepsAll | client/src/components/users/UsersTable.jsx:85-90 | filtering gives back the whole list, or a list as long, exactly when every element passes |
| UsersTable.SearchIsOrderedSubsequence | client/src/components/users/UsersTable.jsx:80-93 | the search result holds exactly the records with a matching name, NPM, division or position, in table order |
| UsersTable.SearchIgnoresTermCase | client/src/components/users/UsersTable.jsx:81 | terms that differ only in letter case give the same result |
| UsersTable.KeepsIgnoresFieldCase | client/src/components/users/UsersTable.jsx:86-89 | records whose four searched fields differ only in letter case are kept or dropped together |
| UsersTable.EmptyTermKeepsPresentRecords | client/src/components/users/UsersTable.jsx:86-89 | the empty term keeps exactly the records carrying at least one of the four fields, even an empty one; undefined and null fields do not count |
| UsersTable.TotalPages | client/src/components/users/UsersTable.jsx:25 | the page count is the least number of pages of ten that holds every record, and is 0 only for an empty list |
| UsersTable.PageSlice | client/src/components/users/UsersTable.jsx:22-24 | page p holds at most ten records: the records from position 10(p-1) on, in order, or none past the end |
| UsersTable.PagesPartitionList | client/src/components/users/UsersTable.jsx:223-235 | the pages offered by the page buttons, joined in order, give back the whole filtered list |
| UsersTable.EachRecordOnOnePage | client/src/components/users/UsersTable.jsx:22-25 | every record lies on exactly one page within the page count, at the matching position |
| UsersTable.Footer | client/src/components/users/UsersTable.jsx:207 | the footer's "from-to" range has as many entries as the current page shows |
| UsersTable.Loaded | client/src/components/users/UsersTable.jsx:48-50 | the arriving rows become both the data and the shown list; the search box and the page keep their values |
| UsersTable.LoadedIgnoresTypedTerm | client/src/components/users/UsersTable.jsx:48-50 | after loading, the shown list agrees with the typed term exactly when every row matches it |
| UsersTable.LoadedShowsNonMatchingRow | client/src/components/users/UsersTable.jsx:48-50 | with "zz" typed before loading, a row named "Ani" is shown although the search would drop it |
| UsersTable.SearchTermIsStable | client/src/components/users/UsersTable.jsx:81-91 | searching again with the stored term changes nothing, since it is already lower-cased |
| UsersTable.HandleSearch | client/src/components/users/UsersTable.jsx:80-93 | a new search filters the full data, not the previous result, stores the lower-cased term, and keeps the page number |
| UsersTable.SearchForgetsEarlierFilter | client/src/components/users/UsersTable.jsx:84-91 | the result of a search does not depend on what was filtered before |
| UsersTable.NarrowedSearchCanShowEmptyPage | client/src/components/users/UsersTable.jsx:80-93 | searching from page 2 or later to ten matches or fewer leaves an empty page, because the page is not reset |
| UsersTable.Previous | client/src/components/users/UsersTable.jsx:212-213 | Previous moves back one page and does nothing on page 1 |
| UsersTable.Next | client/src/components/users/UsersTable.jsx:238-239 | Next moves on one page and does nothing on the last page |
| UsersTable.NextStaysInRange | client/src/components/users/UsersTable.jsx:238-239 | from a page within range, Next stays within range |
| UsersTable.NavigationEnablement | client/src/components/users/UsersTable.jsx:211-241 | Previous leaves the table unchanged exactly on page 1, and Next exactly on the last page; with no results Next stays enabled and leads to empty pages |
| DonutChart.Bump | client/src/components/users/AnggotaDonutChart.jsx:40 | counting one more record raises that division's count by one, and appends a new division at the end when it is first seen |
| DonutChart.Tally | client/src/components/users/AnggotaDonutChart.jsx:37-43 | each division's count is the number of active non-BPH records in it; the total is the number of counted records |
| DonutChart.BphNeverCounted | client/src/components/users/AnggotaDonutChart.jsx:39 | the "BPH" division never gets a count |
| DonutChart.ChartEntries | client/src/components/users/AnggotaDonutChart.jsx:46-49 | every chart entry has a positive count equal to its division's count and is not BPH; every counted division has an entry |
| DonutChart.TotalCountsRecords | client/src/components/users/AnggotaDonutChart.jsx:52 | the displayed total is the number of active non-BPH records, at most the number of rows |
| DonutChart.ColorIndex | client/src/components/users/AnggotaDonutChart.jsx:158 | the colour index is always a valid palette position, and is the entry's own index for the first six |
| DonutChart.ColorIndexPeriodic | client/src/components/users/AnggotaDonutChart.jsx:158 | the colour index of a slice equals that of the slice six places further on |
| DonutChart.CellColors | client/src/components/users/AnggotaDonutChart.jsx:155-160 | each slice gets a palette colour: the first six take the palette in order, and from then on the colours repeat every six slices |
| DonutChart.Load | client/src/components/users/AnggotaDonutChart.jsx:30-61 | a failed fetch shows "Gagal memuat data anggota"; no counted record shows the empty state; otherwise the chart of the per-division tally, its palette colours, and the total of counted records |
| Stats.Aggregate | server/server.js:37-45 | total is the row count; each other counter is the SQL sum of its CASE, NULL over zero rows, and counts the rows whose comparison is true |
| Stats.ThreeWaySplit | server/server.js:40-41 | every row is `= 'Aktif'`, `!= 'Aktif'` or has a NULL status, and never two of these |
| Stats.CountersAddUp | server/server.js:39-43 | active plus inactive users plus the rows with a NULL status is the total, and likewise for the two sanction counters; with no NULL the two counters alone add up; on an empty table they are NULL |
| Stats.CountersBounded | server/server.js:39-43 | no counter exceeds the total |
| Stats.HandleStats | server/server.js:37-48 | a query error answers 500 "Server error"; otherwise the single result row, whose total is the row count and whose four other counters count the rows where their comparison is true, NULL on an empty table |
| Locations.ProvinceOf | client/src/components/users/TambahAnggotaModal.jsx:62 | a known city gives its province; an unknown city gives "" |
| Locations.HandleChange | client/src/components/users/TambahAnggotaModal.jsx:54-69 | the changed field takes the new value; choosing a city also sets its province; no other field changes |
| Locations.LessTransitive | client/src/components/users/TambahAnggotaModal.jsx:51 | the default string order used by `sort()` is transitive |
| Locations.LessTotal | client/src/components/users/TambahAnggotaModal.jsx:51 | any two different strings are ordered one way or the other |
| Locations.Insert | client/src/components/users/TambahAnggotaModal.jsx:51 | inserting a new city into a sorted list keeps it sorted and adds exactly that city |
| Locations.CityOptions | client/src/components/users/TambahAnggotaModal.jsx:51 | the city options are the mapping's cities, each once, in ascending order |
| Locations.SortedIsDistinct | client/src/components/users/TambahAnggotaModal.jsx:51 | no city appears twice in the options |
| DetailAnggota.InitialForm | client/src/components/users/DetailAnggotaModal.jsx:64-72 | the form is the record, with the start-date field always present as a string |
| DetailAnggota.ValidateForm | client/src/components/users/DetailAnggotaModal.jsx:142-170 | a field has an error exactly when it is a required field left empty, or a given e-mail, phone number or start date of the wrong shape; every message is non-empty |
| DetailAnggota.FormValidIff | client/src/components/users/DetailAnggotaModal.jsx:142-170 | the form passes exactly when the required fields are filled and every given optional field is well-formed |
| DetailAnggota.HandleChange | client/src/components/users/DetailAnggotaModal.jsx:125-139 | the field takes the value; its error is hidden but its key stays; other errors are untouched |
| DetailAnggota.ChangeKeepsBannerCount | client/src/components/users/DetailAnggotaModal.jsx:424-427 | fixing a field never lowers the banner's error count, because the cleared key stays |
| DetailAnggota.ToggleEditMode | client/src/components/users/DetailAnggotaModal.jsx:173-181 | entering edit mode keeps the form; cancelling restores the record and drops all errors; the banner error is cleared |
| DetailAnggota.CancelRestoresRecord | client/src/components/users/DetailAnggotaModal.jsx:173-181 | after any edits, cancel gives back exactly the original record, without the start-date key the dialog had added |
| DetailAnggota.ApplyEditsKeepsMode | client/src/components/users/DetailAnggotaModal.jsx:125-139 | typing never changes the mode or the record the dialog was opened with |
| DetailAnggota.HandleSubmit | client/src/components/users/DetailAnggotaModal.jsx:184-192 | the errors shown are the validation's; the update is sent exactly when the form is valid, and it is the form |
| DetailAnggota.AfterPut | client/src/components/users/DetailAnggotaModal.jsx:194-216 | a saved update leaves edit mode and closes; a failure shows the server's message or "Gagal menyimpan perubahan" |
| DetailAnggota.Dismiss | client/src/components/users/DetailAnggotaModal.jsx:333 | the backdrop or Escape closes the dialog in view mode only |
| DetailAnggota.Displayed | client/src/components/users/DetailAnggotaModal.jsx:234-245 | a text field shows the record or "-" in view mode, and the form, or "Aktif"/"Baik" for empty status and sanction selects, in edit mode; a date field shows the record's rendered date in view mode and the form's input date in edit mode |
| DetailAnggota.DateInput | client/src/components/users/DetailAnggotaModal.jsx:89-97 | an empty date gives an empty input; a readable one gives its day as YYYY-MM-DD; an unreadable one gives an empty input |
| DetailAnggota.UnreadableDateBlankInEditMode | client/src/components/users/DetailAnggotaModal.jsx:660-672 | a date the browser cannot read shows through the renderer in view mode but as an empty input in edit mode |
| DetailAnggota.CancelledEditsAreNotShown | client/src/components/users/DetailAnggotaModal.jsx:173-181 | after edit and cancel, every field, date fields included, shows what it showed when the dialog opened |
| DetailAnggota.ValidatedStartHasYearSpan | client/src/components/users/DetailAnggotaModal.jsx:160-166 | when the validator and the label read dates alike, a start date that passed validation never shows "NaN-NaN" |
| DetailAnggota.Period | client/src/components/users/DetailAnggotaModal.jsx:594 | the period is read from the stored record, and is "-" exactly when it has no start date |
| DetailAnggota.WhatsAppLink | client/src/components/users/DetailAnggotaModal.jsx:447-454 | the link shows in view mode exactly when the form holds a number, and links to that number's digits |
| TambahModal.Blank | client/src/components/users/TambahAnggotaModal.jsx:14-36 | the blank form has every field empty except status "Aktif" and sanction "Baik" |
| TambahModal.Reset | client/src/components/users/TambahAnggotaModal.jsx:72-96 | reset gives back the initial form and clears the error |
| TambahModal.HandleChange | client/src/components/users/TambahAnggotaModal.jsx:54-69 | the shared city/province rule; changing a field the form already has, with its province field present as in the blank form, keeps its set of fields |
| TambahModal.ValidateForm | client/src/components/users/TambahAnggotaModal.jsx:139-162 | the first failing rule wins: required fields, then e-mail, then phone; pass exactly when none fails |
| TambahModal.AgreesWithEditor | client/src/components/users/TambahAnggotaModal.jsx:139-162 | the dialog accepts exactly the forms the edit dialog accepts, except that it never checks the start date |
| TambahModal.BlankIsRejected | client/src/components/users/TambahAnggotaModal.jsx:141-145 | submitting the blank form reports the missing required fields |
| TambahModal.HandleSubmit | client/src/components/users/TambahAnggotaModal.jsx:164-176 | the create request is sent exactly when validation passes; otherwise the first failure's message shows |
| TambahModal.AfterPost | client/src/components/users/TambahAnggotaModal.jsx:176-193 | success resets and closes the dialog; failure keeps the form and shows the server's message or the default |
| TambahModal.CreatedOnlyWhenValid | client/src/components/users/TambahAnggotaModal.jsx:164-193 | a created member always has its required fields, and the next form starts blank |
| TambahModal.PeriodOf | client/src/components/users/TambahAnggotaModal.jsx:126-136 | "" exactly for a blank start date; otherwise the shared tenure label |
| TambahModal.Period | client/src/components/users/TambahAnggotaModal.jsx:559-562 | the page shows "-" exactly when no start date was typed, never an empty string |
| TambahButton.Blank | client/src/components/users/TambahAnggota.jsx:8-33 | the panel's blank form is the dialog's without the start-date field |
| TambahButton.ToggleForm | client/src/components/users/TambahAnggota.jsx:51-56 | opening keeps what was typed; closing discards it |
| TambahButton.ReopenStartsBlank | client/src/components/users/TambahAnggota.jsx:51-56 | closing and reopening always shows the blank form |
| TambahButton.HandleChange | client/src/components/users/TambahAnggota.jsx:59-74 | the shared city/province rule; changing a field the panel's form already has keeps its set of fields |
| TambahButton.HandleSubmit | client/src/components/users/TambahAnggota.jsx:102-117 | the request is sent exactly when name, NPM and division are filled |
| TambahButton.AfterPost | client/src/components/users/TambahAnggota.jsx:117-131 | success returns the panel to its initial closed, blank state; failure shows the server's message or the default |
| TambahButton.LooserThanDialog | client/src/components/users/TambahAnggota.jsx:110-114 | the panel sends every form the dialog sends; the extra ones have a bad e-mail or phone number |
| TambahButton.PanelSendsUncheckedEmail | client/src/components/users/TambahAnggota.jsx:110-114 | a form with e-mail "x" is sent by the panel but stopped by the dialog |
| Records.FormatDate | client/src/components/users/DetailUsersModal.jsx:33-44 | an empty date shows "-"; a given one shows the browser's rendering |
| DetailUsers.WhatsAppCell | client/src/components/users/DetailUsersModal.jsx:138-160 | a link exactly when there is a phone number, to its digits; "-" otherwise |
| DetailUsers.StatusTone | client/src/components/users/DetailUsersModal.jsx:227-232 | the status badge is green exactly for "aktif" in any letter case, and red otherwise |
| DetailUsers.SanksiTone | client/src/components/users/DetailUsersModal.jsx:278-282 | the sanction badge is green exactly for "baik" in any letter case, and yellow otherwise |
| DetailUsers.BadgesIgnoreCase | client/src/components/users/DetailUsersModal.jsx:227-282 | records that differ only in letter case get the same badges |
| DetailUsers.ChartCountsOnlyGreen | client/src/components/users/DetailUsersModal.jsx:227-232 | every member the donut chart counts has a green status badge |
| DetailUsers.GreenButNotCounted | client/src/components/users/AnggotaDonutChart.jsx:39 | status "aktif" gets a green badge but is not counted by the chart's case-sensitive test |
| Sidebar.Init | client/src/components/Sidebar.jsx:14-26 | the sidebar starts open with every group folded |
| Sidebar.ToggleGroup | client/src/components/Sidebar.jsx:55-62 | clicking a group flips exactly that group while open, and does nothing while collapsed |
| Sidebar.ToggleSidebar | client/src/components/Sidebar.jsx:32-40 | the menu button flips the sidebar; collapsing folds every group |
| Sidebar.GroupMouseEnter | client/src/components/Sidebar.jsx:82-95 | hovering a group remembers it only while collapsed |
| Sidebar.GroupMouseLeave | client/src/components/Sidebar.jsx:96-103 | leaving a group forgets the hover only while collapsed |
| Sidebar.DropdownMouseLeave | client/src/components/Sidebar.jsx:107-112 | leaving the flyout forgets the hover in any state |
| Sidebar.IconMouseEnter | client/src/components/Sidebar.jsx:65-76 | hovering an icon shows the tooltip, naming that icon, exactly when the sidebar is collapsed |
| Sidebar.IconMouseLeave | client/src/components/Sidebar.jsx:77-79 | leaving an icon hides the tooltip and changes nothing else |
| Sidebar.StepPreservesInvariant | client/src/components/Sidebar.jsx:32-40 | no action leaves a collapsed sidebar with a group unfolded; an inline submenu and a flyout never show together |
| Sidebar.RunPreservesInvariant | client/src/components/Sidebar.jsx:32-40 | the same holds after any sequence of actions from the initial state |
| Sidebar.ReopenedSidebarIsFolded | client/src/components/Sidebar.jsx:32-40 | collapsing and reopening shows every group folded |
| Sidebar.AtMostOneMatch | client/src/components/Sidebar.jsx:243 | in a list without repeats, at most one link matches the path |
| Sidebar.AllLinksDistinct | client/src/components/Sidebar.jsx:115-197 | the 30 link targets of the menu are pairwise different |
| Sidebar.AtMostOneActive | client/src/components/Sidebar.jsx:115-197 | whatever the current path, at most one link of the menu is highlighted |

## Left out

- HTTP, axios and MySQL plumbing: a request is modelled as its outcome (rows, or a failure with an optional message), and the `onUpdate`/`onSuccess` callbacks, toasts and URL differences are not modelled.
- `GET /anggota` sending a second response after an error (server/server.js:31-32) is left out, because it concerns the transport and not the data.
- The five-second timeout that switches the members table to dummy data, and the non-array response shapes (UsersTable.jsx:35-76), are left out: they are timer and transport behaviour.
- The sidebar's hover delays (100, 200 and 300 ms) are modelled as their eventual effect. Re-entering the flyout, which cancels a pending leave, is not an event. The flyout position and the scroll-into-view effect are layout.
- Tenure.PeriodLabel: JavaScript `Date` parsing and time zones are not modelled. The browser's reading of the text is a parameter giving a (year, month, day) date or nothing. Only the year arithmetic of the label is kept; a 29 February rollover still lands in the next year. The "Tanggal Selesai" end-date text is left out.
- Records.FormatDate: the Indonesian long date rendering is a parameter, shared by the two detail dialogs (DetailUsersModal.jsx:33-44 and DetailAnggotaModal.jsx:75-86). The `try/catch` fallback cannot fire in JavaScript, so it is not modelled.
- DetailAnggota.DateInput: the `YYYY-MM-DD` reading of `toISOString` is a parameter; its `None` stands for the thrown `RangeError` on an invalid date.
- DetailAnggota.ValidatedStartHasYearSpan: the validator's date test and the label's date reader are separate parameters. Both are `new Date` in the source, so the lemma requires that they agree.
- Text.Lower: only ASCII letters are lower-cased. The full Unicode `toLowerCase` is outside the model.
- Locations.CityOptions: JavaScript's `sort()` compares UTF-16 code units, while the model compares characters. They agree on the basic multilingual plane. The contents of the city-to-province table are not part of this model.
- DonutChart.Tally: JavaScript lists integer-like object keys before other keys, and the model keeps plain insertion order. Division names are assumed not to be integer-like.
- DonutChart.Tally: the counts live in a plain `{}`, which inherits `Object.prototype`. A division named "constructor", "toString" or "valueOf" starts from the inherited function, so its count becomes a string, and "__proto__" is never listed. The model counts every name alike, as if the object had no prototype.
- Stats.Aggregate: the MySQL driver returns `SUM` as a DECIMAL string, and the model gives a natural number. The database collation is a parameter.
- Percent labels of the donut chart use floating point and are left out, as are animations and styling.
- The page shells (App, UsersPage, OverviewPage), the top-level `src/` variant of the sidebar, and the select option lists are outside this model.
- Save and submit buttons being disabled while a request is in flight is not modelled. The model has no concurrent clicks.
- UsersTable.Next: the Next button is enabled on an empty result (`currentPage === totalPages` is false when `totalPages` is 0). This is modelled as written, leading to empty pages.
