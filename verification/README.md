# HRIS console core, modelled in Dafny

This project models the sequential logic inside an HR admin console: the employee
directory, the attendance tracker, the leave-requests page, the add and edit employee
dialogs, and the serverless handler that emails leave decisions. Each piece is a pure
function over immutable datatypes. The properties the components promise are proved
as contracts and lemmas.

Modules, one per component:

- `EmployeeList`: search and filters, badge colour, appending a new employee, empty state.
- `Attendance`: status select, per-status tallies, percentage cards, status icon and badge.
- `LeaveRequests`: status tallies, approved-leave calendar highlights, recent-requests panel.
- `AddEmployee`: field edits, required-field gate, new record with defaults, form reset.
- `EditEmployee`: prefill from a stored row, field edits, gate, the update it issues.
- `LeaveNotification`: subject and HTML body, and the handler's control flow.

Shared helpers:

- `Values`: `Option`, and `s || ""` on optional strings.
- `Seqs`: `filter`, `filter(..).length`, subsequence.
- `Text`: ASCII case mapping, `includes`, `split(' ')`/`join(' ')`, initials, integer `toString`.
- `Forms`: the six-field required gate, toasts, and the outcome of `parseFloat`.

Things the model takes as parameters:

- Calendar dates on the leave page are integer day numbers.
- `Date.now()` (the new employee's id) is a parameter.
- `parseFloat` is an abstract `string -> Parsed` (`NaN` or a number).
- `toLocaleDateString` is an abstract `string -> string`.
- The store lookup is `string -> Option<LeaveRow>`.
- The email send is `Email -> SendResult`.
- Whether the store rejects an employee update is a boolean.

Behaviour of the code that the model keeps as written:

- An empty salary becomes `0` in the add dialog (src/components/AddEmployeeDialog.tsx:65).
  The edit dialog sends `null` for it (src/components/EditEmployeeDialog.tsx:121). There is
  no shared sentinel (`EditEmployee.EmptySalarySentinels`).
- The edit dialog's `salary: null` is outside the generated store type for updates, which
  declares `salary` as an optional non-null number (src/integrations/supabase/types.ts:296).
- When the filtered attendance list is empty, each card divides 0 by 0 and shows `NaN`
  (src/components/AttendanceTracker.tsx:142). There is no fallback; `Attendance.PercentOfTotal`
  returns `None` there. In the component as written this cannot happen: `attendanceData` is a
  constant list holding all four statuses (src/components/AttendanceTracker.tsx:21-76), and the
  select offers only those four statuses and "all" (lines 196-200), so the filtered list is
  never empty.
- The handler answers 200 with `success: true` whenever the send returns, with or without a
  message id; only a thrown exception gives 500
  (supabase/functions/send-leave-notification/index.ts:92-111).
- The subject and heading say "Rejected" for any action other than `'approved'`
  (supabase/functions/send-leave-notification/index.ts:54-57). The rejection-reason section
  needs the action to be exactly `'rejected'` (same file, line 72).
- Both dialogs require first name, last name, email, department, position and hire date
  (src/components/AddEmployeeDialog.tsx:45, src/components/EditEmployeeDialog.tsx:102).
- The directory's status labels are `Active`, `Inactive` and `On Leave`
  (src/components/EmployeeList.tsx:19). The edit dialog's status select writes the
  lower-case values `active`, `inactive` and `on leave` instead
  (src/components/EditEmployeeDialog.tsx:246-248). The model keeps both as written.
- The add dialog renders no hire-date input, so it never adds anyone; see "## Findings".

## Model

| member | source | states |
|---|---|---|
| Seqs.Filter | src/components/EmployeeList.tsx:101 | the kept elements are exactly the input's elements that satisfy the predicate, never more than the input |
| Seqs.FilterMultiplicity | src/components/EmployeeList.tsx:101 | every copy of a kept value survives and no copy of a rejected value does: the result's multiset is the input's restricted to the predicate |
| Seqs.CountIsIndexCount | src/pages/LeaveRequestsPage.tsx:64-70 | `filter(p).length` equals the number of positions whose element satisfies `p` |
| Text.ContainsIffOccurs | src/components/EmployeeList.tsx:102-104 | the `includes` scan succeeds exactly when the needle occurs at some index of the haystack |
| EmployeeList.Visible | src/components/EmployeeList.tsx:101-110 | an employee is shown iff the search, the department select and the status select all match, with every copy of a matching entry kept |
| EmployeeList.VisibleIsSubsequence | src/components/EmployeeList.tsx:101 | the shown employees are a subsequence of the list: order kept, nothing invented |
| EmployeeList.DepartmentFilterIsExact | src/components/EmployeeList.tsx:106 | a department select other than "all" shows only that exact department, whatever the search term |
| EmployeeList.StatusFilterIsExact | src/components/EmployeeList.tsx:107 | a status select other than "all" shows exactly the matching employees with that status label |
| EmployeeList.InitialCriteriaShowAll | src/components/EmployeeList.tsx:96-110 | with an empty search and both selects on "all", every employee is shown, in order |
| EmployeeList.EmptySearchMatchesAll | src/components/EmployeeList.tsx:102-104 | an empty search term matches every employee |
| EmployeeList.SearchIgnoresCase | src/components/EmployeeList.tsx:102-104 | for ASCII letters, upper-casing the search term does not change which employees are shown |
| EmployeeList.AddEmployee | src/components/EmployeeList.tsx:112-114 | adding grows the list by one; the old elements stay unchanged and in order, and the new one is last |
| EmployeeList.VisibleAfterAdd | src/components/EmployeeList.tsx:112-114 | after an add, the shown list is the old shown list plus the new employee iff it matches |
| EmployeeList.EmptyStateIffNoMatch | src/components/EmployeeList.tsx:247-253 | "No employees found" is shown iff no employee matches the criteria |
| EmployeeList.StatusColor | src/components/EmployeeList.tsx:116-123 | each of the three status labels gets its own badge class; every other string gets grey |
| Text.Split | src/components/EmployeeList.tsx:126 | `split(' ')` gives one more word than there are spaces, no word holds a space, and joining with spaces gives the name back |
| Text.Initials | src/components/EmployeeList.tsx:125-127 | the initials hold no more letters than the name has words, and none is lower-case |
| Text.FirstLettersSkipEmpty | src/components/EmployeeList.tsx:126 | `map(n => n[0]).join('')` yields one first letter per non-empty word, in order; empty words (undefined) add nothing |
| Text.InitialsOfNonEmptyWords | src/components/AttendanceTracker.tsx:107-109 | for any name, doubled, leading or trailing spaces included, the initials are the upper-cased first letters of its non-empty words, in order |
| Text.InitialsPerWord | src/components/AttendanceTracker.tsx:107-109 | when no word is empty, there is exactly one initial per word: the upper-cased first letter, in word order |
| Attendance.FilterByStatus | src/components/AttendanceTracker.tsx:82-85 | a select other than "all" keeps exactly the records with that status label, every copy of each |
| Attendance.FilterAllKeepsEverything | src/components/AttendanceTracker.tsx:82-85 | the "all" select returns the full list unchanged |
| Attendance.FilterSelectsInOrder | src/components/AttendanceTracker.tsx:82-85 | the filtered records are a subsequence of the input, each carrying the selected label |
| Attendance.StatsOf | src/components/AttendanceTracker.tsx:111-117 | `attendanceStats`: `total` is the number of listed records, and each of the four tallies equals the number of listed records carrying that status |
| Attendance.TalliesSumToTotal | src/components/AttendanceTracker.tsx:111-116 | the four tallies sum to `total`, since every record has one of the four statuses |
| Attendance.SpecificFilterTallies | src/components/AttendanceTracker.tsx:111-115 | under a specific status select, that status's tally equals `total` and every other tally is zero |
| Attendance.PercentOfTotal | src/components/AttendanceTracker.tsx:142 | the card percentage times the total equals 100 times the tally; it is undefined (the source's NaN) exactly when the total is zero |
| Attendance.PercentInRange | src/components/AttendanceTracker.tsx:154 | a tally no larger than a positive total is between 0% and 100% |
| Attendance.PercentagesSumTo100 | src/components/AttendanceTracker.tsx:142-178 | with at least one listed record, the four unrounded percentages add up to exactly 100 |
| Attendance.StatusColor | src/components/AttendanceTracker.tsx:97-105 | each of the four status labels gets its own badge class; every other string gets grey |
| Attendance.StatusIcon | src/components/AttendanceTracker.tsx:87-95 | each of the four status labels gets its own icon and colour; every other string gets a grey clock |
| LeaveRequests.CountsOf | src/pages/LeaveRequestsPage.tsx:64-70 | `getStatusCounts`: pending, approved and declined each equal the number of rows whose status is exactly 'pending', 'approved' or 'rejected' |
| LeaveRequests.CountsCoverKnownStatuses | src/pages/LeaveRequestsPage.tsx:64-70 | the three tallies sum to at most the row count, with equality iff every row is 'pending', 'approved' or 'rejected' |
| LeaveRequests.LeaveDays | src/pages/LeaveRequestsPage.tsx:82-85 | one request expands to start, start+1, ..., end: end-start+1 days, or none when start > end |
| LeaveRequests.LeaveDaysExact | src/pages/LeaveRequestsPage.tsx:82-85 | a day is in the expansion iff it lies in [start, end], and the expansion is strictly increasing |
| LeaveRequests.LeaveDaysMultiplicity | src/pages/LeaveRequestsPage.tsx:82-85 | each covered day occurs exactly once in one request's expansion |
| LeaveRequests.ExpandAllLength | src/pages/LeaveRequestsPage.tsx:77-86 | the flattened list's length is the sum of the per-request day counts |
| LeaveRequests.HighlightMultiplicity | src/pages/LeaveRequestsPage.tsx:75-86 | `approvedLeaveDates` (`ApprovedLeaveDates`): a day occurs in the highlights once per approved request covering it; other statuses add nothing, and overlaps keep duplicates |
| LeaveRequests.HighlightedIffCovered | src/pages/LeaveRequestsPage.tsx:75-86 | a day is highlighted iff some approved request's range contains it |
| LeaveRequests.Recent | src/pages/LeaveRequestsPage.tsx:229 | the panel shows a prefix of the rows of length min(5, n) |
| LeaveRequests.RecentAreNewest | src/pages/LeaveRequestsPage.tsx:48 | on rows fetched newest-first, no row left out of the panel is newer than a row shown |
| AddEmployee.SetField | src/components/AddEmployeeDialog.tsx:37-39 | a field edit sets exactly the named field and leaves every other field unchanged |
| AddEmployee.NewRecordFields | src/components/AddEmployeeDialog.tsx:55-72 | the `newEmployee` object (`NewRecord`): name is first + " " + last, and joinDate = hireDate = the entered date; empty phone and location get their defaults, and non-empty values are kept; status is Active; an empty or unparsable salary becomes 0, a parsed one is kept |
| AddEmployee.Submit | src/components/AddEmployeeDialog.tsx:41-100 | a record is emitted iff all six required fields are non-empty, and it is the record built from the form (see NewRecordFields); on refusal the dialog is unchanged with a validation toast; on success the form is reset and the dialog closed |
| AddEmployee.ResubmitIsRefused | src/components/AddEmployeeDialog.tsx:76-94 | after a successful submit every field reads "", so an immediate second submit emits nothing |
| AddEmployee.ApplyEdits | src/components/AddEmployeeDialog.tsx:37-39 | after a sequence of field edits, a field no edit named keeps its value, and a named field holds the value of the last edit naming it |
| AddEmployee.RenderedDialogNeverAdds | src/components/AddEmployeeDialog.tsx:45 | whatever is typed into the eight rendered inputs, the hire date stays "" and every submission is refused with the validation toast |
| AddEmployee.HireDateInputEnablesAdd | src/components/AddEmployeeDialog.tsx:45-64 | for any draft holding the five other required fields, entering a hire date makes submitting add the employee with that join date and reset the dialog |
| AddEmployee.AddedEmployeeIsListedLast | src/components/AddEmployeeDialog.tsx:74 | the emitted record lands last in the directory, and it is shown under a matching search/department with status "all" or "Active" |
| AddEmployee.AddedEmployeeInitials | src/components/AddEmployeeDialog.tsx:57 | space-free first and last names give the new card the two upper-cased first letters as initials |
| EditEmployee.Prefill | src/components/EditEmployeeDialog.tsx:68-93 | every field is copied from the row, absent columns become "", and salary becomes its numeral or "" when absent |
| EditEmployee.PrefilledSalaryReadsBack | src/components/EditEmployeeDialog.tsx:77 | a stored salary, 0 included, prefills as a non-empty numeral that reads back as the same amount |
| EditEmployee.SetField | src/components/EditEmployeeDialog.tsx:95-97 | a field edit sets exactly the named field and leaves every other field unchanged |
| EditEmployee.Payload | src/components/EditEmployeeDialog.tsx:114-135 | every non-salary column equals its form field verbatim; salary is null iff the field is empty, otherwise the parse result |
| EditEmployee.Submit | src/components/EditEmployeeDialog.tsx:99-155 | an update is issued iff the six required fields are non-empty, and it targets only the employee's id; its columns are the form's fields and its salary is null iff the salary field is empty, otherwise the parse result; the callback and the close happen iff the store accepts; the draft is never cleared |
| EditEmployee.PrefillThenSaveWritesBack | src/components/EditEmployeeDialog.tsx:70-136 | when `parseFloat` reads decimal integer numerals as their value, saving an unedited prefilled form writes every text column back as stored, absent ones (a null status included) as "", and the salary unchanged (null if absent) |
| EditEmployee.EmptySalarySentinels | src/components/EditEmployeeDialog.tsx:121 | an empty salary is 0 in the add dialog's record but null in the edit dialog's update |
| LeaveNotification.Subject | supabase/functions/send-leave-notification/index.ts:54 | "Leave Request Approved" iff the action is 'approved', otherwise "Leave Request Rejected" |
| LeaveNotification.ReasonText | supabase/functions/send-leave-notification/index.ts:68 | the reason line reads "Not specified" when the reason is null or empty, and the stored reason as written otherwise |
| LeaveNotification.Body | supabase/functions/send-leave-notification/index.ts:56-82 | the heading equals the subject; the greeting names the employee and the next paragraph echoes the action as given; the details list is always present; the rejection section appears iff the action is 'rejected' with a non-empty reason; the closing comes last |
| LeaveNotification.BodyListsDetails | supabase/functions/send-leave-notification/index.ts:62-69 | the HTML always contains the leave type, both formatted dates, the day count and the reason text |
| LeaveNotification.RejectionReasonIsQuoted | supabase/functions/send-leave-notification/index.ts:72-77 | a rejection with a non-empty reason contains that reason in the HTML |
| LeaveNotification.Handle | supabase/functions/send-leave-notification/index.ts:17-113 | OPTIONS returns without lookup or send; an unreadable body gives 500 with its message and no lookup; otherwise there is one lookup; a missing row gives 500 with no send; a found row gives exactly one email to the employee's address with the computed subject and the rendered body; 200 with success unless the send throws |
| LeaveNotification.RejectedEmailQuotesReason | supabase/functions/send-leave-notification/index.ts:72-89 | invoking the handler with action 'rejected' and a non-empty reason sends exactly one email, and its HTML contains that reason |

## Left out

- Text.Initials: upper-casing covers ASCII letters only. JavaScript's full Unicode mapping can change a string's length (for example `ß` becomes `SS`), and that is not modelled. A `char` here is a whole Unicode character where JavaScript's `n[0]` is a UTF-16 code unit, so a word starting outside the Basic Multilingual Plane (an emoji, say) gives its whole character here but a lone high surrogate in the browser.
- EmployeeList.Visible: the search's case folding covers ASCII letters only. JavaScript's `toLowerCase` folds all of Unicode.
- EmployeeList.SearchIgnoresCase: holds for the ASCII-only case mapping here. JavaScript upper-cases `ß` to `SS`, so for an employee named "Anna Strauß" the term "ß" shows her while the upper-cased term "SS", searched as "ss", does not.
- Attendance.PercentagesSumTo100: the sum is exact for the unrounded shares only. The card texts are rounded by `toFixed(1)`, and they can add up to 99.9 (tallies 1, 1, 1, 0) or 100.1 (tallies 1, 1, 1, 3).
- Attendance.PercentOfTotal: the result is an exact rational. The card's floating-point division and its `toFixed(1)` rounding are not modelled.
- AddEmployee.NewRecordFields: salaries are whole numbers. `parseFloat` is an abstract parser to whole amounts, and fractional salaries are not modelled.
- Text.Show: it is `toString` for integers only. The exponent notation JavaScript uses at 1e21 and above is not modelled.
- Date semantics: the leave range loop's `new Date(...)`/`setDate` parsing and time zones are not modelled, including daylight-saving shifts. Days are integers. `toLocaleDateString` and date-fns `format` are abstract.
- LeaveRequests.RecentAreNewest: `created_at` is a nullable column (src/integrations/supabase/types.ts:360), and the database's descending order puts null timestamps first (src/pages/LeaveRequestsPage.tsx:48). Timestamps here are integers, so null timestamps are not modelled.
- Data fetching: the leave page's query, loading state and error toast are left out (src/pages/LeaveRequestsPage.tsx:37-62, 119-125). Also left out: the Supabase update call, `createClient`, `Deno.env`, CORS headers and console logging. The fetched rows and the store's answer are inputs.
- Email provider: the Resend client is abstract. Whether a provider-side failure returns or throws is decided by a library outside this model. `SendResult` covers both cases.
- Email markup whitespace: the body is a sequence of HTML blocks. The template's indentation and newlines between tags are not modelled. There is no HTML escaping, as in the source.
- EditEmployee.Payload: a non-empty salary that `parseFloat` cannot read is sent as `Some(NaN)`. JSON serialisation would turn that `NaN` into `null` on the wire, and that step is not modelled.
- Browser form validation: the add dialog's inputs carry native `required` and `type="email"` attributes (src/components/AddEmployeeDialog.tsx:124-185). The edit dialog's do too: `required` on first name, last name, email, position and hire date, `type="email"` on the email and `type="date"` on the hire date (src/components/EditEmployeeDialog.tsx:181-290). The browser checks these before `handleSubmit` runs, and that check is not modelled. Each `Submit` is its handler's own gate; in a browser the edit dialog's validation toast can then only fire for an empty department.
- Toast texts: a toast is modelled by its kind (validation error, success, failure) only.
- The leave status lifecycle (pending to approved or rejected, triggering the email): no code among the modelled components performs that transition, so it is not modelled.
- Presentation-only code: Reports, Settings, Dashboard, sidebar and routing. These hold mock data, simulated saves and markup with no logic to state. Also the attendance check-in text and the hard-coded initial lists.

## Findings

| source | as written | input that shows it | evidently intended | confidence | as-written member | corrected member |
|---|---|---|---|---|---|---|
| src/components/AddEmployeeDialog.tsx:45 | the gate requires `hireDate`, but the dialog renders inputs only for first name, last name, email, phone, department, position, location and salary (lines 115-209), so `hireDate` stays `""` | fill all eight inputs, e.g. "Ana", "Cruz", "ana@x.io", "", "HR", "Clerk", "", "", then submit: a validation toast, no employee added | a hire-date input feeding `handleInputChange("hireDate", ...)`, after which a complete form adds the employee with that join date | high, not executed | AddEmployee.RenderedDialogNeverAdds | AddEmployee.HireDateInputEnablesAdd |
