# FaceIDAttendance: a verified model of its view logic

FaceIDAttendance is a browser interface for employee attendance. It runs on mock
in-memory data. It has a login page, employee management, attendance listings and a
simulated face capture that uses the device camera. This project models the
sequential logic inside those pages in Dafny and proves what that logic promises:

- **Employee store** (`employee_store.dfy`): the list of employee records and its three
  actions. Append, partial-merge update and delete-by-id are functions on `seq<Employee>`.
- **Attendance table** (`attendance_table.dfy`): the search filter, a stable comparator
  sort of the filtered copy, the two-variable sort state that a header click updates,
  and the sort-icon choice.
- **Attendance records page** (`attendance_records.dfy`): the eight mock records and the
  optional exact-date filter.
- **Camera capture session** (`face_scanner.dfy`): a class whose fields are the
  component's state (`isStreamActive`, `faceDetected`, `countdown`, `cameraError`,
  `animationClass`) plus the attached stream. It has one method per event: device
  request settled, detection timer fired, stop, capture, countdown tick, flash cleared,
  toggle click. Tracks are objects stopped in place by a loop.
- **Employee management page** (`employee_management.dfy`): the search filter, the add
  form with its validation order, the face capture filling the form, the edit loader and
  delete. It is a class over the page's state that reuses the store's list operations.
- **Route guard** (`protected_route.dfy`) and **status card** (`status_card.dfy`): pure
  decision functions.
- **Login, employee dashboard, admin face-scan page** (`login.dfy`,
  `employee_dashboard.dfy`, `face_scan_page.dfy`): small state machines. Each awaited
  call and each `setTimeout` continuation is an explicit event.

Helper modules: `Wrappers` (Option), `Text` (ASCII lower-casing, `includes`, the string
`<` order and its order laws) and `Seqs` (`filter` and the subsequence relation).

Modelling conventions:

- Timers are explicit. A page keeps the timers that have been scheduled and have not
  fired yet. This is a count, or a queue holding the values the callback captured. A
  timer event requires that such a timer exists.
- Values that come from outside are parameters:
  - how `getUserMedia` settles;
  - whether the canvas yields a 2D context;
  - the encoded image;
  - `Date.now().toString()`;
  - the formatted time;
  - the result of `login`;
  - each `Math.random()` draw, a real in [0, 1).

Four behaviours of the camera component that a reader might not expect:

- `startVideo` has no "already active" guard. A second grant replaces the attached stream
  without stopping the old stream's tracks (`FaceScanner.Scanner.StartVideo`).
- `stopVideo` does not clear the countdown and does not cancel the detection timer. A
  detection timer that fires after a stop still sets `faceDetected`, and with
  auto-capture it restarts the countdown. The capture the countdown ends in then finds no
  active stream and hands nothing to `onCapture` (`FaceScanner.StopDuringCountdown`).
- `capturePhoto` checks only the mounted elements and `isStreamActive`. It does not check
  `faceDetected`; that flag only disables the manual button
  (`FaceScanner.Scanner.ManualCaptureButton`).
- There is no single status value (Idle/Starting/Active/Error). The component keeps
  independent flags and an error string. A failed request leaves `isStreamActive` as it
  was.

## Model

| member | source | states |
|---|---|---|
| `EmployeeStore.InitialStore` | src/stores/employeeStore.ts:20-53 | the seeded store holds four employees whose ids are 2, 3, 4, 5, all distinct |
| `EmployeeStore.Add` | src/stores/employeeStore.ts:54-57 | the list grows by one, the earlier entries are unchanged and the new one is last |
| `EmployeeStore.Update` | src/stores/employeeStore.ts:58-63 | length preserved; an entry with another id is unchanged at its position; an entry with the id is the partial merged over it |
| `EmployeeStore.Merge` | src/stores/employeeStore.ts:61 | merging an empty partial keeps the employee; a partial without an id keeps the id; a partial with every property replaces the whole record |
| `EmployeeStore.UpdateMatchingEntry` | src/stores/employeeStore.ts:61 | in a matching entry each property present in the partial takes its value and each absent one keeps the old value |
| `EmployeeStore.UpdateAbsentIsIdentity` | src/stores/employeeStore.ts:58-63 | updating an id that no entry has leaves the list as it was |
| `EmployeeStore.UpdateEmptyPartialIsIdentity` | src/stores/employeeStore.ts:58-63 | an update with no properties leaves the list as it was |
| `EmployeeStore.Delete` | src/stores/employeeStore.ts:64-67 | no entry with the id remains; every other entry is kept as often as before and in its original relative order (subsequence) |
| `EmployeeStore.DeleteIdempotent` | src/stores/employeeStore.ts:64-67 | deleting the same id twice equals deleting it once |
| `EmployeeStore.DeleteAbsentIsIdentity` | src/stores/employeeStore.ts:64-67 | deleting an id that no entry has leaves the list as it was |
| `EmployeeStore.AddThenDeleteRestores` | src/stores/employeeStore.ts:54-67 | adding an employee with a fresh id and deleting that id restores the original list |
| `Seqs.Filter` | src/stores/employeeStore.ts:66 | `filter` keeps exactly the elements satisfying the predicate and never lengthens the list |
| `Seqs.FilterCounts` | src/stores/employeeStore.ts:66 | `filter` keeps every occurrence of a kept value and none of a dropped value |
| `Seqs.FilterIsSubsequence` | src/stores/employeeStore.ts:66 | `filter` keeps the surviving elements in their original relative order |
| `Seqs.FilterIdempotent` | src/pages/admin/AttendanceRecords.tsx:91 | filtering twice by the same predicate equals filtering once |
| `Text.Lower` | src/components/AttendanceTable.tsx:34 | `toLowerCase` keeps the length and lower-cases each character on its own |
| `Text.Contains` | src/components/AttendanceTable.tsx:34-36 | a term longer than the string is never included |
| `Text.ContainsIffOccurs` | src/components/AttendanceTable.tsx:34-36 | `includes` holds exactly when some position of the string starts a copy of the term |
| `Text.StrLess` | src/components/AttendanceTable.tsx:40-41 | no string is below itself, and a proper prefix is below the longer string |
| `Text.StrLessTotal` | src/components/AttendanceTable.tsx:40-41 | two strings are equal or ordered one way or the other by `<` |
| `Text.StrLessTransitive` | src/components/AttendanceTable.tsx:40-41 | the string `<` order is transitive |
| `AttendanceTable.FieldValue` | src/components/AttendanceTable.tsx:4-13 | every property except `timeOut` and `department` is always defined |
| `AttendanceTable.Compare` | src/components/AttendanceTable.tsx:39-43 | the comparator returns -1, 0 or 1, and 0 exactly when neither value is below the other |
| `AttendanceTable.CompareAntisymmetric` | src/components/AttendanceTable.tsx:39-43 | swapping the two records negates the comparator's result |
| `AttendanceTable.PrecedesMeaning` | src/components/AttendanceTable.tsx:39-43 | the comparator puts `a` strictly first iff its value is smaller (ascending) or larger (descending); comparisons with `undefined` never order |
| `AttendanceTable.PrecedesTransitive` | src/components/AttendanceTable.tsx:39-43 | strict precedence under the comparator is transitive, for every column |
| `AttendanceTable.Insert` | src/components/AttendanceTable.tsx:39 | an insertion step adds exactly the one record (multiset) |
| `AttendanceTable.InsertSorted` | src/components/AttendanceTable.tsx:39-43 | inserting into a sorted sequence keeps it sorted |
| `AttendanceTable.Sort` | src/components/AttendanceTable.tsx:39-43 | the sort is a permutation of its input and no record follows one it strictly precedes |
| `AttendanceTable.FilteredRecords` | src/components/AttendanceTable.tsx:33-37 | a record passes iff its lowercased name includes the lowercased term, or its date includes the raw term, or it has a non-empty department whose lowercase includes the lowercased term; each passing record is kept as often as it occurs, in order |
| `AttendanceTable.EmptySearchKeepsAll` | src/components/AttendanceTable.tsx:33-37 | the empty search term keeps every record in order |
| `AttendanceTable.SortedRecords` | src/components/AttendanceTable.tsx:39-43 | the rows are a permutation of the filtered records, sorted by the current column and direction |
| `AttendanceTable.SortedByValue` | src/components/AttendanceTable.tsx:40-42 | on an always-defined column ascending gives non-decreasing values and descending non-increasing values |
| `AttendanceTable.NextSort` | src/components/AttendanceTable.tsx:24-31 | a click selects the clicked column; on the current column the direction flips, on another it becomes ascending |
| `AttendanceTable.TwoClicks` | src/components/AttendanceTable.tsx:25-26 | two clicks on the current column restore the sort state; two on a new column leave it descending |
| `AttendanceTable.SortIconFor` | src/components/AttendanceTable.tsx:71-74 | an icon is shown only on the sorted column, up iff ascending |
| `AttendanceTable.TableView.constructor` | src/components/AttendanceTable.tsx:20-22 | the table starts with an empty search, sorted by date descending |
| `AttendanceTable.TableView.HandleSort` | src/components/AttendanceTable.tsx:24-31 | the sort state becomes `NextSort` of the old one; the search term is untouched |
| `AttendanceTable.TableView.SetSearchTerm` | src/components/AttendanceTable.tsx:86 | typing changes the search term and not the sort state |
| `AttendanceTable.TableView.Rows` | src/components/AttendanceTable.tsx:33-43 | the rows shown are a sorted permutation of the records matching the current term |
| `AttendanceRecords.ByDate` | src/pages/admin/AttendanceRecords.tsx:90-92 | an empty filter yields the records unchanged; a non-empty one exactly the records on that date, in order (subsequence) |
| `AttendanceRecords.ByDateCounts` | src/pages/admin/AttendanceRecords.tsx:90-91 | a non-empty filter keeps each record on the date as often as it occurs and drops the others |
| `AttendanceRecords.ByDateIdempotent` | src/pages/admin/AttendanceRecords.tsx:90-92 | filtering twice by a date equals filtering once |
| `AttendanceRecords.PageRecords` | src/pages/admin/AttendanceRecords.tsx:90-92 | the page's rows are always a subsequence of the mock list, all of it without a filter |
| `AttendanceRecords.MockIds` | src/pages/admin/AttendanceRecords.tsx:6-85 | the eight mock records carry the distinct ids 1 to 8 in order |
| `AttendanceRecords.AbsentRecordsHaveNoTimes` | src/pages/admin/AttendanceRecords.tsx:27-84 | every absent mock record has time in `-` and no time out |
| `AttendanceRecords.FilterOnMockDay` | src/pages/admin/AttendanceRecords.tsx:6-92 | all mock records fall on 2025-04-24, so filtering on that day keeps them all |
| `FaceScanner.Scanner.constructor` | src/components/FaceScanner.tsx:17-21 | initial state: no stream, not active, no error, no countdown, no face, no animation |
| `FaceScanner.Scanner.StartVideo` | src/components/FaceScanner.tsx:24-53 | a grant with the video mounted attaches the stream, sets active, clears the error and schedules detection; a failure sets the permission message and leaves activity unchanged |
| `FaceScanner.Scanner.DetectionFired` | src/components/FaceScanner.tsx:40-47 | detection sets `faceDetected` and the pulse, and the countdown to 3 exactly when auto-capture is on |
| `FaceScanner.Scanner.StartCountdown` | src/components/FaceScanner.tsx:93-95 | the countdown becomes 3 |
| `FaceScanner.Scanner.StopVideo` | src/components/FaceScanner.tsx:55-66 | with a stream every track is stopped, the stream detached and active/detected/animation cleared; without one nothing changes; countdown and timers are left alone |
| `FaceScanner.Scanner.CapturePhoto` | src/components/FaceScanner.tsx:68-91 | `onCapture` receives the image once when video, canvas, active stream and context are all there, and never without an active stream |
| `FaceScanner.Scanner.FlashCleared` | src/components/FaceScanner.tsx:89 | the flash timer clears the animation class |
| `FaceScanner.Scanner.Tick` | src/components/FaceScanner.tsx:98-111 | a tick above 1 only decrements the countdown and leaves the captures, flash and canvas alone; the tick reaching 0 clears the countdown and makes one capture attempt, with the same image, flash and canvas outcomes as a capture; the countdown stays within 1..3 |
| `FaceScanner.Scanner.ManualCaptureButton` | src/components/FaceScanner.tsx:158-161 | no manual button with auto-capture; otherwise enabled iff the stream is active and a face detected |
| `FaceScanner.Scanner.Toggle` | src/components/FaceScanner.tsx:176-179 | the toggle stops an active stream and starts an inactive one |
| `FaceScanner.Scanner.ToggleClicked` | src/components/FaceScanner.tsx:176 | on an active stream every old track is stopped and the stream, detection and animation are cleared; on an inactive one a grant attaches the stream and schedules detection, and a denial sets the permission message and changes nothing else; captures, countdown and canvas never change |
| `FaceScanner.AutoCaptureAfterThreeTicks` | src/components/FaceScanner.tsx:93-111 | on the trace mount with auto-capture, grant, detection, three ticks: nothing is captured before the third tick and exactly one image on it |
| `FaceScanner.StopDuringCountdown` | src/components/FaceScanner.tsx:55-111 | on the trace grant, detection, one tick, stop, two ticks: the tracks are stopped, the countdown still runs out and nothing reaches `onCapture` |
| `FaceScanner.RetryAfterDenial` | src/components/FaceScanner.tsx:34-52 | on the trace denial, then grant: the denial shows the permission message and the grant clears it and activates the stream |
| `FaceScanner.StopTwice` | src/components/FaceScanner.tsx:55-66 | on the trace grant, detection, stop, stop: the stream ends inactive and undetected, as after one stop |
| `FaceScanner.CaptureWithoutStream` | src/components/FaceScanner.tsx:69 | on the trace mount, capture without a grant: nothing reaches `onCapture` |
| `EmployeeManagement.SetInput` | src/pages/admin/EmployeeManagement.tsx:64-67 | an input change sets that form field to the value and leaves every other field, the image included, as it was |
| `EmployeeManagement.FilteredEmployees` | src/pages/admin/EmployeeManagement.tsx:56-62 | an employee is shown iff the lowercased term occurs in its lowercased name, email, department or position; each shown employee is kept as often as it occurs, in order |
| `EmployeeManagement.EmptySearchShowsAll` | src/pages/admin/EmployeeManagement.tsx:56-62 | the empty search shows every employee in order |
| `EmployeeManagement.Validate` | src/pages/admin/EmployeeManagement.tsx:70-78 | name and email are checked first, then the face image; adding happens iff all three are non-empty |
| `EmployeeManagement.WithId` | src/pages/admin/EmployeeManagement.tsx:80-83 | the new record is the form's five fields plus the given id |
| `EmployeeManagement.FormOf` | src/pages/admin/EmployeeManagement.tsx:111-117 | loading an employee into the form and adding its id back gives that employee |
| `EmployeeManagement.FindById` | src/pages/admin/EmployeeManagement.tsx:105 | `find` returns the first employee with the id, and nothing iff none has it |
| `EmployeeManagement.EmployeeManagementPage.constructor` | src/pages/admin/EmployeeManagement.tsx:44-54 | the page starts with the four seeded employees, an empty search and an empty closed form. The page declares its own copy of the seed list, equal in value to the store's; the two lists are separate and never shared |
| `EmployeeManagement.EmployeeManagementPage.Shown` | src/pages/admin/EmployeeManagement.tsx:56-62 | the shown employees are exactly those matching the current search, each as often as in the list and in list order |
| `EmployeeManagement.EmployeeManagementPage.SetSearchTerm` | src/pages/admin/EmployeeManagement.tsx:152 | typing in the search box changes only the search term |
| `EmployeeManagement.EmployeeManagementPage.HandleInputChange` | src/pages/admin/EmployeeManagement.tsx:64-67 | exactly the named input of the form changes |
| `EmployeeManagement.EmployeeManagementPage.HandleAddEmployee` | src/pages/admin/EmployeeManagement.tsx:69-97 | an invalid form changes nothing; a valid one appends the form under the new id, clears the form and closes the panel and scanner |
| `EmployeeManagement.EmployeeManagementPage.HandleFaceCapture` | src/pages/admin/EmployeeManagement.tsx:99-102 | only the form's image changes, and the scanner is hidden |
| `EmployeeManagement.EmployeeManagementPage.HandleEditEmployee` | src/pages/admin/EmployeeManagement.tsx:104-119 | the list never changes; an unknown id changes nothing; a known id loads the first such employee's five fields and opens the panel |
| `EmployeeManagement.EmployeeManagementPage.HandleDeleteEmployee` | src/pages/admin/EmployeeManagement.tsx:131-134 | the list becomes the store's delete of the id, so no employee with it remains |
| `EmployeeManagement.AddThenDeleteOnPage` | src/pages/admin/EmployeeManagement.tsx:69-134 | filling the form, adding under a fresh id and deleting that id gives back the seeded list |
| `ProtectedRoute.Guard` | src/components/ProtectedRoute.tsx:13-31 | spinner while loading whatever else holds; else login redirect when unauthenticated; else the user's home when the role mismatches; else the children |
| `ProtectedRoute.ChildrenOnlyWhenAllowed` | src/components/ProtectedRoute.tsx:13-31 | the children are rendered iff loading is over, the user is authenticated and no role is required or the role matches |
| `ProtectedRoute.RedirectTargets` | src/components/ProtectedRoute.tsx:21-29 | every redirect goes to /login, /admin or /employee |
| `ProtectedRoute.RoleRedirectIsAdmitted` | src/components/ProtectedRoute.tsx:25-29 | a user with a role sent away for a mismatch goes to its own home, which the route table admits it to |
| `StatusCard.IconColor` | src/components/AttendanceStatusCard.tsx:34-47 | total, present, absent and late map to the blue, green, red and amber class pairs; anything else to gray |
| `StatusCard.TrendColor` | src/components/AttendanceStatusCard.tsx:49-62 | no colour without a non-empty trend; otherwise green iff "up" agrees with the metric being positive, red otherwise |
| `StatusCard.NegativeMetricInvertsColour` | src/components/AttendanceStatusCard.tsx:52-62 | for the same trend and direction, absent/late get the opposite colour of a positive metric |
| `StatusCard.Arrow` | src/components/AttendanceStatusCard.tsx:74 | the arrow is ↑ iff the direction is up, ↓ otherwise |
| `StatusCard.TrendLineFor` | src/components/AttendanceStatusCard.tsx:72-76 | the trend line appears iff the trend is non-empty and reads arrow, space, trend |
| `Login.VerificationTarget` | src/pages/Login.tsx:46-47 | verification leads to /admin iff the email contains "admin", otherwise to /employee |
| `Login.DemoAdminRoutesToAdmin` | src/pages/Login.tsx:46-47 | the demo administrator's email is routed to /admin |
| `Login.LoginPage.constructor` | src/pages/Login.tsx:9-12 | empty credentials, not loading, no scanner |
| `Login.LoginPage.SetEmail` | src/pages/Login.tsx:73 | typing sets only the email |
| `Login.LoginPage.SetPassword` | src/pages/Login.tsx:93 | typing sets only the password |
| `Login.LoginPage.Submit` | src/pages/Login.tsx:16-27 | a missing email or password reports it, calls no login and leaves loading and scanner unchanged; otherwise loading is set and login called once |
| `Login.LoginPage.LoginSettled` | src/pages/Login.tsx:27-39 | only a true result opens the scanner; false or an exception reports an error; loading is false in every outcome |
| `Login.LoginPage.FaceVerified` | src/pages/Login.tsx:42-48 | the face capture navigates to /admin iff the entered email contains "admin" |
| `Login.LoginPage.BackToLogin` | src/pages/Login.tsx:144 | "Back to login" hides the scanner |
| `Login.SubmitAndSettle` | src/pages/Login.tsx:16-40 | a submission with credentials makes one login call, ends not loading, and shows the scanner iff login returned true |
| `EmployeeDashboard.ActionText` | src/pages/employee/Dashboard.tsx:50 | the message says Check-in iff the mode is check-in, otherwise Check-out |
| `EmployeeDashboard.SuccessMessage` | src/pages/employee/Dashboard.tsx:50-51 | the message starts with Check-in exactly for a check-in and with Check-out exactly for a check-out, and ends with the time |
| `EmployeeDashboard.Dashboard.constructor` | src/pages/employee/Dashboard.tsx:23-26 | starts idle in check-in mode, no scanner, no time |
| `EmployeeDashboard.Dashboard.HandleMarkAttendance` | src/pages/employee/Dashboard.tsx:35-38 | stores the mode and shows the scanner |
| `EmployeeDashboard.Dashboard.HandleFaceCapture` | src/pages/employee/Dashboard.tsx:40-42 | status becomes processing at once and a completion carrying the current mode is scheduled |
| `EmployeeDashboard.Dashboard.VerificationCompleted` | src/pages/employee/Dashboard.tsx:43-52 | the completion sets success with the given time; its message names the mode captured when it was scheduled; success always has a time |
| `EmployeeDashboard.Dashboard.HandleReset` | src/pages/employee/Dashboard.tsx:55-59 | from any state: scanner hidden, idle, no time |
| `EmployeeDashboard.CheckOutFlow` | src/pages/employee/Dashboard.tsx:35-59 | check-out, capture and completion give success, the time shown, and a Check-out message |
| `FaceScanPage.PickIndex` | src/pages/admin/FaceScanPage.tsx:21 | the random index lies inside the list |
| `FaceScanPage.Confidence` | src/pages/admin/FaceScanPage.tsx:22 | the confidence lies in 85..99 |
| `FaceScanPage.SelectionOf` | src/pages/admin/FaceScanPage.tsx:24-29 | the selection carries exactly the employee's id, name and email and the confidence |
| `FaceScanPage.Recognize` | src/pages/admin/FaceScanPage.tsx:20-30 | on a non-empty list the selection is of a listed employee with confidence 85..99; on an empty list nothing is selected |
| `FaceScanPage.ScanPage.constructor` | src/pages/admin/FaceScanPage.tsx:10-17 | nothing selected, scan not complete, empty password |
| `FaceScanPage.ScanPage.SetPassword` | src/pages/admin/FaceScanPage.tsx:153 | typing sets only the password |
| `FaceScanPage.ScanPage.HandleFaceCapture` | src/pages/admin/FaceScanPage.tsx:19-20 | a capture schedules recognition over the store's current list and changes nothing visible |
| `FaceScanPage.ScanPage.RecognitionFired` | src/pages/admin/FaceScanPage.tsx:20-30 | recognition selects an employee of the captured list with confidence 85..99, iff that list is non-empty |
| `FaceScanPage.ScanPage.HandleVerify` | src/pages/admin/FaceScanPage.tsx:33-48 | an empty password reports it and changes no state; otherwise a completion is scheduled |
| `FaceScanPage.ScanPage.VerificationFired` | src/pages/admin/FaceScanPage.tsx:41-42 | the delayed completion sets the scan complete |
| `FaceScanPage.ScanPage.HandleReset` | src/pages/admin/FaceScanPage.tsx:50-54 | nothing selected, scan not complete, password cleared |
| `FaceScanPage.RecogniseFromSeed` | src/pages/admin/FaceScanPage.tsx:19-30 | with the seeded store, a capture is recognised as one of the employees 2-5 with confidence 85..99 |
| `FaceScanPage.VerifyWithoutPassword` | src/pages/admin/FaceScanPage.tsx:36-39 | verifying without a password reports it and never completes the scan |

## Left out

- Rendering: JSX, Tailwind classes, toasts and react-router navigation are not modelled. Toast and navigation targets appear only as returned strings.
- `src/App.tsx`, `src/components/Layout.tsx`, `src/components/EmployeeCard.tsx`, `src/pages/employee/Profile.tsx`, `src/pages/admin/Dashboard.tsx` and `tailwind.config.js` are not part of this model. They are route declarations, menus, presentational defaults and styling. The only use of the route table is the role each home route demands, in `ProtectedRoute.RouteRole`.
- Browser media: the `getUserMedia` constraints (640×480 ideal, user-facing camera), `drawImage` and `toDataURL` are foreign APIs. The stream is an opaque handle with track objects, and the encoded image is an input string.
- Time and scheduling: the 1500/1000/500 ms delays and React's render and effect order are not modelled as time. Each timer is an event that may fire once it has been scheduled. Same-kind timers fire oldest first. Events of different kinds may interleave freely.
- `Date.now()`, `toLocaleTimeString`, `toLocaleDateString` and `Math.random()` are parameters: the id string, the time string, and reals in [0, 1).
- Text.Lower: only ASCII letters are lower-cased, standing in for Unicode `toLowerCase`.
- Text.StrLess: it orders Dafny characters (Unicode scalar values), whereas JavaScript compares UTF-16 code units. The two orders differ only between characters beyond U+FFFF and those in U+E000–U+FFFF.
- AttendanceTable.Sort: `Array.prototype.sort` is modelled as a stable insertion sort. Stability itself is not proved. Sorting on a column where some records lack the value (`timeOut`, `department`) gives the engine an inconsistent comparator, and its order is then implementation-defined. For such columns only the permutation and the model's own comparator order are claimed. The value order is claimed for always-defined columns only.
- AttendanceTable.TableView.Rows: "the input is not reordered because the sort runs on a copy" holds by value semantics. Sequences are values, so no in-place sort exists to be ruled out.
- FaceScanner.Scanner.Tick: the countdown value 0 is not a resting state. The effect that runs on the render setting 0 (capture, then clear) is part of the tick that reaches 0. So between events the countdown is unset or in 1..3, rather than in {unset, 0, 1, 2, 3}.
- FaceScanner: the mount effect (which calls `startVideo`) and the unmount cleanup (which calls `stopVideo`) are the caller's `StartVideo` and `StopVideo`. Timers that fire after unmount are not modelled.
- EmployeeStore.PartialEmployee: a property that is present but holds `undefined` is not representable. In JavaScript it would override the field with `undefined`; here each property is either present with a string or absent.
- EmployeeManagement: the inline handlers that only set one flag are not modelled. They open or close the add panel and show or hide the face scanner. The never-called `handleSave` inside `handleEditEmployee` is dead code, so editing never changes the list and no edit-save operation exists.
- EmployeeManagement.EmployeeManagementPage.HandleAddEmployee: the `Date.now()` id is not checked for collisions, in the source or here. The fresh-id round trip (`AddThenDeleteOnPage`) therefore requires the id to be fresh.
- Login: `AuthContext` is not shown, so the outcome of `login` is an input. `e.preventDefault()` has no state effect.
- FaceScanPage: the completion toast text naming the selected employee is not modelled.
- FaceScanPage.ScanPage.RecognitionFired: on an empty list the source reads a property of `undefined` and the timer callback throws. The model represents this as no selection and does not model the exception.
- AttendanceRecords: the CSV export button only raises a placeholder alert, so it has no state effect to model.
- EmployeeDashboard: the mock attendance history and the date and time display are constant rendering.
