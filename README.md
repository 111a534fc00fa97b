# EduTimely front end — a Dafny model

EduTimely is a timetable and student-administration web application. This project models the
behaviour of its React front end. That covers the page router, login and registration, and the
admin dashboard: the timetable filters, the weekly view, the CSV export and the student and group
handlers. It also covers the student dashboard widgets and the landing-page widgets: the
testimonials carousel, the team cards, the FAQ, announcements, resources, notifications, the
help widget, the feedback form and the downloadable reports. Each source component is one Dafny
module:

| module | file |
|---|---|
| `AppPage` | `app_page.dfy` |
| `Register` | `register.dfy` |
| `Dashboard` | `dashboard.dfy` |
| `Timetable` (filters, CSV, sorting) | `timetable.dfy` |
| `WeekView` (weekly view) | `week_view.dfy` |
| `StudentWidgets` | `student_widgets.dfy` |
| `Testimonials` | `testimonials.dfy` |
| `Team` | `team.dfy` |
| `Faq` | `faq.dfy` |
| `Announcements` | `announcements.dfy` |
| `Resources` | `resources.dfy` |
| `Notifications` | `notifications.dfy` |
| `HelpSupport` | `help_support.dfy` |
| `Feedback` | `feedback.dfy` |
| `Reports` | `reports.dfy` |

`Wrappers` (an `Option` type), `Seqs` (`Array.prototype.filter` and its laws) and `Text` (the
string built-ins the components call) are shared helpers.

The source has two kinds of code, and the model keeps both forms:
- **Component state changed by handlers** (`useState` setters) is a `class`. Each handler is a
  method with a `modifies` frame and an `ensures` that gives the new state. Any message a modelled
  handler shows with `alert` is appended to an `alerts` log. Any request it sends is appended
  to a `requests` log, with its payload.
- **Derived values computed during rendering** are functions, with lemmas about them. This covers
  filtered lists, colours, labels, the grouped timetable and file names.
  - The `reduce` that builds the weekly view is also written as a method with a loop
    (`WeekView.GroupByDay`). It is proved equal to its specification function.

The server, the clock and the JWT decoder are outside the front end, so they become parameters:
- the outcome of a request (`Option`, or a small result datatype);
- the current weekday name, and whether an assignment is overdue;
- the user that decoding the token yields, or `None` when decoding throws.

### Modelling choices

- **Lower/upper case.** `toLowerCase` and `toUpperCase` are modelled on ASCII letters only.
- **White space.** White space (for `trim` and `\s`) is the fixed set that JavaScript treats as
  white space.
- **`localeCompare`.** It is modelled as the lexicographic order `Text.LexLe` on code points.
  `Text.LexLeTotal`, `Text.LexLeTransitive` and `Text.LexLeAntisymmetric` prove that this is a
  total order.
- **The sort step in `groupedTimetable`.**
  - Each step pushes the entry into its day's bucket and then sorts the bucket.
  - `Array.prototype.sort` is stable. The bucket is already sorted before the push.
  - So the push-then-sort step equals inserting the entry after every entry that starts no later
    than it (`Timetable.PushSorted`).
  - `Timetable.PushThenSort` proves this equation for a stable insertion sort
    (`Timetable.SortByStart`).
- **Number formatting.** Numbers are printed in decimal by `Text.NatToString` and
  `Text.IntToString`. `Text.NatToStringRoundTrip` proves the round trip through `Text.ParseDigits`.

### Behaviour of the code worth knowing

These behaviours are easy to miss when reading the components, and the model keeps each of them:

- **Week timeframe.** Choosing the "week" timeframe in the simplified-view dialog does not narrow
  the data. The full timetable is shown, even for a group filter; only the title changes.
- **CSV times.** The CSV export writes the raw `start_time` and `end_time`. Only the on-screen
  table cuts them to five characters.
- **CSV file name.** The file name replaces each run of white space in the title with a single
  `-` (`/\s+/g`), not each white-space character.
- **Conflicts.** The front end does no timetable conflict check. A rejected create request only
  shows an alert.
- **Student widget notifications.** The student dashboard widgets build their notification list
  from the assignments prop, not from the notifications prop.

## Model

| member | source | states |
|---|---|---|
| AppPage.PageAfterAuth | app/page.tsx:35-47 | while loading, the page is unchanged; afterwards it is the dashboard exactly when a user is signed in and home exactly when nobody is |
| AppPage.LoginEndpoint | app/page.tsx:52 | the admin endpoint is chosen exactly for admins, the student endpoint exactly for students |
| AppPage.LoginError | app/page.tsx:50-63 | an error is raised exactly when the request throws, the body is `null`, or the token fails to decode; it is always the fixed "Invalid credentials" text; a decoded token and an answer without a token raise none |
| AppPage.DashboardFollowsUser | app/page.tsx:35-47 | once loading is over, the dashboard is shown exactly when a user is signed in |
| AppPage.App.constructor | app/page.tsx:24-30 | the initial page is home, the register type is student, and both popups are closed |
| AppPage.App.SyncPage | app/page.tsx:35-47 | the effect sets the page from the signed-in user, and after it the dashboard shows iff a user is signed in |
| AppPage.App.HandleLogin | app/page.tsx:50-63 | one request goes to the endpoint of the chosen user type; its error is `AppPage.LoginError`; a token that decodes signs the decoded user in and opens the welcome popup; anything else leaves the user and the popup unchanged |
| AppPage.App.HandleLogout | app/page.tsx:65-67 | logging out first only opens the goodbye popup |
| AppPage.App.CompleteLogout | app/page.tsx:69-73 | the user is signed out and the goodbye popup closes |
| AppPage.App.NavigateToPage | app/page.tsx:75-77 | the page becomes the requested one |
| AppPage.App.HandleRegisterSelection | app/page.tsx:79-82 | the register type is remembered and the register page is shown |
| Register.MakePayload | components/register-page.tsx:48-54 | the payload carries the form fields, and `department_id` is null exactly when the field is empty |
| Register.FailureMessage | components/register-page.tsx:64-68 | the server's error text is shown when present and non-empty, otherwise the fixed failure text; never empty |
| Register.SubmitMessages | components/register-page.tsx:33-72 | exactly one of error and success is set; mismatched passwords give the mismatch error; success exactly when the passwords match and the server accepts |
| Register.FormShown | components/register-page.tsx:111-116 | the form is shown exactly for non-admin registration |
| Register.RegisterForm.constructor | components/register-page.tsx:22-31 | all fields start empty, not loading, with no messages |
| Register.RegisterForm.HandleSubmit | components/register-page.tsx:33-72 | loading ends cleared; the messages are those of `Register.SubmitMessages`; a request with the built payload is sent exactly when the passwords match |
| Dashboard.DraftCompleteIff | components/dashboard-page.tsx:297 | a timetable draft may be posted exactly when none of its five ids is empty |
| Dashboard.EmptyDraftIncomplete | components/dashboard-page.tsx:303 | the reset draft cannot be posted |
| Dashboard.ReplaceById | components/dashboard-page.tsx:284 | the list keeps its length; entries with the edited id become the edited student, the others are unchanged |
| Dashboard.ReplaceByIdIdempotent | components/dashboard-page.tsx:284 | saving the same edit twice changes nothing more |
| Dashboard.RemoveById | components/dashboard-page.tsx:292 | exactly the students with another id are kept, in order and with multiplicity |
| Dashboard.RemoveByIdIdempotent | components/dashboard-page.tsx:292 | deleting twice is deleting once |
| Dashboard.RemoveByIdAbsent | components/dashboard-page.tsx:292 | deleting an id nobody has leaves the list unchanged |
| Dashboard.WithNoMembers | components/dashboard-page.tsx:258-259 | the added group keeps the server's id, name and year, with member count "0" |
| Dashboard.GroupRequest | components/dashboard-page.tsx:252-255 | the posted group keeps the typed name; a year typed as a number is sent as that number, and as `null` exactly when `parseInt` finds no digits |
| Dashboard.UpdateRequest | components/dashboard-page.tsx:283 | the put goes to the edited student's id and carries its name, email and registration number unchanged |
| Dashboard.DashboardState.constructor | components/dashboard-page.tsx:51-86 | the initial state: empty lists, the day/single/Monday filter, every dialog closed, empty drafts, no alerts and no requests |
| Dashboard.DashboardState.ApplyFilter | components/dashboard-page.tsx:197-226 | the shown data and title are those of `Timetable.ApplyFilter`; the filter dialog closes and the view opens |
| Dashboard.DashboardState.ViewTimetableClick | components/dashboard-page.tsx:238-244 | the dialog shows exactly the group's entries under the group's name |
| Dashboard.DashboardState.CreateGroup | components/dashboard-page.tsx:247-266 | a missing name or year alerts and sends nothing; otherwise `Dashboard.GroupRequest` is posted; a created group is appended with zero members and the dialog resets; a failure alerts |
| Dashboard.DashboardState.EditClick | components/dashboard-page.tsx:279 | the clicked student is put in the edit dialog, which opens |
| Dashboard.DashboardState.UpdateStudent | components/dashboard-page.tsx:280-287 | with no student being edited nothing happens; otherwise `Dashboard.UpdateRequest` is sent; a save replaces that student by id and closes the dialog; a failure alerts |
| Dashboard.DashboardState.DeleteStudent | components/dashboard-page.tsx:288-295 | only a confirmed delete sends a request or changes anything; success removes the id, failure alerts |
| Dashboard.DashboardState.CreateTimetableEntry | components/dashboard-page.tsx:296-305 | an incomplete draft alerts and sends nothing; otherwise the draft is posted, and the timetable is fetched again only when the post succeeded; success replaces the timetable with the fetched one and resets the dialog; either failure alerts |
| Dashboard.DashboardState.AddStudent | components/dashboard-page.tsx:308-329 | a missing field alerts and sends nothing; otherwise the whole form is posted; a returned student is appended and the form resets; a body without a student and a thrown request each alert their own text |
| Timetable.GroupName | components/dashboard-page.tsx:207 | the name of the first group with the id, or "" when no group has it |
| Timetable.ApplyFilter | components/dashboard-page.tsx:197-226 | for "week", the whole timetable under a week title; otherwise a day or group filter keeps exactly the matching entries in order under "Timetable for …"; any other type keeps everything with an empty title |
| Timetable.GroupSchedule | components/dashboard-page.tsx:238-241 | exactly the entries of the group, in order |
| Timetable.GroupScheduleIsGroupView | components/dashboard-page.tsx:197-241 | a group's schedule dialog shows the same entries as the single-timeframe group filter |
| Timetable.Prefix5 | components/dashboard-page.tsx:550-551 | at most five characters, a prefix of the time, the whole of a short one |
| Timetable.TableRowMatchesHeaders | components/dashboard-page.tsx:229-237 | each of the seven table columns shows the field its CSV header names; the two time columns shortened |
| Timetable.DashRunsNoWhitespace | components/dashboard-page.tsx:560 | replacing white-space runs leaves no white space |
| Timetable.CsvFilename | components/dashboard-page.tsx:560 | the download name is the title with white-space runs dashed, plus ".csv", and contains no white space |
| Timetable.DashRunsIdentity | components/dashboard-page.tsx:560 | a title without white space is kept as it is |
| Timetable.DashRunsIdempotent | components/dashboard-page.tsx:560 | dashing an already dashed name changes nothing |
| Timetable.DashRunsSplice | components/dashboard-page.tsx:560 | a whole run of white space between two words becomes exactly one '-' |
| Timetable.PushSortedMultiset | components/dashboard-page.tsx:452 | inserting into a bucket adds exactly the new entry |
| Timetable.PushSortedSorted | components/dashboard-page.tsx:452-453 | inserting into a bucket sorted by start time keeps it sorted |
| Timetable.PushSortedPosition | components/dashboard-page.tsx:452-453 | the new entry lands after every entry starting no later than it and before the others, which keep their order |
| Timetable.SortByStart | components/dashboard-page.tsx:453 | the stable sort returns a sorted permutation of the bucket |
| Timetable.SortByStartSorted | components/dashboard-page.tsx:453 | sorting a sorted bucket leaves it unchanged |
| Timetable.PushThenSort | components/dashboard-page.tsx:452-453 | on a sorted bucket, push-then-sort is the insertion of `Timetable.PushSorted` |
| WeekView.PushIntoDay | components/dashboard-page.tsx:449-455 | one reduce callback (create the bucket if missing, push, sort) is the step `Timetable.AddToDay` |
| WeekView.GroupByDay | components/dashboard-page.tsx:449-455 | the reduce yields the left fold: keyed by exactly the days that occur, every bucket sorted, every bucket holding precisely its day's entries |
| WeekView.GroupedBuckets | components/dashboard-page.tsx:449-455 | after any prefix of the timetable, the keys are the days seen, buckets are sorted and hold each entry of their day with its multiplicity |
| WeekView.GroupedKeys | components/dashboard-page.tsx:450-451 | a bucket exists exactly for each day that occurs |
| WeekView.GroupedSorted | components/dashboard-page.tsx:452-453 | every bucket is sorted by start time |
| WeekView.GroupedShares | components/dashboard-page.tsx:449-455 | every bucket holds exactly its day's entries, with multiplicity |
| WeekView.ConcatIsPermutation | components/dashboard-page.tsx:501-514 | rendering the buckets of distinct days shows each entry of those days exactly once |
| WeekView.WeekViewIsPermutation | components/dashboard-page.tsx:457-514 | when every entry falls on a weekday, the Monday-to-Friday view shows every entry exactly once |
| StudentWidgets.TodaysClasses | components/student-dashboard-widgets.tsx:39-40 | exactly today's entries, in order |
| StudentWidgets.PendingAssignments | components/student-dashboard-widgets.tsx:41 | exactly the assignments without a submission id, in order |
| StudentWidgets.OverdueAssignments | components/student-dashboard-widgets.tsx:42 | a subsequence of the pending list, holding exactly the assignments that are unsubmitted and overdue |
| StudentWidgets.OverdueAtMostPending | components/student-dashboard-widgets.tsx:41-42 | there are never more overdue than pending assignments |
| StudentWidgets.InitialNotifications | components/student-dashboard-widgets.tsx:36 | one notification per assignment, each unread |
| StudentWidgets.UnreadCount | components/student-dashboard-widgets.tsx:43 | the count of unread records (`Seqs.Count`), so bounded by the list and zero exactly when all are read |
| StudentWidgets.InitialAllUnread | components/student-dashboard-widgets.tsx:36-43 | at first every assignment counts as unread |
| StudentWidgets.MarkedAsRead | components/student-dashboard-widgets.tsx:45-47 | the matching id becomes read, every other notification is unchanged |
| StudentWidgets.MarkedAsReadUnread | components/student-dashboard-widgets.tsx:43-47 | afterwards the unread ones are exactly the previously unread ones with another id |
| StudentWidgets.MarkedAsReadIdempotent | components/student-dashboard-widgets.tsx:45-47 | marking twice is marking once |
| StudentWidgets.StatusColor | components/student-dashboard-widgets.tsx:50-54 | green exactly when submitted, red exactly when unsubmitted and overdue, yellow otherwise |
| StudentWidgets.PendingBadgeNeverGreen | components/student-dashboard-widgets.tsx:72-78 | a pending assignment's badge is red or yellow, never green |
| StudentWidgets.StudentDashboardWidgets.constructor | components/student-dashboard-widgets.tsx:36 | the list is built from the assignments |
| StudentWidgets.StudentDashboardWidgets.MarkNotificationAsRead | components/student-dashboard-widgets.tsx:45-47 | the list becomes the marked one and the unread ones are those with another id |
| Testimonials.NextIndex | components/testimonials-section.tsx:39 | the next index is in range, one more, or 0 after the last |
| Testimonials.NextIndexWraps | components/testimonials-section.tsx:39 | one tick advances the wrapped position by one |
| Testimonials.AfterTicksIsRotation | components/testimonials-section.tsx:38-41 | after k ticks the index is the start plus k, wrapped |
| Testimonials.FullCycle | components/testimonials-section.tsx:38-41 | after as many ticks as testimonials the carousel is back where it started |
| Testimonials.DotsBeforeCurrentOff | components/testimonials-section.tsx:88 | no dot before the current one is active |
| Testimonials.OneActiveDot | components/testimonials-section.tsx:83-90 | exactly one dot, the current one, is active |
| Testimonials.TestimonialsCarousel.constructor | components/testimonials-section.tsx:35 | the carousel starts at the first testimonial |
| Testimonials.TestimonialsCarousel.Tick | components/testimonials-section.tsx:38-41 | the index advances by `Testimonials.NextIndex` and stays valid |
| Testimonials.TestimonialsCarousel.DotClick | components/testimonials-section.tsx:86 | clicking a dot shows that testimonial |
| Team.VisibleAfterTicks | components/team-section.tsx:20-28 | after k ticks exactly the first min(k, 6) cards are visible, in order |
| Team.RevealStops | components/team-section.tsx:22-25 | once all cards are visible, a tick changes nothing |
| Team.AnimatedIffRevealed | components/team-section.tsx:49 | a card is animated exactly when its index is below the number revealed |
| Team.Split | components/team-section.tsx:60 | at least one piece, and no piece contains a space |
| Team.SplitJoin | components/team-section.tsx:60 | joining the pieces with spaces gives the name back |
| Team.SplitWordStarts | components/team-section.tsx:59-62 | the first characters of the pieces are the word starts of the name |
| Team.InitialsAreWordStarts | components/team-section.tsx:59-62 | the avatar shows the first character of every space-separated word |
| Team.TeamSection.constructor | components/team-section.tsx:17 | no card is visible at first |
| Team.TeamSection.Tick | components/team-section.tsx:21-26 | one more card is revealed until all six are, and the visible list stays a prefix of the indices |
| Faq.FilteredFaqs | components/faq-section.tsx:114-122 | exactly the FAQs matching the category and the search, in order |
| Faq.FilteredFaqsMembership | components/faq-section.tsx:114-122 | an FAQ is listed iff its category is selected (or "all") and the search matches the question, the answer or a tag |
| Faq.InitialShowsAll | components/faq-section.tsx:20-21 | with the initial filters every FAQ is listed in order |
| Faq.EmptySearchFiltersByCategory | components/faq-section.tsx:114-117 | an empty search filters by category alone |
| Faq.SearchIgnoresCase | components/faq-section.tsx:118-120 | an upper-cased search term lists the same FAQs |
| Faq.Toggled | components/faq-section.tsx:124-126 | the open item closes when clicked again; any other click opens the clicked one |
| Faq.ToggleTwice | components/faq-section.tsx:124-126 | toggling twice restores the state exactly when nothing else was open |
| Faq.FaqSection.constructor | components/faq-section.tsx:19-21 | nothing open, empty search, category "all" |
| Faq.FaqSection.ToggleFaq | components/faq-section.tsx:124-126 | the clicked answer flips and no other answer is open |
| Faq.FaqSection.SetSearchTerm | components/faq-section.tsx:20 | the search term becomes the typed text |
| Faq.FaqSection.SelectCategory | components/faq-section.tsx:21 | the category becomes the chosen one |
| Announcements.FilteredAnnouncements | components/announcements-section.tsx:73-74 | "all" shows the list itself; any other category keeps exactly its announcements, in order |
| Announcements.ShowsEmptyNotice | components/announcements-section.tsx:188-194 | the notice appears exactly when no announcement is in the selected category |
| Announcements.EmptySelection | components/announcements-section.tsx:73-74 | a category selection is empty exactly when no announcement has that category |
| Announcements.FilterAgain | components/announcements-section.tsx:73-74 | filtering a filtered list again changes nothing |
| Announcements.CategoryColor | components/announcements-section.tsx:76-87 | blue, purple and green exactly for academic, event and system; gray otherwise |
| Announcements.PriorityColor | components/announcements-section.tsx:89-98 | red exactly for high, orange exactly for medium, blue otherwise |
| Resources.FilteredResources | components/resources-page.tsx:174 | exactly the resources of the selected tab, in order |
| Resources.TabsPartition | components/resources-page.tsx:40-174 | the two tabs together show every resource exactly once |
| Resources.TypeIcon | components/resources-page.tsx:176-187 | the video, file and download icons exactly for video, document and template; a book otherwise |
| Resources.TypeColor | components/resources-page.tsx:189-200 | red, blue and green exactly for video, document and template; purple otherwise |
| Resources.CardButtons | components/resources-page.tsx:302-313 | Download shows iff the download URL is truthy, View Guide iff the external URL is |
| Notifications.UnreadCount | components/notifications-widget.tsx:111 | the number of notifications whose `isRead` is false (`Seqs.Count`), so bounded by the list and zero exactly when every one is read |
| Notifications.MarkedRead | components/notifications-widget.tsx:113-115 | the matching id becomes read, every other notification is unchanged |
| Notifications.AllMarkedRead | components/notifications-widget.tsx:117-119 | every notification becomes read and nothing else changes |
| Notifications.AllMarkedReadClearsCount | components/notifications-widget.tsx:111-119 | after "mark all read" the count is zero |
| Notifications.MarkedReadCount | components/notifications-widget.tsx:111-115 | marking never raises the count, and lowers it exactly when an unread notification has the id |
| Notifications.MarkedReadNeverIncreases | components/notifications-widget.tsx:111-115 | the badge count never grows by marking one read |
| Notifications.MarkedReadIdempotent | components/notifications-widget.tsx:113-115 | marking twice is marking once |
| Notifications.AllMarkedReadIdempotent | components/notifications-widget.tsx:117-119 | marking all twice is marking all once |
| Notifications.MarkAllAfterMark | components/notifications-widget.tsx:113-119 | marking one and then all is marking all |
| Notifications.BadgeText | components/notifications-widget.tsx:154-156 | no badge at zero, "9+" above nine, otherwise the single digit of the count |
| Notifications.PriorityColor | components/notifications-widget.tsx:134-143 | red exactly for high, orange exactly for medium, blue otherwise |
| Notifications.NotificationsWidget.constructor | components/notifications-widget.tsx:25-30 | the list is the demo list and the panel is closed |
| Notifications.NotificationsWidget.Reload | components/notifications-widget.tsx:28-109 | when the login state changes the list becomes the new demo list, dropping every read flag; its unread count is that list's |
| Notifications.NotificationsWidget.MarkAsRead | components/notifications-widget.tsx:113-115 | the list becomes the marked one and the count does not grow |
| Notifications.NotificationsWidget.MarkAllAsRead | components/notifications-widget.tsx:117-119 | all become read, the count is zero and the "Mark all read" button is hidden |
| Notifications.NotificationsWidget.ToggleExpanded | components/notifications-widget.tsx:26 | the panel flips open or closed |
| HelpSupport.FilteredHelp | components/help-support-widget.tsx:39-43 | exactly the items whose question or answer contains the query (ignoring case), in order |
| HelpSupport.FilteredHelpMembership | components/help-support-widget.tsx:39-43 | an item is listed iff it is in the list and its question or answer contains the query |
| HelpSupport.EmptyQueryKeepsAll | components/help-support-widget.tsx:39-43 | an empty query lists every item |
| HelpSupport.SendDisabled | components/help-support-widget.tsx:195 | the send button is disabled exactly when the message is blank |
| Text.TrimEmptyIffBlank | components/help-support-widget.tsx:46 | a trimmed message is empty exactly when it is all white space |
| Text.IntToStringReadsBack | components/downloadable-reports.tsx:124 | the printed score is its digits after an optional '-', and they read back as the score |
| Text.DigitPrefix | components/dashboard-page.tsx:254 | the longest run of digits at the start of the text: a prefix, all digits, followed by no digit |
| Text.ReadSigned | components/dashboard-page.tsx:254 | `NaN` exactly when no digit follows the optional sign; a negative value only after '-' |
| Text.ParseIntReadsNumeral | components/dashboard-page.tsx:254 | `parseInt` reads any integer's decimal text back, whatever non-digit text follows |
| Text.ParseIntSkipsWhitespace | components/dashboard-page.tsx:254 | leading white space does not change the result |
| Text.ParseIntNaN | components/dashboard-page.tsx:254 | text starting with anything but white space, a sign or a digit is `NaN` |
| HelpSupport.HelpSupportWidget.constructor | components/help-support-widget.tsx:34-37 | closed, with empty query and message |
| HelpSupport.HelpSupportWidget.SendMessage | components/help-support-widget.tsx:45-51 | a non-blank message alerts the confirmation and clears; a blank one changes nothing; afterwards sending is disabled |
| HelpSupport.HelpSupportWidget.TypeMessage | components/help-support-widget.tsx:37 | the message becomes the typed text |
| Feedback.Apply | components/feedback-system.tsx:66-71 | the changed field takes the typed value, and every other field, `anonymous` included, is unchanged |
| Feedback.LastChangeWins | components/feedback-system.tsx:66-71 | of two changes to one field, the later one wins |
| Feedback.IndependentChangesCommute | components/feedback-system.tsx:66-71 | changes to different fields commute |
| Feedback.StarFilledIff | components/feedback-system.tsx:82-87 | star k is filled exactly when k is at most the rating |
| Feedback.FilledStars | components/feedback-system.tsx:73-88 | the number of filled stars is the rating, capped at five |
| Feedback.RatingLabel | components/feedback-system.tsx:91 | no rating shows the prompt; a rating shows its digits followed by "/5" |
| Feedback.AsksForContact | components/feedback-system.tsx:144 | the name and email fields are asked for exactly when nobody is signed in |
| Feedback.FeedbackForm.constructor | components/feedback-system.tsx:20-31 | closed, with the initial record, not submitting |
| Feedback.FeedbackForm.Open | components/feedback-system.tsx:101 | the form opens |
| Feedback.FeedbackForm.Close | components/feedback-system.tsx:124 | the form closes |
| Feedback.FeedbackForm.HandleInputChange | components/feedback-system.tsx:66-71 | the record becomes `Feedback.Apply` of the change |
| Feedback.FeedbackForm.StartSubmit | components/feedback-system.tsx:40-42 | submitting starts and the button is disabled |
| Feedback.FeedbackForm.FinishSubmit | components/feedback-system.tsx:47-48 | submitted, no longer submitting, the button enabled |
| Feedback.FeedbackForm.ResetAfterSubmit | components/feedback-system.tsx:51-63 | the form closes and the record returns to its initial value |
| Reports.IndexOf | components/downloadable-reports.tsx:69 | the first position of the character, or none exactly when it does not occur |
| Reports.ReplaceFirst | components/downloadable-reports.tsx:69 | only the first occurrence is replaced and the length is kept |
| Reports.IndexOfSpaceToLower | components/downloadable-reports.tsx:69 | lowercasing keeps the position of the first space |
| Reports.ReportFilenameShape | components/downloadable-reports.tsx:69 | the file name is the lowercased type with only its first space turned into '_', then "_report.txt" |
| Reports.AttendanceFilename | components/downloadable-reports.tsx:69-171 | the attendance button downloads "attendance_report_report.txt" |
| Reports.TemplateFor | components/downloadable-reports.tsx:82 | the attendance template exactly for the exact title "Attendance Report", the performance one otherwise |
| Reports.StatusLine | components/downloadable-reports.tsx:102 | SATISFACTORY exactly at 75 % or more, the minimum-requirement text otherwise |
| Reports.AssignmentLine | components/downloadable-reports.tsx:124 | the line starts with subject, title and upper-cased status; a score is appended exactly when it is truthy, as " (", the score's decimal text, "/100)" |
| Reports.ZeroScoreOmitted | components/downloadable-reports.tsx:124 | a score of 0 is dropped exactly like a missing one |
| Reports.ReportsPanel.constructor | components/downloadable-reports.tsx:54 | nothing is being generated |
| Reports.ReportsPanel.BeginGeneration | components/downloadable-reports.tsx:57 | this report's button is disabled and every other one is enabled |
| Reports.ReportsPanel.CompleteGeneration | components/downloadable-reports.tsx:58-75 | the file gets its computed name and template, and every button is enabled again |

## Left out

- The REST client, `lib/api` and the dashboard's data loading on mount (`fetchData`) are not
  part of this model. Each handler takes the outcome of its request as a parameter.
- Timers (`setInterval`, `setTimeout`) are left out; each timer tick or delayed callback is a
  method the caller invokes. The same goes for the 3-second redirect after registration.
- The DOM is left out: the download link, `Blob`, `URL.createObjectURL`, `CSVLink`, `alert`
  (modelled as a log), `window.confirm` (a parameter) and scrolling.
- The clock is left out: `new Date()`, `getDayName` and the due-date comparison are parameters.
- The authentication context (`AuthContext`, `jwtDecode`, `localStorage`) is left out. The
  result of decoding the token (a user, or `None` when `jwtDecode` throws) is a parameter of
  `AppPage.App.HandleLogin`, and `login`/`logout` set `user` directly. The token is stored in
  `localStorage` before decoding, even when decoding then throws; that store is not modelled.
- Floating point is left out. The report's attendance percentage is a `real` compared with 75.
  The assignment score is an integer, so a non-integer score is not modelled.
- The fixed data lists are left out: the demo notifications, FAQ, help items, resources,
  testimonials and team members. They are parameters, except that their sizes (3 testimonials,
  6 team members) are constants.
- Icons and markup-only components are left out: `getIcon` and the other JSX icons, and the
  context components (navbar, hero, footer and the like).
- The report text is left out, except the template choice, the status line and the assignment
  lines.
- Text.ParseInt: reads every integer exactly, where JavaScript's number loses precision past
  2^53; `-0` reads as 0.
- Reports.ReportFilename: lowercases ASCII letters only. Other letters are kept unchanged,
  where `toLowerCase` would map them.
- The dashboard's timetable generator (`handleGenerateTimetable`) is not part of this model: it
  posts to `/timetable/generate`, posts each returned entry in a loop, refetches, and shows a
  success or `Error: ...` alert. Its schedule comes from the server, so there is no client logic
  to verify, and those two alerts are not in the `alerts` log.
- Feedback.Apply: the `anonymous` field is never changed through `handleInputChange` by the form,
  so no change of it is modelled.
- The dashboard's password change, feedback submission and the admin/analytics lists are not
  part of this model. They are separate forms with no logic beyond one request.
