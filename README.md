# NHS service-hours site: a Dafny model of its client logic

The National Honor Society site is a React single-page app backed by Supabase.
Members log volunteer service hours, with a supervisor's drawn signature. Leaders and
administrators review a catalogue of every member's hours, split by category (in-school,
out-of-school, Red Hook) and by trimester. Administrators also approve, demote, promote and
remove users, and review signed entries. Everyone sees a shared events calendar and an
announcements board.

This project models, in Dafny, the decisions the client makes. It proves what those
decisions guarantee:

- **Access:** which screen a path shows for a given session and profile.
- **Member catalogue:** how the catalogue rolls hours up, filters, sorts, colours and totals
  its table.
- **User management:** which administrative requests the user page sends, and which it refuses.
- **Service-hour form:** how a member's entry is validated and saved, and how the signature
  canvas is judged blank.
- **Signature review:** how signatures are filtered.
- **Calendar:** how events are grouped by day and how the month steps.
- **Sidebar:** which links each role sees and how the sidebar collapses.
- **Posts, settings and sign-up:** how posts, replies, settings and sign-up forms are validated.

Each source file has its own module:

- `Access` models `src/App.jsx`.
- `MemberCatalogue`, `UserManagement`, `Volunteer`, `SignatureReview`, `Calendar`, `Sidebar`,
  `Posts`, `Settings` and `Signup` model the files of the same names.
- Three modules are shared:
  - `Wrappers` holds `Option` and `Result`;
  - `Text` holds JavaScript string helpers: `toLowerCase`, `includes`, `trim`, `parseInt`,
    `padStart`, `join` and number printing;
  - `Lists` holds array helpers: `filter`, the `[...new Set(...)]` dedup, numeric sort, and
    building a map by key.

Where the source is a pure computation, the model is a function with lemmas.

Where the source changes state, the model is imperative:

- A component's state becomes a class whose methods are its event handlers. Examples are
  `AuthState`, `Management`, `VolunteerPage`, `ReviewPage`, `CalendarPage`, `SidebarState`,
  `PostsPage` and `SettingsPage`.
- A `forEach` or `for` loop becomes a method with loop invariants, proved against a function
  that specifies it. Examples:
  - the per-member roll-up `calculateMemberHours`;
  - `getSelectedHours`;
  - `calculateTotals`;
  - the `filter`/`map` passes of the catalogue;
  - the `eventsByDate` grouping;
  - the month grid;
  - the canvas scan `isCanvasBlank` over a byte array.
- The catalogue's sort is an in-place sort of an array of rows. It is proved sorted under the
  comparator and a permutation of its input.

A handler that talks to Supabase is modelled up to the request it sends. The outcome of the
request (`succeeded`, the rows returned) is a parameter. `alert`, `confirm` and `prompt`
become booleans or strings passed in.

Two facts about the code are worth stating plainly:

- A member's `overall` hours are accumulated separately from the three categories
  (`src/MemberCatalogue.jsx:97-100`), so a record with an unknown category counts in `overall`
  only. `MemberCatalogue.UnknownCategoryCountsInOverallOnly` exhibits this, and
  `MemberCatalogue.OverallSplitsByCategory` states the exact relation.
- An empty grade selection applies no grade filter (`src/MemberCatalogue.jsx:211`), so every
  grade is admitted. `MemberCatalogue.Admitted` states this.

## Model

| member | source | states |
|---|---|---|
| Access.Route | src/App.jsx:306-482 | the loading screen shows exactly while loading; every screen the router renders is one the access policy permits for that session and profile (role, approval); every redirect goes to /login, /pending or /dashboard |
| Access.NoSessionGoesToLogin | src/App.jsx:319-482 | with no session, every protected path redirects to /login |
| Access.UnapprovedGoesToPending | src/App.jsx:328-467 | a signed-in user whose profile is missing or unapproved is sent to /pending from each of the six member pages |
| Access.CatalogueForManagers | src/App.jsx:373-396 | /members renders the catalogue exactly for approved leaders and admins; other approved users go to the dashboard |
| Access.AdminPagesForAdmins | src/App.jsx:397-446 | /signatures and /users render exactly for approved admins; other approved users go to the dashboard |
| Access.RouteIsComplete | src/App.jsx:328-478 | an approved user reaches every page their role is entitled to, and the dashboard always renders |
| Access.DashboardByRole | src/App.jsx:469-478 | an approved profile's dashboard is the admin, leader or member dashboard according to its role |
| Access.EffectAgreesWithRoute | src/App.jsx:271-283 | on the member pages and the dashboard, whenever the redirect effect navigates, the route element redirects to the same place |
| Access.RedirectEffect | src/App.jsx:271-283 | the effect is idle while loading; it goes to /login exactly off the public paths without a session, and to /pending exactly for an unapproved profile away from /pending |
| Access.ResizeRedirect | src/App.jsx:255-268 | a width of at least 968 on /calendar, and only that, replaces the page with /dashboard |
| Access.AuthState.constructor | src/App.jsx:232-235 | no session, no profile, loading |
| Access.AuthState.BeginLoadProfile | src/App.jsx:285-287 | starting the profile fetch sets loading and records the user id asked for |
| Access.AuthState.ProfileLoaded | src/App.jsx:288-298 | a fetched profile replaces the old one and a failed fetch keeps it; loading ends either way |
| Access.AuthState.SessionResolved | src/App.jsx:240-243 | the initial session is stored; with one, the profile fetch starts, and without one, loading ends |
| Access.AuthState.AuthStateChanged | src/App.jsx:245-250 | a new session starts a profile fetch and a sign-out clears the profile; loading ends at once |
| Access.FirstSignInShowsProfileNotFound | src/App.jsx:245-250 | after a first sign-in the dashboard shows "Profile Not Found" until the fetch returns, because the callback ends loading early |
| MemberCatalogue.OwnedBy | src/MemberCatalogue.jsx:83 | the records kept are exactly the member's own |
| MemberCatalogue.CalculateMemberHours | src/MemberCatalogue.jsx:82-112 | the loop's result is the roll-up (total and per-trimester vectors) of the member's own records |
| MemberCatalogue.CreditRecord | src/MemberCatalogue.jsx:92-109 | one record credits the total, and the trimester it names when that is 1..3, exactly as adding it to the record list does |
| MemberCatalogue.RollupSnoc | src/MemberCatalogue.jsx:92-109 | the roll-up of a list with one more record is the old roll-up credited with that record |
| MemberCatalogue.OverallSplitsByCategory | src/MemberCatalogue.jsx:97-100 | overall hours are in-school + out-of-school + Red Hook + the hours of records in any other category |
| MemberCatalogue.OverallIsCategorySum | src/MemberCatalogue.jsx:97-108 | when every record has a known category, overall equals the category sum, in the total and in each trimester |
| MemberCatalogue.UnknownCategoryCountsInOverallOnly | src/MemberCatalogue.jsx:97-100 | a record in an unknown category raises overall but no category |
| MemberCatalogue.OutOfRangeTrimesterOnlyInTotal | src/MemberCatalogue.jsx:102-108 | a record whose trimester is missing or outside 1..3 changes the total and no trimester |
| MemberCatalogue.TotalIsTrimestersPlusOutside | src/MemberCatalogue.jsx:92-109 | the total is the three trimester vectors plus the vector of the records outside trimesters 1..3 |
| MemberCatalogue.SelectedHours | src/MemberCatalogue.jsx:114-131 | the loop sums the trimester vectors of the selected trimesters |
| MemberCatalogue.SelectedSumIsSelectedRecords | src/MemberCatalogue.jsx:114-131 | the sum over selected trimesters equals the vector of exactly the records in a selected trimester |
| MemberCatalogue.SelectAllIsTotal | src/MemberCatalogue.jsx:114-131 | when every record is in trimester 1..3, selecting all three trimesters gives the total |
| MemberCatalogue.TotalColor | src/MemberCatalogue.jsx:155-180 | the total cell is light grey iff there are no hours, green iff no category cell is grey and overall reaches 15 per selected trimester, grey otherwise |
| MemberCatalogue.HourColor | src/MemberCatalogue.jsx:133-153 | a category cell is dark red iff zero, grey iff strictly between zero and its threshold (5, or 3 for Red Hook, per trimester), green otherwise; an unknown field is black |
| MemberCatalogue.FewerTrimestersKeepGreen | src/MemberCatalogue.jsx:133-180 | selecting fewer trimesters keeps a green cell and a green total green |
| MemberCatalogue.TwoTrimesterExample | src/MemberCatalogue.jsx:133-180 | with two trimesters, 4 in-school, 6 out-of-school, 2 Red Hook and 12 overall hours are all grey |
| MemberCatalogue.Without | src/MemberCatalogue.jsx:185 | the elements kept are those of the list other than the one removed |
| MemberCatalogue.Toggle | src/MemberCatalogue.jsx:182-200 | a trimester or grade toggle flips the membership of exactly the value toggled |
| MemberCatalogue.ToggleFlips | src/MemberCatalogue.jsx:182-200 | a toggle keeps an increasing selection increasing |
| MemberCatalogue.ToggleTwice | src/MemberCatalogue.jsx:182-200 | toggling the same value twice gives back an increasing selection unchanged |
| MemberCatalogue.ToggleSort | src/MemberCatalogue.jsx:266-273 | clicking the current column flips the order; clicking a new column selects it ascending |
| MemberCatalogue.ToggleSortTwice | src/MemberCatalogue.jsx:266-273 | two clicks on the current column restore the sort; two on a new column leave it descending |
| MemberCatalogue.DefaultTrimesters | src/MemberCatalogue.jsx:20-32 | September to December selects T1, January and February T1-T2, March to August all three |
| MemberCatalogue.ListLabel | src/MemberCatalogue.jsx:275-285 | no items give the placeholder, three give the summary, one gives that item with its prefix |
| MemberCatalogue.DropdownLabel | src/MemberCatalogue.jsx:275-279 | no trimester gives "Select Trimesters", all three "All Trimesters", one gives "T" and its number |
| MemberCatalogue.GradeDropdownLabel | src/MemberCatalogue.jsx:281-285 | no grade gives "Select Grades", all three "All Grades", one gives "Grade " and its number |
| MemberCatalogue.LabelNamesEachItem | src/MemberCatalogue.jsx:275-285 | a label for a partial selection names every selected item with its prefix |
| MemberCatalogue.LabelExamples | src/MemberCatalogue.jsx:275-285 | none selected, all selected and one selected give "Select Trimesters", "All Trimesters", "T2" and "All Grades" |
| MemberCatalogue.Admitted | src/MemberCatalogue.jsx:203-224 | a member is listed iff the search, grade and minimum-hours filters all pass it; a minimum that does not parse as a number rejects nobody |
| MemberCatalogue.NoFiltersAdmitsAll | src/MemberCatalogue.jsx:203-224 | with an empty search, no grade selected and no minimum, the whole roster is listed in order |
| MemberCatalogue.WithHours | src/MemberCatalogue.jsx:226-229 | each listed member is paired with the roll-up of their own records |
| MemberCatalogue.SortValueOf | src/MemberCatalogue.jsx:236-255 | the name column sorts by text and every other column by number |
| MemberCatalogue.GoesAfter | src/MemberCatalogue.jsx:256-260 | rows with equal keys never go after one another, in either direction |
| MemberCatalogue.GoesAfterAsymmetric | src/MemberCatalogue.jsx:256-260 | two rows never each go after the other |
| MemberCatalogue.NeitherAfterEqualKeys | src/MemberCatalogue.jsx:256-260 | rows neither of which goes after the other have equal keys |
| MemberCatalogue.NotAfterTransitive | src/MemberCatalogue.jsx:256-260 | "does not go after" is transitive |
| MemberCatalogue.SortRows | src/MemberCatalogue.jsx:231-261 | after the sort no row belongs after a later one under the comparator, and the rows are a permutation of the input |
| MemberCatalogue.InsertRow | src/MemberCatalogue.jsx:231-261 | one insertion step extends the sorted prefix by one row and permutes the array |
| MemberCatalogue.SortedUnique | src/MemberCatalogue.jsx:231-261 | with distinct keys, two sorted permutations of the same rows are equal: the order is determined |
| MemberCatalogue.DescendingIsReversedAscending | src/MemberCatalogue.jsx:256-260 | with distinct keys, the descending order is the reverse of the ascending order |
| MemberCatalogue.CalculateTotals | src/MemberCatalogue.jsx:287-304 | the totals row is the sum of the selected-trimester vectors of the listed rows |
| MemberCatalogue.RowsTotalPermutation | src/MemberCatalogue.jsx:287-304 | the totals do not depend on the order of the rows |
| MemberCatalogue.FilteredAndSortedMembers | src/MemberCatalogue.jsx:202-264 | the rows shown are the admitted members with their hours, sorted by the chosen column |
| MemberCatalogue.FilterMembers | src/MemberCatalogue.jsx:203-224 | the filter pass keeps exactly the admitted members, in roster order |
| MemberCatalogue.KeepMember | src/MemberCatalogue.jsx:203-224 | the filter callback accepts a member exactly when the filters pass it |
| MemberCatalogue.AttachHours | src/MemberCatalogue.jsx:226-229 | the map pass pairs each member with their roll-up |
| MemberCatalogue.RenderCatalogue | src/MemberCatalogue.jsx:306-312 | only leaders and admins see the table, which lists the admitted members sorted, colours each row's cells by its selected-trimester hours with thresholds scaled by the number of trimesters selected, and has a totals row equal to the sum over them whatever the sort |
| UserManagement.FilteredUsers | src/UserManagement.jsx:265-275 | a user is listed iff the lower-cased search occurs in their name or e-mail and they match the status tab |
| UserManagement.SearchText | src/UserManagement.jsx:267 | the text searched is exactly the lower-cased first name, last name and e-mail joined by single spaces, so it has no upper-case letter |
| UserManagement.StatusMatches | src/UserManagement.jsx:271-273 | the pending tab takes unapproved users, the approved tab approved ones, and the all tab everyone |
| UserManagement.PendingCount | src/UserManagement.jsx:286 | the badge is at most the number of users, and zero iff every user is approved |
| UserManagement.PendingCountIsPendingTab | src/UserManagement.jsx:286 | the pending badge counts exactly the users the pending tab lists |
| UserManagement.TabsPartition | src/UserManagement.jsx:265-275 | the pending and approved tabs together list as many users as the all tab |
| UserManagement.ApproveSelected | src/UserManagement.jsx:68-86 | approval is sent iff some user is selected, and it approves exactly the selection |
| UserManagement.UnapproveSelected | src/UserManagement.jsx:88-119 | un-approval is sent iff the selection is non-empty, excludes oneself and holds no admin |
| UserManagement.RemoveSelected | src/UserManagement.jsx:121-146 | removal is sent iff the selection is non-empty, excludes oneself and is confirmed |
| UserManagement.Find | src/UserManagement.jsx:163 | a user found has the id asked for; none found means no user has it |
| UserManagement.UnapproveUser | src/UserManagement.jsx:162-185 | one user is un-approved iff it is not oneself and not a known admin |
| UserManagement.RemoveUser | src/UserManagement.jsx:244-262 | one user is removed iff it is not oneself and the removal is confirmed |
| UserManagement.ChangeRole | src/UserManagement.jsx:187-212 | a role change to member or leader is sent unless it demotes oneself; a promotion to admin sends nothing but opens the confirmation |
| UserManagement.NoSelfHarm | src/UserManagement.jsx:88-262 | no un-approval or removal request ever names the acting admin |
| UserManagement.UnapproveUserSparesAdmins | src/UserManagement.jsx:162-185 | with unique ids, an un-approval never targets a listed admin |
| UserManagement.FindFirst | src/UserManagement.jsx:163 | `find` returns the first user carrying the id, whatever comes after it |
| UserManagement.PromotionRequest | src/UserManagement.jsx:214-235 | a promotion to admin is sent iff the confirmation text is exactly "admin" |
| UserManagement.AdminOnlyThroughConfirmation | src/UserManagement.jsx:187-235 | the role dropdown never sends an admin role; only the confirmation does |
| UserManagement.SelectAllAsWritten | src/UserManagement.jsx:59-66 | as written: the selection is cleared when its size equals the number of visible users, and is otherwise exactly the visible users |
| UserManagement.SelectAll | src/UserManagement.jsx:59-66 | corrected select-all: it clears the selection iff exactly the visible users are selected, and otherwise selects exactly them |
| UserManagement.SelectAllAsWrittenClearsHiddenSelection | src/UserManagement.jsx:59-66 | as written, two hidden users selected against two visible ones clears the selection instead of selecting the visible ones |
| UserManagement.SelectAllAgreesOnVisibleSelection | src/UserManagement.jsx:59-66 | when the visible ids are distinct and the selection holds only visible users, the code as written and the corrected version agree |
| UserManagement.Management.constructor | src/UserManagement.jsx:10-13 | nothing selected, no confirmation open |
| UserManagement.Management.SelectUser | src/UserManagement.jsx:49-57 | a checkbox click flips exactly that user's selection |
| UserManagement.Management.SelectAllUsers | src/UserManagement.jsx:59-66 | the header checkbox applies the corrected select-all to the visible users (see Findings) |
| UserManagement.Management.Bulk | src/UserManagement.jsx:68-146 | a bulk request that is sent and succeeds clears the selection; otherwise the selection is kept |
| UserManagement.Management.ApproveSelectedUsers | src/UserManagement.jsx:68-86 | sends the approval decided for the selection and clears it on success; the promotion dialog is left as it was and stays consistent |
| UserManagement.Management.UnapproveSelectedUsers | src/UserManagement.jsx:88-119 | sends the un-approval decided for the selection and clears it on success; the promotion dialog is left as it was and stays consistent |
| UserManagement.Management.RemoveSelectedUsers | src/UserManagement.jsx:121-146 | sends the removal decided for the selection and clears it on success; the promotion dialog is left as it was and stays consistent |
| UserManagement.Management.ChangeUserRole | src/UserManagement.jsx:187-212 | a promotion to admin opens the confirmation for that user with an empty text; other changes leave it as it was |
| UserManagement.Management.TypeConfirmation | src/UserManagement.jsx:214-235 | the typed text is stored |
| UserManagement.Management.ConfirmAdminPromotion | src/UserManagement.jsx:214-235 | the promotion is sent only when the text is "admin", and then the confirmation closes and resets |
| UserManagement.Management.CancelAdminPromotion | src/UserManagement.jsx:237-241 | cancelling closes the confirmation and clears its text |
| Volunteer.IsCanvasBlank | src/Volunteer.jsx:213-229 | the scan reports blank iff there is no canvas or every pixel is the background colour (250, 249, 246, 255) |
| Volunteer.FillBackground | src/Volunteer.jsx:57-58 | filling with the background colour leaves a blank canvas |
| Volunteer.ClearSignature | src/Volunteer.jsx:287-293 | clearing a canvas leaves it blank |
| Volunteer.InitializeCanvas | src/Volunteer.jsx:48-58 | a new canvas has the fixed size and is blank |
| Volunteer.ClearedIsBlank | src/Volunteer.jsx:213-229 | the scan reports a cleared canvas as blank |
| Volunteer.OrNull | src/Volunteer.jsx:114-120 | an empty field is saved as null, any other text as itself |
| Volunteer.DataToSave | src/Volunteer.jsx:114-123 | the row saved has the status asked for, the hours and description typed, date, category and supervisor as `value \|\| null`, the trimester as read by `parseInt` (null when empty), and the canvas image when completing with a drawn signature, the typed signature or null otherwise |
| Volunteer.Submit | src/Volunteer.jsx:88-123 | an entry is saved iff it has a description and, when marked completed, every required field, positive hours and a drawn signature; the row saved is then `dataToSave` of the form |
| Volunteer.DatePart | src/Volunteer.jsx:165 | the date kept is the prefix of the stored date before the first "T" |
| Volunteer.FormOf | src/Volunteer.jsx:163-172 | the edit form keeps the hours and status, shows the date part of a stored date, a trimester that reads back as the stored one, and each other text field or empty text for null |
| Volunteer.DatePartOfPlainDate | src/Volunteer.jsx:165 | a date with no "T" is kept whole |
| Volunteer.EditThenSaveDraft | src/Volunteer.jsx:156-174 | loading a draft with a description and a plain date into the form, and saving it again as a draft, sends back the same entry |
| Volunteer.VolunteerPage.constructor | src/Volunteer.jsx:9-28 | an empty form, no entry being edited, the form hidden |
| Volunteer.VolunteerPage.Edit | src/Volunteer.jsx:156-174 | a completed entry is refused and nothing changes; a draft fills the form and opens it for editing |
| Volunteer.VolunteerPage.ResetForm | src/Volunteer.jsx:193-211 | the form is emptied and hidden and the canvas, when present, is blank |
| Volunteer.WithStatus | src/Volunteer.jsx:324-325 | the entries kept are exactly those with the given status |
| Volunteer.StatusSplit | src/Volunteer.jsx:324-325 | the in-progress and completed lists together hold every entry |
| Volunteer.TotalHours | src/Volunteer.jsx:306-310 | drafts contribute nothing, and with non-negative hours the total is non-negative |
| Volunteer.CategoryHours | src/Volunteer.jsx:312-316 | a category with no entries totals zero, and with non-negative hours a category's total lies between zero and the overall total |
| Volunteer.TotalIsCompletedTotal | src/Volunteer.jsx:306-310 | the total counts only completed entries |
| Volunteer.TotalIsCategorySum | src/Volunteer.jsx:306-316 | when every completed entry has one of the three categories, the total is the sum of the three category totals |
| SignatureReview.OrDefault | src/SignatureReview.jsx:70-71 | a missing or empty name falls back to the default |
| SignatureReview.Processed | src/SignatureReview.jsx:62-75 | each entry keeps its row; with a profile it gets that profile's first name ("Unknown" when empty or null), last name (empty when null) and grade; without one, "Unknown", no last name and no grade |
| SignatureReview.FilteredSignatures | src/SignatureReview.jsx:112-134 | a signature is listed iff it matches the search and every chosen trimester, category and grade filter, in the original order |
| SignatureReview.NoFiltersListsAll | src/SignatureReview.jsx:112-134 | with no search and every filter on "all", every signature is listed |
| SignatureReview.NumberFilterExact | src/SignatureReview.jsx:120-130 | a numeric filter chosen from the menu matches exactly the entries with that number |
| SignatureReview.Grades | src/SignatureReview.jsx:155-158 | the grades collected are exactly the non-null student grades |
| SignatureReview.UniqueGrades | src/SignatureReview.jsx:155-158 | the grade menu is strictly increasing and lists exactly the grades present |
| SignatureReview.CategoryLabel | src/SignatureReview.jsx:136-143 | known categories get their label; any other is shown as is |
| SignatureReview.CategoryColor | src/SignatureReview.jsx:145-152 | only an unknown category gets the fallback colour |
| SignatureReview.CategoryColorsDistinct | src/SignatureReview.jsx:145-152 | different known categories get different colours |
| SignatureReview.ReviewPage.constructor | src/SignatureReview.jsx:6-12 | no signatures, no card expanded, loading |
| SignatureReview.ReviewPage.Fetched | src/SignatureReview.jsx:37-77 | a successful query replaces the signatures with the processed rows and a failed one keeps them; loading ends |
| SignatureReview.ReviewPage.ToggleCard | src/SignatureReview.jsx:102-110 | the card's membership in the expanded set flips, and no other card's |
| SignatureReview.ReviewPage.Deleted | src/SignatureReview.jsx:93-97 | a deleted entry's card is no longer expanded |
| SignatureReview.ReviewPage.View | src/SignatureReview.jsx:160-170 | non-admins see the permission message, admins see the loading message exactly while loading and otherwise the filtered signatures and the grade menu |
| Calendar.MonthGrid | src/Calendar.jsx:158-167 | the grid has one empty cell per weekday before the 1st, then the days 1 to the month's length in order |
| Calendar.Pad2Value | src/Calendar.jsx:89 | a padded day or month has two digits and reads back as the number |
| Calendar.DateKey | src/Calendar.jsx:89 | a key is the year followed by "-", two characters, "-" and two characters, for a month from 0 to 11 and a day below 100 |
| Calendar.DateKeyParts | src/Calendar.jsx:89 | a date key is the year, "-", two month digits, "-", two day digits |
| Calendar.DateKeyInjective | src/Calendar.jsx:89 | different dates give different keys |
| Calendar.GroupByDate | src/Calendar.jsx:66-74 | the loop builds the grouping of events by date |
| Calendar.GroupedIsFilter | src/Calendar.jsx:66-74 | a day's events are exactly the events on that date, in query order |
| Calendar.GroupedKeys | src/Calendar.jsx:66-74 | a date has an entry iff some event falls on it |
| Calendar.PrevMonth | src/Calendar.jsx:169-171 | stepping back gives the month before, with the year adjusted |
| Calendar.NextMonth | src/Calendar.jsx:173-175 | stepping forward gives the month after, with the year adjusted |
| Calendar.StepsAreInverse | src/Calendar.jsx:169-175 | a step forward and a step back cancel, in either order |
| Calendar.CategoryLabel | src/Calendar.jsx:188-197 | known categories get their label; any other is shown as is |
| Calendar.CategoryColor | src/Calendar.jsx:177-186 | only an unknown category gets the fallback colour |
| Calendar.SubmitRequest | src/Calendar.jsx:114-143 | with a title and a date, add mode inserts the form with its author and edit mode updates the selected event; otherwise nothing is sent |
| Calendar.CalendarPage.constructor | src/Calendar.jsx:6-24 | the current month, no events, no role, the modal closed |
| Calendar.CalendarPage.CanManageEvents | src/Calendar.jsx:79 | admins and leaders may manage events; members, and anyone before the role is read, may not |
| Calendar.CalendarPage.RoleChecked | src/Calendar.jsx:42-56 | a role read replaces the one held; a failed read keeps it, and event management follows the role; nothing else changes |
| Calendar.CalendarPage.EventsFetched | src/Calendar.jsx:58-77 | a successful query replaces the events with their grouping by date; a failed one keeps them; nothing else changes |
| Calendar.CalendarPage.DayClick | src/Calendar.jsx:81-99 | a manager's click on a day opens an empty add form for that date; any other click changes nothing |
| Calendar.CalendarPage.EventClick | src/Calendar.jsx:101-112 | clicking an event opens it, in edit mode for managers and view mode for others; the month, events, role and selected date are kept |
| Calendar.CalendarPage.Submit | src/Calendar.jsx:114-143 | sends the request decided for the form; the modal closes only when a request was sent and succeeded; nothing else changes |
| Calendar.CalendarPage.CloseModal | src/Calendar.jsx:328-336 | the overlay, the close button and Close/Cancel hide the modal and change nothing else |
| Calendar.CalendarPage.ShowPrevMonth | src/Calendar.jsx:169-171 | the month shown steps back and nothing else changes |
| Calendar.CalendarPage.ShowNextMonth | src/Calendar.jsx:173-175 | the month shown steps forward and nothing else changes |
| Sidebar.Links | src/Sidebar.jsx:175-252 | a link appears iff its role and device condition holds; the dashboard comes first and settings last |
| Sidebar.LinksOpenPages | src/Sidebar.jsx:175-252 | every link shown to an approved user opens a page the router renders for them |
| Sidebar.PagesHaveLinks | src/Sidebar.jsx:175-252 | every member page the router renders for the user has a link, except My Hours for an admin and the calendar off phones |
| Sidebar.ShouldBeCollapsed | src/Sidebar.jsx:130 | between 769 and 1200 pixels the sidebar is collapsed; elsewhere it follows the saved state |
| Sidebar.LinkTextShown | src/Sidebar.jsx:182-251 | a link's text shows iff the sidebar is expanded or on a phone; the calendar's always does |
| Sidebar.SidebarState.constructor | src/Sidebar.jsx:23-24 | the saved state, collapsed on medium widths, the menu closed, phone mode below 769 pixels |
| Sidebar.SidebarState.Resize | src/Sidebar.jsx:92-108 | a medium width collapses the sidebar; other widths leave it |
| Sidebar.SidebarState.Toggle | src/Sidebar.jsx:123-127 | the toggle flips the sidebar only on desktop widths |
| Sidebar.SidebarState.CheckMobile | src/Sidebar.jsx:29-44 | phone mode follows the width, and leaving phone mode closes the menu |
| Sidebar.SidebarState.LinkClick | src/Sidebar.jsx:117-121 | following a link on a phone closes the menu |
| Sidebar.SidebarState.KeyDown | src/Sidebar.jsx:54-65 | Escape closes the menu; other keys leave it |
| Sidebar.SidebarState.CloseMenu | src/Sidebar.jsx:134-160 | clicking the overlay or the close button closes the menu |
| Sidebar.SidebarState.NavToggleClick | src/Sidebar.jsx:259-280 | the phone menu button flips the menu |
| Posts.Processed | src/Posts.jsx:60-71 | each post keeps its row and gets its replies (none when missing); it gets an author iff a profile with its author's id was fetched, and then the last such profile listed |
| Posts.CanManagePosts | src/Posts.jsx:16-17 | the post buttons are for admins and leaders only, never for someone without a loaded profile |
| Posts.ValidatePost | src/Posts.jsx:78-92 | a post is refused iff its title or description is blank after trimming, and the stored text is trimmed |
| Posts.BlankIsRefused | src/Posts.jsx:78-81 | a whitespace-only title is refused |
| Posts.StoredTextIsStable | src/Posts.jsx:78-92 | validating the stored text again accepts it unchanged |
| Posts.CreatePost | src/Posts.jsx:75-104 | a post is inserted iff it validates, by its author, with no replies |
| Posts.ReplyUpdate | src/Posts.jsx:166-199 | a non-blank reply is appended after the existing replies with the trimmed text, the replier's id, "first last" as the name and the time; a blank one is refused |
| Posts.RepliesOnlyGrow | src/Posts.jsx:166-199 | a run of replies never loses or changes an earlier reply |
| Posts.FormatDate | src/Posts.jsx:201-214 | ages under a minute, hour, day and week show "Just now", minutes, hours and days ago; older posts show the full date |
| Posts.TogglePost | src/Posts.jsx:162-164 | clicking the expanded post closes it; clicking another expands that one |
| Posts.PostsPage.Fetched | src/Posts.jsx:35-73 | a successful query replaces the posts with the processed rows and a failed one keeps them; nothing else changes |
| Posts.PostsPage.constructor | src/Posts.jsx:6-14 | no posts, nothing expanded or being edited, empty forms, the new-post form hidden |
| Posts.PostsPage.ToggleNewPost | src/Posts.jsx:224-227 | the button, shown to admins and leaders, shows or hides the new-post form; for others nothing changes |
| Posts.PostsPage.CreateNewPost | src/Posts.jsx:75-104 | sends the validated post; on success the form is emptied and hidden, otherwise it is kept |
| Posts.PostsPage.StartEditing | src/Posts.jsx:152-155 | editing a post, through the button shown to admins and leaders, loads its title and description; nothing else changes |
| Posts.PostsPage.CancelEditing | src/Posts.jsx:157-160 | cancelling empties the edit form and changes nothing else |
| Posts.PostsPage.UpdatePost | src/Posts.jsx:106-130 | sends the validated, trimmed text for the post `postId`, or the validation error; editing ends only on success; nothing else changes |
| Posts.PostsPage.Toggle | src/Posts.jsx:162-164 | the expanded post follows the toggle and nothing else changes |
| Posts.PostsPage.CreateReply | src/Posts.jsx:166-199 | sends the replies with the new one appended; the draft is cleared only on success; nothing else changes |
| Settings.UpdateData | src/Settings.jsx:39-47 | the names are always sent; an admin's grade is left out, and another user's grade is the number typed, or null when zero or not a number |
| Settings.FormOf | src/Settings.jsx:20-28 | the form shows the stored names, empty text for a missing name, an empty grade iff none or zero is stored, and a positive grade that reads back as itself |
| Settings.SaveUnchanged | src/Settings.jsx:20-47 | saving a non-admin profile unchanged sends its names and its non-zero grade back |
| Settings.PasswordChange | src/Settings.jsx:64-82 | a mismatch and a password under 6 UTF-16 code units are refused with their messages; otherwise the new password is sent |
| Settings.ThreeEmojiPass | src/Settings.jsx:72 | three emoji, six code units, pass the length check; five letters do not |
| Settings.DeleteConfirmed | src/Settings.jsx:94-109 | deletion goes ahead iff the prompt answer is exactly "DELETE" and the second confirmation is accepted |
| Settings.SettingsPage.constructor | src/Settings.jsx:9-18 | empty profile and password forms, no message |
| Settings.SettingsPage.ProfileArrived | src/Settings.jsx:20-28 | a profile fills the form, with empty text for missing fields |
| Settings.SettingsPage.ChangePassword | src/Settings.jsx:64-92 | a refusal or failure shows its error; success shows the confirmation and empties both password fields |
| Signup.GradeNumOf | src/Signup.jsx:24 | an empty grade is null, a grade `parseInt` reads is that number, and any other is NaN |
| Signup.SignUp | src/Signup.jsx:17-43 | sign-up is refused for different passwords or a grade outside 10-12; otherwise it sends the e-mail, password, names and grade |
| Signup.GradeNumeral | src/Signup.jsx:24-28 | with matching passwords and a numeral grade, sign-up proceeds iff the grade is 10, 11 or 12 |
| Signup.ExponentGrades | src/Signup.jsx:24-28 | ".1e2" (the value 10) reads as NaN, passes the range test and is sent; "1.1e1" (the value 11) reads as 1 and is refused |
| Text.Lower | src/MemberCatalogue.jsx:204-206 | an ASCII capital maps to its small letter and any other character to itself |
| Text.ToLower | src/MemberCatalogue.jsx:204-206 | lower-casing keeps the length and maps each letter A-Z to a-z |
| Text.ToLowerConcat | src/UserManagement.jsx:267 | lower-casing joined text is joining the lower-cased pieces |
| Text.ToLowerIdempotent | src/MemberCatalogue.jsx:204-206 | lower-casing twice is lower-casing once |
| Text.Contains | src/MemberCatalogue.jsx:207 | a text found is no longer than the text searched, and a prefix is always found |
| Text.ContainsIff | src/MemberCatalogue.jsx:207 | `includes` holds iff the text occurs at some position |
| Text.ContainsEmpty | src/MemberCatalogue.jsx:207 | every text includes the empty search |
| Text.Trim | src/Posts.jsx:78 | the trimmed text is no longer and has no white space at either end |
| Text.TrimRemovesOnlySpace | src/Posts.jsx:78 | the trimmed text is the slice after the leading white space, and only white space follows it |
| Text.TrimIsSlice | src/Posts.jsx:78 | the trimmed text occurs within the original |
| Text.TrimEmptyIff | src/Posts.jsx:78 | trimming gives empty text iff the text is all white space |
| Text.TrimIdempotent | src/Posts.jsx:78 | trimming twice is trimming once |
| Text.NatToString | src/MemberCatalogue.jsx:278 | a number prints as digits with no leading zero |
| Text.DigitsValueOfNatToString | src/MemberCatalogue.jsx:278 | the printed digits read back as the number |
| Text.LeadingDigits | src/Settings.jsx:46 | the digit run is the longest prefix of digits |
| Text.UnsignedPrefix | src/Settings.jsx:46 | a text starting with a digit reads as a non-negative number; any other gives NaN |
| Text.ParseInt | src/Settings.jsx:46 | for decimal text, NaN exactly when no digit follows the leading white space and optional sign; a negative result needs a minus sign |
| Text.ParseIntOfNatToString | src/Settings.jsx:46 | `parseInt` of a printed number is that number |
| Text.Utf16Length | src/Settings.jsx:72 | `.length` is between the number of characters and twice it, and equals it when every character is in the Basic Multilingual Plane |
| Text.Pad2 | src/Calendar.jsx:89 | a number below 10 is padded to two digits with a leading zero |
| Text.Join | src/MemberCatalogue.jsx:278 | no parts join to empty text and one part joins to itself |
| Text.JoinContainsParts | src/MemberCatalogue.jsx:278 | every part occurs in the joined text |
| Lists.SortNumbers | src/SignatureReview.jsx:156 | the numeric sort is a permutation of its input |
| Lists.InsertIncreasing | src/SignatureReview.jsx:156 | inserting a new value into an increasing list keeps it increasing |
| Lists.SortIncreasing | src/SignatureReview.jsx:156 | sorting an increasing list changes nothing |
| Lists.SortDistinctIncreasing | src/SignatureReview.jsx:156 | sorting distinct values gives a strictly increasing list of the same values |
| Lists.Filter | src/Volunteer.jsx:324-325 | the filtered list is a subsequence holding exactly the elements that pass |
| Lists.FilterAll | src/Volunteer.jsx:324-325 | a filter every element passes keeps the whole list |
| Lists.KeysOnce | src/SignatureReview.jsx:53 | the profile ids asked for (here and in src/Posts.jsx:50) are distinct and are exactly the authors of the rows fetched |
| Lists.Dedup | src/SignatureReview.jsx:53 | `[...new Set(...)]` keeps each element once, holds exactly the elements of the list, and is a subsequence of it |
| Lists.DedupFirstSeen | src/SignatureReview.jsx:53 | the elements are in first-seen order: each one listed occurs in the input before every occurrence of any later one |
| Lists.BuildIndex | src/SignatureReview.jsx:62-66 | the loop builds the map by key |
| Lists.IndexByKeys | src/SignatureReview.jsx:62-66 | a key is in the map iff some element has it |
| Lists.IndexByLast | src/SignatureReview.jsx:62-66 | for a repeated key the map holds the last element with that key |
| Roles.IsManager | src/Calendar.jsx:79 | the admin-or-leader test holds exactly for a known role other than member |

## Left out

- Supabase is not modelled: its queries, row-level security and realtime subscriptions are
  outside the model. Each handler's request is modelled, and its answer is a parameter.
- `src/Login.jsx` is not part of this model.
- `MemberCatalogue.fetchData` (`src/MemberCatalogue.jsx:56-80`) is only queries. The roster
  and the records it loads are inputs to `MemberCatalogue.RenderCatalogue`.
- The catalogue's loading screen is not modelled.
- The I/O-only handlers are not modelled, since they only send a query and refetch:
  - `handleApproveUser` (`src/UserManagement.jsx:148-160`), which has no client-side guard;
  - the delete handlers of `src/Volunteer.jsx`, `src/Calendar.jsx` and `src/Posts.jsx`.
  Deleting a signature is modelled only for its effect on the expanded cards
  (`SignatureReview.ReviewPage.Deleted`).
- The signature canvas is a byte array of RGBA pixels. Not modelled:
  - drawing strokes (`startDrawing`, `draw`, `stopDrawing`, `getCanvasCoordinates`);
  - copying the modal canvas (`saveModalSignature`);
  - `toDataURL`, which is an opaque image string passed in;
  - the asynchronous drawing of a stored signature in `initializeCanvas`.
- Hours are exact `real`s, so JavaScript floating point rounding and `toFixed` display are not
  modelled. `parseFloat` is a parameter: `None` stands for NaN.
- Dates and times are not modelled:
  - `new Date`, time zones and locale month names are left out;
  - `Calendar.MonthGrid` takes the weekday of the 1st and the month's length as inputs;
  - `Posts.FormatDate` takes the age in milliseconds as an input;
  - `isToday` and the month's event list `currentMonthEvents` (`src/Calendar.jsx:199-212`)
    are not modelled.
- MemberCatalogue.SortRows: the browser's sort algorithm is not modelled. The comparator never
  returns 0, so the order of rows with equal keys depends on the engine. The model proves that
  any result is sorted and a permutation, and that the order is determined when the keys are
  distinct (`MemberCatalogue.SortedUnique`).
- MemberCatalogue.ToggleFlips: JavaScript's `.sort()` without a comparator orders numbers by
  their text, but `MemberCatalogue.Toggle` sorts numerically. The two orders agree on the
  trimesters 1-3 and the grades 10-12 that the menus offer.
- Browser state is not modelled:
  - `localStorage` is the `savedCollapsed` argument of `Sidebar.SidebarState.constructor`;
  - the 100 ms debounce of `checkMobile` is taken as settled;
  - timed message clearing, scrolling and `window.location.reload` are left out.
- Text.ToLower: maps only ASCII letters. `Text.Trim` strips only ASCII white space. Unicode
  case mapping and Unicode white space are not modelled. String lengths are counted as
  JavaScript does, in UTF-16 code units (`Text.Utf16Length`), where the source compares one
  (`Settings.PasswordChange`).
- Signup.GradeNumOf: a grade that does not parse is `NotANumber`, and the model keeps it as
  such. NaN fails both range comparisons, so such a grade is sent. How the request body
  encodes NaN (JSON writes `null`) is not modelled.
- Signup.SignUp: models `handleSignUp` alone. The browser's own check of the number input
  (`min="10"`, `max="12"`, whole steps, `src/Signup.jsx:281-285`) runs before it and is not
  modelled, so inputs such as ".5" that the browser blocks are still accepted by the model. The
  values that pass the browser's check and are still misread, ".1e2" and "1.1e1", are in
  `Signup.ExponentGrades`.
- Access.Route: paths are compared exactly. React Router also matches them ignoring case
  and with a trailing slash ("/Users", "/users/"), which the model treats as unknown paths.
- UserManagement.Management.SelectAllUsers: applies the corrected select-all
  (`UserManagement.SelectAll`), not the size test at `src/UserManagement.jsx:61`. The code as
  written is `UserManagement.SelectAllAsWritten`, and the Findings table relates the two.
- UserManagement.SearchText: the user's names and e-mail are text; a null name, which the
  template literal would print as "null", is not modelled.
- Text.ParseInt: reads decimal digits only. Called without a radix, `parseInt` also reads a
  leading "0x" or "0X" as the start of a hexadecimal number ("0x1A" is 26, "0x" is NaN), where
  the model gives 0. None of the core's calls can receive such text: the grade at
  `src/Signup.jsx:281-285` comes from a number input, and the other calls
  (`src/Settings.jsx:46`, `src/Volunteer.jsx:118`, `src/SignatureReview.jsx:120` and `:128`)
  read values chosen from option lists.
- MemberCatalogue.StringLess: compares characters by code point. JavaScript's `<` and `>` on
  strings compare UTF-16 code units. The two orders agree unless one of the characters compared
  is above U+FFFF and the other is from U+E000 to U+FFFF ("\uFF21" against an emoji); that case
  is not modelled.
- MemberCatalogue.Admitted: a member's first and last names are text. The template literals at
  `src/MemberCatalogue.jsx:204` (search) and `:237` (the name sort, `MemberCatalogue.SortValueOf`)
  print a missing name as "null". So a search for "null" finds such a member, and the sort orders
  them by the word "null". Missing names are not modelled.
- Loading flags and dropdown-open flags only drive the display and are not modelled.

## Findings

| source | as written | input that shows it | evidently intended | confidence | as-written member | corrected member |
|---|---|---|---|---|---|---|
| src/UserManagement.jsx:59-66 | the select-all checkbox compares the size of the selection with the number of visible users and clears the selection when they are equal | users c and d selected, then a search showing only a and b: the click clears the selection, and a and b stay unselected | select the visible users unless exactly they are selected | medium, not executed | UserManagement.SelectAllAsWrittenClearsHiddenSelection | UserManagement.SelectAllAgreesOnVisibleSelection |
