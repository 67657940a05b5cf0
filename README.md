# Study-session booking site: a verified model of its scheduling and account logic

The site lets a student book revision sessions and keep a personal timetable.
A session has a date, a start and an end time, a subject, a venue and, for one
venue, a floor. Students register, sign in and edit their profile. All data
lives in the browser's storage: the `users` list, the shared `bookings` list,
one `timetables` list per user, and the signed-in `currentUser`. This project
models that logic in Dafny and proves what each page promises about it.

- **TimeArithmetic** (`time_arithmetic.dfy`) covers time of day and durations.
  `parseTime` reads a time as minutes, and a missing time counts as 0.
  `calculateDuration` prints `"{h}hr {m}min"`, `"{h}hr"`, `"{m}min"` or the
  empty text. Its output reads back as the exact number of minutes, and only
  those texts read back. The module also covers the zero-padded hour values of
  the time pickers and the hour-only 12-hour labels of `formatTime`.
- **Sessions** (`sessions.dfy`) models js/sessions.js.
  - Conflict detection is a loop proved equal to a filter. For sessions that
    run forward in time, the three-case overlap test means "the intervals
    share a minute", so conflicts are symmetric and back-to-back sessions
    never conflict.
  - The four-step form, with the rules for step 2 (times) and step 4 (floor).
  - The two time pickers.
  - Routing by study mode: "alone" goes to the owner's timetable, every other
    mode goes to the bookings list.
  - `deleteBooking`, which removes only the first record with the id.
  - The page state is the class `BookingPage`.
- **Timetable** (`timetable.dfy`) models js/timetable.js.
  - `groupByDate`: each group holds that date's sessions, in input order.
  - Deletion removes every record with the id.
  - The edit modal's `editingSessionId` state.
  - `saveEditedSession`: a field-wise merge at the first index with the id,
    and nothing else changes. The page state is the class `TimetablePage`.
- **AuthStore** (`auth.dfy`) models js/auth.js, the class `Auth`.
  - `hashPassword` is the rolling hash `h = int32(31 * h + unit)` over UTF-16
    code units. It is modelled with the source's shift and its explicit
    32-bit wrap-around.
  - Register and login over the users list.
  - Usernames and e-mails stay unique.
- **EmailAddress** (`email.dfy`) is the address check
  `^[^\s@]+@[^\s@]+\.[^\s@]+$`. It is proved equal to a decomposition of the
  address into its plain runs.
- **Register** (`register.dfy`) models js/register.js: the ordered checks,
  then registration and an automatic login.
- **Profile** (`profile.dfy`) models js/profile.js.
  - The ordered checks of the profile form.
  - The in-place update of the account record, and the relabelling of the
    account's bookings (a loop).
  - The upcoming and completed counters.
  - The five most recent bookings.
- **LegacyScript** (`legacy_script.dfy`) models the single-page script
  script.js.
  - A 16-entry slot table, built by a loop.
  - The e-mail sign-in gate.
  - Append-only bookings.
- **Translations** (`translations.dfy`) models js/translations.js: the Arabic
  table, kept in its source sections, and the lookup `t` with its fallback to
  the key.

Shared modules: **Records**, the session and user records and the lookup by
id; **Text**, decimal text, JavaScript white space, `trim` and UTF-16 length;
**Seqs**, a filter with its order and length lemmas; **Wrappers**, `Option`
and `Result`.

The model takes these as parameters:
- ids and timestamps (`Date.now()`, `new Date()`);
- the current instant;
- the answer to `confirm()`;
- the stored study-mode preference;
- the stored language;
- `new Date(date)`, as a function that is `None` for an invalid date.

Form times are `Option<TimeOfDay>`, with `None` for an empty field. Stored
lists and maps are class fields.

## Model

| member | source | states |
|---|---|---|
| Text.Trim | js/register.js:30-31 | the trimmed text is a contiguous slice of the input with only white space before and after it, and has no white space at either end; text without white space is unchanged, and all-white text becomes empty |
| Text.CodeUnits | js/auth.js:86-87 | every UTF-16 unit is below 0x10000, there are between one and two units per character, and exactly one per character when every character is below U+10000 |
| Text.UnitsOf | js/auth.js:87 | a character below U+10000 is its own single unit; any other character takes two units |
| Text.SurrogatePairDecodes | js/auth.js:87 | above U+FFFF the two units are a high surrogate and a low surrogate, and decoding the pair gives back the character |
| Text.CodeUnitsConcat | js/auth.js:86-87 | the units of a concatenation are the units of the first part followed by those of the second |
| Text.CodeUnitsCount | js/auth.js:86 | the `length` is the number of characters plus the number of characters at or above U+10000 |
| Text.NatTextValue | js/sessions.js:444-449 | the decimal text printed for a number reads back as that number |
| TimeArithmetic.ParseTime | js/sessions.js:249-253 | an empty time gives 0; otherwise the minutes m satisfy m / 60 = hour and m % 60 = minute, and m < 1440 |
| TimeArithmetic.PadStartShape | js/sessions.js:375 | the padded text has length max(len, \|s\|), ends with s, and is filled before s with the pad character |
| TimeArithmetic.SlotValueParses | js/sessions.js:375 | the zero-padded "HH:00" value of every hour 0..23 reads back as that hour, minute 0 |
| TimeArithmetic.DurationRoundTrip | js/sessions.js:441-450 | for every positive duration d, reading the printed hours and minutes back gives d |
| TimeArithmetic.DurationCanonical | js/sessions.js:444-450 | every text that reads back as a duration is exactly the text printed for it: no zero part, no leading zero, minutes below 60 |
| TimeArithmetic.CalculateDuration | js/sessions.js:429-438 | `calculateDuration`; its meaning is stated by TimeArithmetic.CalculateDurationMeaning, and its inverse by TimeArithmetic.DurationRoundTrip and TimeArithmetic.DurationCanonical |
| TimeArithmetic.CalculateDurationMeaning | js/sessions.js:429-451 | the duration is empty exactly when a time is missing or end ≤ start; otherwise it reads back as end minus start minutes |
| TimeArithmetic.Clock12LabelRoundTrip | js/sessions.js:623-630 | each hour 0..23 has its own 12-hour label, which reads back as that hour |
| TimeArithmetic.Clock12Label | js/sessions.js:623-630 | `formatTime`; stated by TimeArithmetic.Clock12LabelRoundTrip (reads back as its hour) and TimeArithmetic.Clock12LabelMeridiem |
| TimeArithmetic.Clock12LabelMeridiem | js/sessions.js:626-629 | a label says AM exactly for the hours before noon |
| TimeArithmetic.FormatTimeOrNAMissing | js/timetable.js:298-306 | `formatTime` returns "N/A" exactly for an empty time, and a present time is never formatted as "N/A" |
| TimeArithmetic.EndOptionLabelAgrees | js/sessions.js:416-420 | the end picker labels every hour ≥ 1 exactly as `formatTime` does |
| Records.FindIndexById | js/sessions.js:633 | the first index whose record has the id; -1 exactly when no record has it |
| Records.FindUserIndexById | js/profile.js:189 | the first index whose account has the id; -1 exactly when no account has it |
| Sessions.ThreeCaseIsIntervalOverlap | js/sessions.js:238-240 | for two proper intervals, the three-case test holds exactly when the intervals overlap (s1 < e2 and s2 < e1) |
| Sessions.CheckTimetableConflicts | js/sessions.js:227-247 | the loop returns exactly the filter of the existing sessions by "same date, other id, overlapping" |
| Sessions.ConflictsOfMeaning | js/sessions.js:232-244 | every reported conflict is a stored session that conflicts; every stored session that conflicts is reported; the stored order is kept |
| Sessions.ConflictSymmetric | js/sessions.js:238-240 | between sessions that run forward in time, a conflicts with b exactly when b conflicts with a |
| Sessions.BackToBackNoConflict | js/sessions.js:238-240 | a session starting the minute another ends conflicts with it in neither direction |
| Sessions.ValidateStep | js/sessions.js:297-330 | `validateStep`; stated by Sessions.StepTwoMeansPositiveDuration, Sessions.StepTwoComparesHoursOnly and Sessions.OfferedEndPassesStepTwo |
| Sessions.StepTwoMeansPositiveDuration | js/sessions.js:305-330 | passing step 2 means both times are present, start < end, and the duration is non-empty |
| Sessions.StepTwoComparesHoursOnly | js/sessions.js:316-319 | 09:00–09:30 is rejected by step 2 although its duration is positive |
| Sessions.ResolveStudyMode | js/sessions.js:121-124 | the mode is the saved preference, else the page-wide mode, else "alone"; it is never empty |
| Sessions.NewBookingFields | js/sessions.js:100-118 | the new record carries the owner, the form's date and times, an empty floor as null, and a duration that is empty exactly when the times are missing or not forward |
| Sessions.WithAppended | js/sessions.js:139-150 | the owner's list (created empty when absent) gains the session at its end; every other owner's list is unchanged |
| Sessions.RemoveFirstWithId | js/sessions.js:632-639 | with no record having the id, the list is unchanged; otherwise only the first such record is removed and the rest keep their order |
| Sessions.RemoveFirstDropsOne | js/sessions.js:633-635 | removing the first match shortens the list by one and removes exactly that record from the multiset |
| Sessions.InitializeTimeSlots | js/sessions.js:369-384 | the start picker offers hours 0..23 in order, each with its "HH:00" value and its 12-hour label |
| Sessions.UpdateEndTimeOptions | js/sessions.js:399-427 | no start gives no options; otherwise the options are the hours start+1..23 in order, with value and label |
| Sessions.StartOptionsAreTheDay | js/sessions.js:374-383 | every start option's value reads back as its hour, and its label reads back as the same hour |
| Sessions.OfferedEndPassesStepTwo | js/sessions.js:414-426 | any end option offered for a start passes the time rule of step 2 and gives a non-empty duration |
| Sessions.BookingPage.constructor | js/sessions.js:11-12 | the form starts at step 1 over the stored bookings and timetables |
| Sessions.BookingPage.GoToStep | js/sessions.js:264-282 | a target outside 1..4 is ignored, so the step stays within 1..4 |
| Sessions.BookingPage.NextStep | js/sessions.js:76-82 | the step advances by one exactly when the current step validates and is below 4 |
| Sessions.BookingPage.PrevStep | js/sessions.js:84-88 | the step goes back by one unless it is already 1 |
| Sessions.BookingPage.AddToTimetable | js/sessions.js:138-175 | conflicts are computed against the owner's list before the append; the session is appended even when conflicts exist; other owners are unchanged; the form returns to step 1 |
| Sessions.BookingPage.AddBooking | js/sessions.js:177-180 | exactly one booking is appended and all earlier ones are kept; the form returns to step 1 |
| Sessions.BookingPage.DeleteBooking | js/sessions.js:632-639 | the bookings become the list with only the first record having the id removed |
| Sessions.BookingPage.Submit | js/sessions.js:92-135 | a failing step 4 changes nothing; otherwise mode "alone" appends to the owner's timetable and reports its conflicts, and every other mode appends to the bookings list |
| Timetable.GroupByDate | js/timetable.js:76-84 | `groupByDate`; stated by Timetable.GroupByDateKeys and Timetable.GroupByDateGroups |
| Timetable.GroupByDateKeys | js/timetable.js:76-84 | there is a group for a date exactly when some session has that date |
| Timetable.GroupByDateGroups | js/timetable.js:76-84 | each group is exactly the sessions of its date, in input order, so each session is in the group of its own date |
| Timetable.RemoveAllWithId | js/timetable.js:268 | no kept record has the id, and every record with another id is kept |
| Timetable.RemoveAllKeepsOthersInOrder | js/timetable.js:268 | the kept records are a subsequence of the list, and kept plus removed records add up to the list's length |
| Timetable.RemoveAllAbsent | js/timetable.js:268 | deleting an id that no record has changes nothing |
| Timetable.RemoveAllIdempotent | js/timetable.js:268 | deleting the same id twice is deleting it once |
| Timetable.FirstMatchVersusAllMatches | js/timetable.js:262-269 | with two records sharing an id, the booking page's delete keeps the later one, and the timetable page's delete removes it |
| Timetable.MergeEdit | js/timetable.js:240-253 | the record built by the edit; stated field by field by Timetable.MergeEditFields |
| Timetable.MergeEditFields | js/timetable.js:240-253 | the edit keeps id, owner, creation time and study mode; it takes date, times, subject and venue from the form, turns an empty floor into null, and stores an empty duration exactly when the times are missing or not forward |
| Timetable.ApplyEdit | js/timetable.js:237-253 | same length and ids; only the first record with the id changes; a missing id changes nothing |
| Timetable.ApplyEditKeepsPosition | js/timetable.js:237-253 | after an edit, the session is found at the same index |
| Timetable.TimetablePage.constructor | js/timetable.js:17 | no session is being edited when the page loads |
| Timetable.TimetablePage.OpenEditModal | js/timetable.js:151-158 | the id is remembered only when the user's list holds that session |
| Timetable.TimetablePage.CloseEditModal | js/timetable.js:220-221 | no session is being edited afterwards |
| Timetable.TimetablePage.SaveEditedSession | js/timetable.js:230-258 | with no id, or an id no longer in the list, nothing changes; otherwise only that record of the user's list is replaced by the merge, other users are unchanged, and the modal closes |
| Timetable.TimetablePage.DeleteSession | js/timetable.js:262-269 | unconfirmed, nothing changes; confirmed, the user's list loses every record with the id, and other users are unchanged |
| AuthStore.ToInt32 | js/auth.js:89 | the result is a 32-bit signed integer, and equals the input when the input fits |
| AuthStore.ToInt32Congruent | js/auth.js:89 | the result differs from the input by a multiple of 2^32 |
| AuthStore.ShiftStepIsTimes31 | js/auth.js:88-89 | one step `(h << 5) - h + c` followed by `h & h` equals int32(31 h + c) |
| AuthStore.HashOfUnits | js/auth.js:85-90 | the hash is always a 32-bit signed integer |
| AuthStore.HashPassword | js/auth.js:83-92 | the loop computes the decimal text of the left fold h = int32(31 h + unit) from 0 |
| AuthStore.EmptyPasswordHash | js/auth.js:85-91 | the empty password hashes to "0" |
| AuthStore.HashAppend | js/auth.js:86-90 | appending a character below U+10000 is one more step of the fold |
| AuthStore.HashCollision | js/auth.js:83-92 | "Aa" and "BB" have the same hash |
| AuthStore.RegisterKeepsAccountsUnique | js/auth.js:20-45 | registration keeps usernames and e-mails unique and keeps every earlier account; on success it adds exactly one account, which holds the password's hash |
| AuthStore.FindLogin | js/auth.js:49-51 | None exactly when no account has that username and hash; otherwise the first such account |
| AuthStore.RegisterThenLogin | js/register.js:68-73 | right after a successful registration, logging in with the same credentials finds the new account |
| AuthStore.Auth.constructor | js/auth.js:3-6 | the users and the current user are the stored ones |
| AuthStore.Auth.Register | js/auth.js:20-45 | a taken username fails first, then a taken e-mail, and both leave the users unchanged; otherwise the new account is appended and returned |
| AuthStore.Auth.Login | js/auth.js:48-62 | failure leaves the current user unchanged; success makes the first matching account the current user |
| AuthStore.Auth.Logout | js/auth.js:65-67 | nobody is signed in afterwards |
| AuthStore.Auth.IsAuthenticated | js/auth.js:78-80 | `isAuthenticated`: someone is signed in; AuthStore.Auth.ProtectRoute states its use |
| AuthStore.Auth.ProtectRoute | js/auth.js:95-101 | the page may stay exactly when someone is signed in |
| EmailAddress.IsValidEmailMatchesPattern | js/register.js:90-92 | the check accepts exactly the texts made of a plain run, '@', a plain run, '.', and a plain run, each non-empty and each without white space or '@' |
| EmailAddress.ValidEmailIsTrimmed | js/register.js:90-92 | a valid address has no white space at either end |
| Register.RegistrationAcceptedIff | js/register.js:41-65 | the form passes exactly when all fields are filled, the username has ≥ 3 units, the e-mail matches, the password has ≥ 6 units and the confirmation repeats it |
| Register.EmptyFieldReportedFirst | js/register.js:42-45 | an empty field is reported before anything else |
| Register.SubmitRegistration | js/register.js:27-79 | a failed check leaves the store untouched; otherwise the store is updated as registration answers, a refusal is shown, and a new account is signed in |
| Register.RegisterAndSignIn | js/register.js:67-79 | the store is updated as registration answers; a refusal shows the store's message and leaves the signed-in user alone; a new account is signed in at once |
| Profile.ProfileAcceptedIff | js/profile.js:128-194 | an update goes through exactly when the username has 3..20 letters, digits or underscores, the e-mail matches, a changed username or e-mail is not another account's, a new password (if any) is long enough, confirmed and authorised, and the account exists |
| Profile.AcceptedFindsAccount | js/profile.js:188-194 | an accepted update has found the account's stored record |
| Profile.ProfileUpdateKeepsAccountsUnique | js/profile.js:145-202 | assume the stored accounts have unique usernames, unique e-mails and distinct ids, and the page's snapshot is the stored record; then an accepted update keeps usernames and e-mails unique |
| Profile.Relabeled | js/profile.js:210-216 | the account's bookings get the new username and e-mail, and all other bookings are unchanged |
| Profile.RelabelOwnBookings | js/profile.js:210-216 | the loop produces exactly that relabelled list |
| Profile.RelabelKeepsIdentity | js/profile.js:211-216 | relabelling keeps every booking's id and owner, and relabelling twice is relabelling once |
| Profile.UserStatsPartition | js/profile.js:37-50 | upcoming and completed never count a booking twice; when every date is valid, they add up to the total |
| Profile.InsertByTime | js/profile.js:65 | inserting into a newest-first list keeps it newest-first and adds exactly that booking |
| Profile.SortNewestFirst | js/profile.js:65 | the sort result is newest-first and a permutation of the input |
| Profile.RecentBookingsShape | js/profile.js:61-66 | the recent list holds min(5, n) of the account's own bookings, newest first |
| Profile.RecentBookingsAreNewest | js/profile.js:64-66 | no own booking left out of the recent list is newer than one that is shown |
| Profile.ProfilePage.constructor | js/profile.js:3 | the page starts from the signed-in account and the stored lists |
| Profile.ProfilePage.HandleProfileUpdate | js/profile.js:107-217 | a failed check changes nothing; otherwise only the account's record changes (a new password hash only when one is given), it becomes the current user, and its bookings are relabelled |
| Profile.ProfilePage.ApplyUpdate | js/profile.js:196-217 | the stored record, the current user and the bookings receive exactly the update |
| LegacyScript.LegacySlotLabelReadsBack | script.js:8 | every slot label reads back as its own hour, except noon's, which reads back as midnight |
| LegacyScript.NoonLabelledAM | script.js:8 | the slot for hour 12 is labelled "12:00 AM", while the other pages label it "12:00 PM" |
| LegacyScript.LegacySlotLabelAgreesOffNoon | script.js:8 | for every hour ≥ 1 other than noon, the slot label is the other pages' label |
| LegacyScript.BuildTimeSlots | script.js:6-11 | 16 slots for hours 7..22, in ascending order; each value reads back as its hour, and each label as its hour except at noon |
| LegacyScript.LoginGate | script.js:59-60 | the sign-in accepts exactly the trimmed inputs that match the address pattern |
| LegacyScript.LegacyPage.constructor | script.js:14-22 | a remembered e-mail signs in at once; the stored bookings are loaded |
| LegacyScript.LegacyPage.HandleLogin | script.js:55-68 | the trimmed input becomes the e-mail in use, whatever it is; only a valid address is remembered and opens the booking form |
| LegacyScript.LegacyPage.HandleBooking | script.js:115-140 | an empty date, time or subject adds nothing; otherwise exactly one booking is appended and earlier ones are kept |
| Translations.CurrentLanguage | js/translations.js:142 | the language is the argument, else the stored choice, else "en"; it is never empty |
| Translations.AllEntriesFilled | js/translations.js:3-137 | every entry of the Arabic table is non-empty |
| Translations.LookupMeaning | js/translations.js:141-147 | over a table whose entries are all non-empty, the lookup gives the entry exactly when Arabic is in force and the key is present, and the key otherwise |
| Translations.T | js/translations.js:141-147 | `t`; stated by Translations.TranslateMeaning and Translations.StoredLanguageApplies |
| Translations.TranslateMeaning | js/translations.js:141-147 | with Arabic in force and the key in the table, `t` gives the entry; otherwise it gives the key unchanged |
| Translations.HomeEntry | js/translations.js:68 | the table's entry for "Home" is the one in the venues section |
| Translations.HomeEntriesDiffer | js/translations.js:5 | the navigation section's text for "Home" differs from the venues section's |
| Translations.HomeTakesLaterEntry | js/translations.js:68 | in Arabic, "Home" is shown with the venues section's text |
| Translations.MyTimetableEntry | js/translations.js:75 | the table's entry for "My Timetable" is the one in the timetable section |
| Translations.MyTimetableEntriesEqual | js/translations.js:9 | the navigation and timetable sections give "My Timetable" the same text |
| Translations.MyTimetableEntriesAgree | js/translations.js:75 | in Arabic, "My Timetable" is shown with the timetable section's text (equal to the navigation section's, see MyTimetableEntriesEqual) |
| Translations.StoredLanguageApplies | js/translations.js:142 | with no language passed, the stored choice acts as if it had been passed; a passed language overrides the stored one |

## Left out

- Sending e-mail and notifications is not modelled: `sendBookingEmail` and its fallbacks in js/sessions.js, and `sendLoginNotification`, `sendBookingNotification` and `sendToBackend` in script.js. These are network calls.
- DOM rendering and page wiring are not modelled:
  - `displayBookings` and `generateTimetableHTML`;
  - the modals and success messages;
  - `updatePageForStudyMode`, which is defined twice in js/sessions.js;
  - `updatePageLanguage`;
  - `updateDuration`, `populateTimeSlots` and the redirects.
- Reading and writing browser storage as JSON is not modelled. The stores are in-memory fields.
- Dates are not modelled: `formatDate`, the locale formatting and the clock are parameters. `new Date(date)` is a function parameter.
- `alert`, `confirm` and `setTimeout` are not modelled. A confirmation is a boolean argument.
- The admin helpers and the export of bookings and timetables are not modelled. They only read and download data.
- js/home.js and the other page scripts are not modelled. They hold no logic of the core.
- Sessions.ValidateStep: the check that a step's other `required` inputs are filled is a boolean parameter, because it reads the DOM. Only the time rule of step 2 and the floor rule of step 4 are modelled.
- Sessions.BookingPage.Submit: the submit handler re-validates only step 4, as the source does. The owner is the signed-in account, because the pages redirect visitors who are not signed in.
- TimeArithmetic.ParseTime: malformed time texts, which give NaN in the source, are not modelled. Times come from a time picker, so a time is either absent or a valid hour and minute.
- The legacy `booking.time` field that the profile page falls back to is not modelled. It is shown only.
- TimeArithmetic.FormatTimeOrNA: the display code does not reach its "N/A" branch for a missing time, and this is not modelled. The display calls `formatTime(session.time || session.startTime || 'N/A')` (js/timetable.js:103, js/profile.js:84, js/sessions.js:687, 757 and 961). A missing time therefore passes the text 'N/A' into `formatTime`, where `parseInt` gives NaN and the page shows "NaN:00 AM". The model covers only `formatTime` on its own. JavaScript's NaN arithmetic is not modelled, because a time is either absent or a valid hour and minute.
- Profile.SortNewestFirst: the sort is modelled as an insertion sort. Its order among bookings with equal timestamps is not claimed to match the browser's.
- Records.Session: a null venue is the empty text. The timestamp is an integer instant rather than its ISO text, because only its order is used. js/sessions.js keeps its own copy of `groupByDate`, and Timetable.GroupByDate models both copies.
- Translations.T: keys inherited by every JavaScript object (such as "constructor") are not modelled. For such a key the source returns a function rather than the key.
- Profile.ProfilePage: the page's copy of the signed-in user is read once at load and never refreshed, so its checks compare against that snapshot. Profile.ProfileUpdateKeepsAccountsUnique therefore requires the snapshot to match the stored record.
- Profile.ProfileUpdateKeepsAccountsUnique also requires the stored account ids to be distinct. The source makes ids from the clock (`Date.now().toString()`, js/auth.js:33), and AuthStore.Auth.Register takes the id as a parameter, so nothing in the model guarantees distinct ids.
- The timetable edit does not check the order of the times or conflicts. Timetable.MergeEditFields states that it stores an empty duration instead.

## Findings

| source | as written | input that shows it | evidently intended | confidence | as-written member | corrected member |
|---|---|---|---|---|---|---|
| script.js:8 | only hours above 12 get "PM", so hour 12 is labelled "12:00 AM" | hour 12: the slot "12:00" is shown as "12:00 AM", which reads back as midnight | noon is "12:00 PM", as `formatTime` in js/sessions.js:627 prints it | not executed | LegacyScript.NoonLabelledAM | TimeArithmetic.Clock12LabelMeridiem |
