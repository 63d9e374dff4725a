# chat-app core, modelled in Dafny

This project models the client-side logic of a React/Firestore chat
application, with one module per source file:

- **`UserUtil`** covers three things:
  - the account record `createUserAccount` builds;
  - the friendship decisions of `isFriend` and `getAllFriendshipLinks`;
  - the "last active" formatter, which turns the time since a user's
    `lastSeen` into one of seven strings ("Active now", "Active 5m ago", ...).
- **`ChatUtil`** covers:
  - the collection names;
  - the chat documents `createChatRoom` builds;
  - the in-place message edit and delete scans `updateMessage` and
    `deleteMessage`, including their loop bound, which never examines the last
    message.
- **`ChatListFilter`** covers:
  - the chat-type and title constants;
  - the snapshot-to-chat mapping;
  - the stable merge of group and private chats, newest first, that every feed
    update publishes.
- **`ChatDashboard`** covers the dashboard's chat state:
  - the visible list narrowed to the selected type, with the effect that
    re-applies it;
  - chat and friend selection;
  - `animateChatOpen` and `isPrivateChatSelected`;
  - the friend ids `fetchAllFriends` looks up.
- **`UserActivity`** covers the presence tracker `useUserActivity`. It is a
  state machine over `isActive`, the last update time, the
  recently-inactive flag and a single pending two-minute timer. Its events are
  interactions, effect re-runs, the timer firing, and unmount.
- **`CustomSelect`** covers the drop-down. The arrow keys move the focused
  index with JavaScript's truncating `%`, including the `NaN` that a
  zero-option list produces. Enter and Space select, Escape closes, and
  `toggleDropdown` opens and closes the list.
- **`Register`** covers:
  - the password and email regular expressions, written as explicit
    predicates and proved equal to the scanning checks;
  - the letters-only full-name rule;
  - the check order of `signUp`.
- **`SearchBar`** covers the filtering of search results, which excludes the
  searching user, and the 500 ms debounce.
- **`Search`** covers the mapping from results to options, open exactly when
  there are results, and the lookup of a chosen option.
- **`PrivateChat`** covers the conversation view:
  - sending a message, creating the private chat on first use;
  - edit and remove;
  - the chat-change effect;
  - the friend's last-active flag.
- **`App`** covers the `onUserActive` callback, which stamps the user with a
  status and a last-seen time and sends one status write.
- **`Common`** holds the records shared by all modules, plus these helpers:
  - decimal rendering of counts (`String(n)`);
  - ASCII lower-casing;
  - first-occurrence `replace`.

Time is an integer number of milliseconds, passed in as `now`. Store
timestamps are `Stored(seconds)` and client `Date`s are `LocalDate(millis)`.
The following become parameters:

- ids the store assigns;
- query results;
- the outcome of external calls that can fail.

React state that a component updates in place becomes a class field, and an
effect becomes a method that runs when its dependencies change.

## Model

| member | source | states |
|---|---|---|
| Common.DecimalDigits | src/utils/userUtil.js:237-260 | the count substituted into a template is a non-empty string of decimal digits with no leading zero |
| Common.DecimalRoundTrip | src/utils/userUtil.js:237-260 | reading the rendered digits back gives the count |
| Common.DecimalInjective | src/utils/userUtil.js:237-260 | distinct counts render as distinct strings |
| Common.AsciiLower | src/utils/userUtil.js:21 | lower-casing keeps the length and maps each upper-case ASCII letter to its lower-case form, leaving every other character |
| Common.AsciiLowerIdempotent | src/utils/userUtil.js:21 | lower-casing a lower-cased name changes nothing |
| Common.ReplaceFirstAfter | src/utils/userUtil.js:239 | `replace("{0}", n)` on "prefix{0}suffix" whose prefix has no '{' gives prefix + n + suffix |
| UserUtil.CreateUserAccount | src/utils/userUtil.js:6-43 | an existing record is returned as found; a new one has id = the generated `_id`, the store's row id, `fullname_lower` = lower-case fullname, `lastSeen` = `createdAt` = now, status "online", authenticated, profile.jpg, and the given username/email/password/provider |
| UserUtil.NewAccountSearchKeyStable | src/utils/userUtil.js:21 | a new account's lower-case name holds no upper-case ASCII letter and is unchanged by lower-casing again |
| UserUtil.IsFriend | src/utils/userUtil.js:87-106 | friends iff a link exists in either direction; when friends, a link runs from user1 to user2; with no link or a forward link the pair is (user, friend); the pair is always {user, friend} |
| UserUtil.LinksWithUserId1 | src/utils/userUtil.js:62 | exactly the stored links whose userId1 is the id |
| UserUtil.LinksWithUserId2 | src/utils/userUtil.js:63 | exactly the stored links whose userId2 is the id |
| UserUtil.LinkData.constructor | src/utils/userUtil.js:72 | each `doc.data()` is a new object holding the link's fields |
| UserUtil.AppendSnapshot | src/utils/userUtil.js:71-82 | each snapshot loop keeps the links so far and appends every document's new `data` object in order, since `includes` never finds a new object |
| UserUtil.GetAllFriendshipLinks | src/utils/userUtil.js:61-85 | the result lists the first query's links and then the second's, in order and none skipped, because the `includes` guard compares new objects by reference; every link has the user at one end |
| UserUtil.LinksTouchUser | src/utils/userUtil.js:62-63 | every link either query returns touches the user |
| UserUtil.SelfLinkReturnedTwice | src/utils/userUtil.js:71-82 | a link from the user to themself is returned at least twice |
| UserUtil.Bucket | src/utils/userUtil.js:231-261 | "now" iff elapsed < 60 s, including negative elapsed time; otherwise the unit whose range holds the elapsed time, with count = floor(elapsed / unit), 1 <= count and count below the next unit's size in this unit |
| UserUtil.TemplateShape | src/utils/userUtil.js:215-224 | every "ago" template is "Active ", the "{0}" placeholder and the unit's suffix |
| UserUtil.RenderAgo | src/utils/userUtil.js:215-224 | each "ago" string is "Active " + the count's digits + the unit suffix (m, h, d, wk, mo, y) |
| UserUtil.RenderIsNowText | src/utils/userUtil.js:215-224 | only the "now" bucket renders as "Active now", and no bucket renders as the empty string |
| UserUtil.GetUserLastActive | src/utils/userUtil.js:226-265 | "" iff the user or a store `lastSeen` is missing; "Active now" iff `lastSeen` is present and under 60 s old |
| UserUtil.OneMinuteText | src/utils/userUtil.js:218 | one minute renders as "Active 1m ago" |
| UserUtil.FiftyNineMinutesText | src/utils/userUtil.js:218 | 59 minutes render as "Active 59m ago" |
| UserUtil.OneHourText | src/utils/userUtil.js:219 | one hour renders as "Active 1h ago" |
| UserUtil.ElapsedText | src/utils/userUtil.js:231-261 | the text for a present `lastSeen` is "Active now" iff under 60 s have elapsed, and never the empty string |
| UserUtil.SomeUnit | src/utils/userUtil.js:236-261 | every elapsed time of a minute or more lies in some unit's range; the last case has no upper bound |
| UserUtil.BucketOfUnit | src/utils/userUtil.js:236-261 | an elapsed time in a unit's range is counted in that unit, with count = floor(elapsed / unit) |
| UserUtil.ElapsedAgo | src/utils/userUtil.js:236-261 | an elapsed time in a unit's range renders as "Active " + floor(elapsed / unit) + the unit's suffix |
| UserUtil.AgoText | src/utils/userUtil.js:226-265 | for a user with a stored `lastSeen` whose elapsed time lies in a unit's range, `getUserLastActive` is "Active " + floor(elapsed / unit) + the unit's suffix |
| UserUtil.BucketBoundaries | src/utils/userUtil.js:233-244 | 59 s, 60 s, 3599 s and 3600 s elapsed give "Active now", "Active 1m ago", "Active 59m ago" and "Active 1h ago" |
| ChatUtil.ChatCollectionName | src/utils/chatUtil.js:6-14 | "groupChat" for group, "privateChat" for private, and "" exactly for every other type |
| ChatUtil.MessagesCollectionName | src/utils/chatUtil.js:16-24 | `<collection>/<chat id>/messages` for the two known types, "" otherwise |
| ChatUtil.CreateChatRoom | src/utils/chatUtil.js:42-77 | null exactly for an unknown type; otherwise the chat gets the store's id and the type, with last message = the text and last-message time = the creation time. A group is named "Your Group", created by user1 with members [user1, user2]; a private chat is named after user2 and pairs user1 with user2 |
| ChatUtil.Message.constructor | src/utils/chatUtil.js:89-110 | a message object holding the given id, chat id, sender, text, time (a client `Date` or a store timestamp), media url and type |
| ChatUtil.FirstOwned | src/utils/chatUtil.js:114-118 | the first index among the positions the loop visits (all but the last) whose message has the target id and the user as sender; none only when no such index exists |
| ChatUtil.ShortListNeverScanned | src/utils/chatUtil.js:114 | a list of at most one message is never scanned |
| ChatUtil.LastMessageNeverFound | src/utils/chatUtil.js:114 | when only the last message is owned, nothing is found |
| ChatUtil.UpdateMessage | src/utils/chatUtil.js:112-138 | undefined exactly when the first owned message among the scanned ones holds a store timestamp, which has no `getTime`; otherwise the same list is returned, only that message can change, and inside the 5-minute window it gets the new text and `sentAt` = now while outside it stays as it was |
| ChatUtil.DeleteMessage | src/utils/chatUtil.js:140-159 | returns the first owned message among the scanned ones, or undefined, and changes nothing |
| ChatListFilter.ChatTypeForTitle | src/components/ChatListFilter.js:33-44 | "Private Chats" gives private, "Group Chats" gives group, and any other title gives all (each an iff) |
| ChatListFilter.TitleRoundTrip | src/components/ChatListFilter.js:9-19 | the title of each chat type maps back to that type |
| ChatListFilter.TagChats | src/components/ChatListFilter.js:53-70 | one chat per document, in order, with the document id, the forced type and the stored fields, whatever `type` and `_id` were stored |
| ChatListFilter.CreatedRoomInCreatorsFeed | src/components/ChatListFilter.js:48-49 | a created group matches the creator's group query, a created private chat matches their private query, and the stored document maps back to the created chat |
| ChatListFilter.SortCorrect | src/components/ChatListFilter.js:73-75 | the sort gives a permutation of its input, non-increasing in `lastMessageAt` |
| ChatListFilter.SortStable | src/components/ChatListFilter.js:73-75 | among chats with equal `lastMessageAt` the sort keeps the input order |
| ChatListFilter.MergeChats | src/components/ChatListFilter.js:73-75 | the merge is newest first, a permutation of groups ++ privates, and as long as both together |
| ChatListFilter.MergeKeepsTieOrder | src/components/ChatListFilter.js:73-75 | among equally recent chats the groups come first, each part in its snapshot order |
| ChatListFilter.FeedOnSnapshot | src/components/ChatListFilter.js:52-78 | each update publishes type "all" with the tagged group and private chats merged, newest first, as a permutation |
| ChatListFilter.FeedChatsTyped | src/components/ChatListFilter.js:58-68 | every chat in the feed is typed "group" or "private" |
| ChatListFilter.FeedBounded | src/components/ChatListFilter.js:24-49 | with each query limited to 10, a feed holds at most 20 chats |
| ChatDashboard.FilterByType | src/components/ChatDashboard.js:92 | keeps exactly the chats of the type, and no more chats than the input |
| ChatDashboard.FilterIsSubsequence | src/components/ChatDashboard.js:92 | the filtered list is a subsequence of the input |
| ChatDashboard.FilterIdempotent | src/components/ChatDashboard.js:92 | filtering twice by a type is filtering once |
| ChatDashboard.FilterConcat | src/components/ChatDashboard.js:92 | filtering a concatenation filters each part |
| ChatDashboard.FilterCount | src/components/ChatDashboard.js:92 | each chat of the type occurs as often as in the input, and no other chat occurs |
| ChatDashboard.FilterSorted | src/components/ChatDashboard.js:92 | filtering a newest-first feed keeps it newest first |
| ChatDashboard.ChatTypeSelection | src/components/ChatDashboard.js:90-99 | group or private selects that type and its chats; any other type selects "all" and every chat |
| ChatDashboard.VisibleIsSubsequence | src/components/ChatDashboard.js:90-99 | the visible list is always a subsequence of the chats |
| ChatDashboard.SelectionStable | src/components/ChatDashboard.js:183-185 | re-applying the selection to the list it shows changes nothing, so the effect settles |
| ChatDashboard.GroupViewOfFeed | src/components/ChatDashboard.js:90-94 | the group view of a feed is newest first and holds exactly the group snapshot's chats |
| ChatDashboard.FeedScenario | src/components/ChatListFilter.js:73-78 | a group chat at 100 and a private chat at 200 give the feed [private, group] and the group view [group] |
| ChatDashboard.FriendIds | src/components/ChatDashboard.js:129-139 | one id per link, in link order: userId1 unless it is the user's id, else userId2 |
| ChatDashboard.FriendIsOtherEnd | src/components/ChatDashboard.js:133-137 | for a link touching the user, the friend id is an end of the link and is the user's id only for a self-link |
| ChatDashboard.Dashboard.constructor | src/components/ChatDashboard.js:72-80 | the initial state: no chats, "all" selected, nothing selected, no participants, not empty initially |
| ChatDashboard.Dashboard.HandleChatTypeSelected | src/components/ChatDashboard.js:90-99 | sets the visible list and the selected type to the type selection, and nothing else |
| ChatDashboard.Dashboard.RunVisibleEffect | src/components/ChatDashboard.js:183-185 | the effect runs the selection on the current chats and type only when they changed since its last run |
| ChatDashboard.Dashboard.Render | src/components/ChatDashboard.js:183-185 | after the effect settles, the visible list is the selection of the current chats and type |
| ChatDashboard.Dashboard.HandleSetUserChats | src/components/ChatDashboard.js:82-88 | an empty list sets `wasEmptyInitially`, which is never cleared; the chats are stored and selected by the type |
| ChatDashboard.Dashboard.OnFeedUpdate | src/components/ChatListFilter.js:77-78 | after a feed update the whole feed is visible and "all" is selected |
| ChatDashboard.Dashboard.SelectFilterOption | src/components/ChatListFilter.js:33-44 | the chosen title's type is selected; a new type shows its chats, while re-choosing the current type leaves the list empty |
| ChatDashboard.Dashboard.HandleFriendClick | src/components/ChatDashboard.js:101-104 | the friend becomes the only participant and "private" is selected |
| ChatDashboard.Dashboard.HandleChatSelection | src/components/ChatDashboard.js:144-155 | no chat: participants [user2], private, nothing selected; a chat: participants [undefined], its type, it selected; the private view shows iff there is no chat or the chat is private |
| ChatDashboard.Dashboard.AnimateChatOpen | src/components/ChatDashboard.js:191-198 | returns `wasEmptyInitially` and chats non-empty; with chats and nothing selected, the first private chat (or none) is selected first, and the guard still holds afterwards exactly when there is no private chat |
| ChatDashboard.Dashboard.FetchAllFriends | src/components/ChatDashboard.js:126-142 | the friends are the friend ids of the links, one per link, in order |
| ChatDashboard.FirstOfType | src/components/ChatDashboard.js:193 | the index of the first chat of the type, or none when there is none |
| UserActivity.Reset | src/utils/userActivityUtil.js:13-37 | emits `true` iff there is a user and either 5 minutes passed or the tracker is neither active nor recently inactive; emitting sets active, last update = now and clears the flag; exactly one timer is armed, 2 minutes out, capturing the current user and activity |
| UserActivity.Fire | src/utils/userActivityUtil.js:29-36 | emits `false` iff the timer saw a user and an active tracker; then inactive, last update = its time, flag set |
| UserActivity.Interaction | src/utils/userActivityUtil.js:39-42 | clears the flag and then resets; with a user and an inactive tracker it emits `true` |
| UserActivity.Cleanup | src/utils/userActivityUtil.js:50-56 | cancels the pending timer and changes nothing else |
| UserActivity.Settle | src/utils/userActivityUtil.js:57 | when `isActive` changed, the effect's re-run emits nothing more |
| UserActivity.Mount | src/utils/userActivityUtil.js:48 | the first run emits `true` exactly when there is a user |
| UserActivity.FirstResetEmits | src/utils/userActivityUtil.js:5-18 | from the initial state (null last update) the first reset with a user emits `true` |
| UserActivity.TimerSeesUserPreserved | src/utils/userActivityUtil.js:29-30 | every event keeps the pending timer's captured user equal to the current one |
| UserActivity.NoUserInert | src/utils/userActivityUtil.js:17-30 | without a user, neither an interaction nor the timer emits or changes `isActive` |
| UserActivity.TimerReportsInactive | src/utils/userActivityUtil.js:29-35 | when the timer fires on an active tracker it emits `false` and sets inactive and the flag |
| UserActivity.InteractionAfterInactiveEmits | src/utils/userActivityUtil.js:39-42 | the first interaction after going inactive emits `true` |
| UserActivity.RerunAfterInactiveSilent | src/utils/userActivityUtil.js:48-57 | the effect re-run after going inactive emits nothing within 5 minutes |
| UserActivity.ActiveInteractionSilent | src/utils/userActivityUtil.js:18 | while active, an interaction under 5 minutes after the last update emits nothing |
| UserActivity.ActiveRefresh | src/utils/userActivityUtil.js:18-23 | while active, an interaction 5 minutes or more after the last update emits `true` again |
| UserActivity.ActiveInactiveActive | src/utils/userActivityUtil.js:12-57 | mount, then silence until the timer, then an interaction, emits true, false, true |
| UserActivity.Tracker.constructor | src/utils/userActivityUtil.js:5-48 | the tracker starts in the state after the mount run |
| UserActivity.Tracker.ResetActivity | src/utils/userActivityUtil.js:13-37 | the refs and state follow `Reset` |
| UserActivity.Tracker.RerunEffect | src/utils/userActivityUtil.js:48-57 | the refs and state follow the effect re-run |
| UserActivity.Tracker.Interact | src/utils/userActivityUtil.js:39-42 | the refs and state follow an interaction and its re-run |
| UserActivity.Tracker.TimerFires | src/utils/userActivityUtil.js:29-36 | the refs and state follow the timer firing and its re-run |
| UserActivity.Tracker.Unmount | src/utils/userActivityUtil.js:50-56 | unmount cancels the timer |
| CustomSelect.JsRem | src/components/CustomSelect.js:51-54 | JavaScript `%`: magnitude below the modulus, with the sign of the dividend |
| CustomSelect.JsRemCongruent | src/components/CustomSelect.js:51-54 | the dividend is the truncated quotient times the modulus plus the remainder |
| CustomSelect.JsRemUnique | src/components/CustomSelect.js:51-54 | any remainder congruent to the dividend, below the modulus in size and with the dividend's sign, is `JsRem`'s |
| CustomSelect.StaleFocusRecovers | src/components/CustomSelect.js:51-54 | a focus past the end of the options is brought back into range by either arrow key |
| CustomSelect.NextFocus | src/components/CustomSelect.js:51 | NaN for no options; otherwise from -1..n-1 the next index, with n-1 wrapping to 0 |
| CustomSelect.PrevFocus | src/components/CustomSelect.js:54 | NaN for no options; otherwise the previous index, with 0 wrapping to n-1; from -1 it gives n-2 |
| CustomSelect.ArrowKeysStayInRange | src/components/CustomSelect.js:51-54 | from a focus in [-1, n), either arrow key lands in [0, n) |
| CustomSelect.ArrowUpFromNothingSkipsLast | src/components/CustomSelect.js:54 | with two or more options, ArrowUp from no focus skips the last option |
| CustomSelect.DownThenUp | src/components/CustomSelect.js:51-54 | ArrowDown then ArrowUp returns to the same option |
| CustomSelect.FindIndex | src/components/CustomSelect.js:30 | the first index holding the selected option, or -1 when there is none |
| CustomSelect.OrZero | src/components/CustomSelect.js:30 | `|| 0` leaves the index unchanged, because -1 is truthy |
| CustomSelect.Select.SetOptions | src/components/CustomSelect.js:6-7 | the parent's new options replace the old ones; the selection, open flag and focus are kept |
| CustomSelect.Select.constructor | src/components/CustomSelect.js:14-19 | the select starts with the given options, selection and open flag, and no focus |
| CustomSelect.Select.ToggleDropdown | src/components/CustomSelect.js:25-35 | sets the open flag to `expand` or flips it; opening focuses the selected option's index (-1 when absent), closing sets -1 |
| CustomSelect.Select.HandleOptionSelect | src/components/CustomSelect.js:38-44 | an index naming an option selects it and closes; any other index changes nothing |
| CustomSelect.Select.HandleKeyDown | src/components/CustomSelect.js:47-61 | ArrowDown opens and moves down, ArrowUp moves up, Enter/Space select the focused option, Escape closes, and other keys change nothing |
| Register.ScanPasswordMeaning | src/components/Register.js:54 | the one-pass scan's flags mean: all characters allowed, and some lower-case letter, upper-case letter, digit and special character present |
| Register.PasswordCheck | src/components/Register.js:54 | an accepted password has at least 8 characters |
| Register.PasswordCheckCorrect | src/components/Register.js:54 | the check accepts exactly the passwords the regular expression describes |
| Register.ForbiddenCharRejects | src/components/Register.js:54 | any character outside [A-Za-z0-9@#$%^&*!] rejects the password |
| Register.EmailCheckCorrect | src/components/Register.js:39 | the check (first '@', last '.') accepts exactly the emails the regular expression describes |
| Register.EmailSingleAt | src/components/Register.js:39 | an accepted email has exactly one '@' |
| Register.EmailAccepted | src/components/Register.js:39 | "ann@mail.co" is accepted |
| Register.EmailOneLetterDomainRejected | src/components/Register.js:39 | "ann@mail.c" is rejected: the top-level part needs two letters |
| Register.ValidateUsername | src/components/Register.js:64-68 | the username check always passes |
| Register.SignUpChecks | src/components/Register.js:25 | the password is checked first, then the email; the username never fails; it passes iff both patterns hold |
| Register.PasswordReportedFirst | src/components/Register.js:25 | a bad password is reported even when the email is bad too |
| Register.RegisterForm.constructor | src/components/Register.js:15-19 | all fields start empty and no account exists |
| Register.RegisterForm.ValidatePassword | src/components/Register.js:49-62 | passes iff the password matches the pattern; otherwise the password message is set |
| Register.RegisterForm.ValidateEmail | src/components/Register.js:37-47 | passes iff the email matches the pattern; otherwise the email message is set |
| Register.RegisterForm.SignUp | src/components/Register.js:21-35 | the first failing check's message is set; an account is created only when all checks pass and creation succeeds; a failed creation sets the error message |
| Register.RegisterForm.VerifyFullname | src/components/Register.js:70-75 | the full name is set exactly when the value is all ASCII letters, the empty string included |
| SearchBar.ExcludeId | src/components/SearchBar.js:41 | exactly the users whose id differs, no more than the input |
| SearchBar.ExcludeIdConcat | src/components/SearchBar.js:41 | excluding distributes over concatenation, so the kept users stay in order |
| SearchBar.ExcludeIdAbsent | src/components/SearchBar.js:41 | a list without that id is kept whole |
| SearchBar.QueryResults | src/components/SearchBar.js:31-47 | a query is made iff the text is non-empty; empty text gives []; with a user, the fetched users other than them (null gives []); without a user, the fetched list or [] |
| SearchBar.SelfNeverFound | src/components/SearchBar.js:40-41 | a user's search never returns themself |
| SearchBar.Edit | src/components/SearchBar.js:49-64 | a changed text cancels the pending query and schedules one for the new text 500 ms later; unchanged text changes nothing |
| SearchBar.EditAllKeepsCurrent | src/components/SearchBar.js:49-60 | the pending query is always for the current text |
| SearchBar.BurstQueriesLast | src/components/SearchBar.js:49-60 | after a burst whose last edit changed the text, the only pending query is for the last text, 500 ms after it |
| SearchBar.SearchBarState.constructor | src/components/SearchBar.js:27-60 | the mount schedules a query of the empty text |
| SearchBar.SearchBarState.HandleChange | src/components/SearchBar.js:62-64 | the text and the timer follow `Edit` |
| SearchBar.SearchBarState.TimerFires | src/components/SearchBar.js:54-56 | the query runs with the text the timer captured and sets `QueryResults` |
| SearchBar.SearchBarState.Unmount | src/components/SearchBar.js:59 | the pending query is cancelled |
| Search.ToOptions | src/components/Search.js:24 | one option per result, in order, with its id and full name |
| Search.FindById | src/components/Search.js:16 | the first result with the id, or undefined exactly when none has it |
| Search.OptionLeadsBack | src/components/Search.js:14-26 | the option built from a result finds a result with its id, and finds that very result when ids are distinct |
| Search.SelfNeverOffered | src/components/SearchBar.js:40-41 | a user is never offered themself as an option |
| Search.SearchState.constructor | src/components/Search.js:8-11 | no results, no options, nothing selected, closed |
| Search.SearchState.HandleSetSearchResults | src/components/Search.js:22-39 | a list becomes the results and their options, open iff non-empty; an unmappable value clears both and closes |
| Search.SearchState.OnSearchBarClick | src/components/Search.js:41-45 | opens only when there are results; otherwise the open flag is unchanged |
| Search.SearchState.HandleOptionSelected | src/components/Search.js:14-20 | records the option and hands on the first result with its id |
| PrivateChat.WithoutMessage | src/components/PrivateChat.js:113 | keeps, in order, every message not identical to the deleted one |
| PrivateChat.WithoutNothing | src/components/PrivateChat.js:113 | removing undefined keeps the list as it is |
| PrivateChat.WithoutConcat | src/components/PrivateChat.js:113 | filtering distributes over concatenation, so the kept messages keep their relative order |
| PrivateChat.WithoutSingle | src/components/PrivateChat.js:113 | a one-message list is kept exactly when its message is not the deleted one |
| PrivateChat.UnsetDocIdOwnsNothing | src/components/PrivateChat.js:77 | with `docID` left at -1, no message is found to edit or delete |
| PrivateChat.PrivateChatView.constructor | src/components/PrivateChat.js:75-78 | no messages, empty input, `docID` -1, no active flag |
| PrivateChat.PrivateChatView.SetMessage | src/components/PrivateChat.js:192 | the input's text is stored |
| PrivateChat.PrivateChatView.SendMessage | src/components/PrivateChat.js:86-102 | without a friend, the input is cleared and nothing is sent; otherwise a private chat is created only when none is selected, and then the dashboard's selection makes the friend undefined (src/components/ChatDashboard.js:150-152); a new message from the user with the input's text and `sentAt` = now is put first, and the input is cleared |
| PrivateChat.PrivateChatView.HandleKeyDown | src/components/PrivateChat.js:145-150 | only Enter on a non-empty input sends, and then the input is cleared |
| PrivateChat.PrivateChatView.EditMessage | src/components/PrivateChat.js:104-108 | the messages, input and chat stay as they were, and no message's text or time changes, because `docID` is never set and `updateMessage` finds no owned message |
| PrivateChat.PrivateChatView.RemoveMessage | src/components/PrivateChat.js:110-115 | the messages, input and chat stay as they were, because `docID` is never set, `deleteMessage` finds nothing and filtering out undefined keeps every message |
| PrivateChat.PrivateChatView.ChatChanged | src/components/PrivateChat.js:117-143 | selecting no chat clears the messages and the input |
| PrivateChat.PrivateChatView.OnMessagesSnapshot | src/utils/chatUtil.js:167-175 | a snapshot replaces the messages |
| PrivateChat.PrivateChatView.PrintUserLastActive | src/components/PrivateChat.js:152-162 | returns the formatter's text; the active flag is true iff the friend was seen in the last minute |
| App.StatusText | src/App.js:30 | "online" iff active, "offline" iff not |
| App.WithPresence | src/App.js:32-36 | the user with the new status and `lastSeen` = now, every other field kept |
| App.LatestPresenceWins | src/App.js:32-40 | a second stamp overwrites the first |
| App.AppState.constructor | src/App.js:17 | no user and no writes |
| App.AppState.SetUser | src/App.js:51 | the sign-in screen sets the user |
| App.AppState.OnUserActive | src/App.js:27-43 | nothing without a user; otherwise the user is stamped and one write with the same status and time goes to the user's `docID` |

## Left out

- Firestore and Firebase Auth I/O are not modelled. This covers reads, writes, `onSnapshot` subscriptions and account creation. Their results are parameters: query results, store-assigned ids, and whether creation fails.
- These wrappers are not modelled: `findPrivateChat`, `getUserByEmail`, `getUserByID`, `getUsers`, `getUsersByFullname`, `updateUserActiveStatus` and the persistence inside `createMessage`. Two consequences:
  - `fetchAllFriends` yields the friend ids it looks up, not the fetched users.
  - The search bar receives the query's result as a parameter.
- `createFriendshipLink`, `deleteFriendshipLink` and `updateLastChatMessage` are writes only and are not modelled.
- `handleSearchResultSelected` in the dashboard chains store queries and is not modelled. The decision it uses is `isFriend`, which is modelled.
- Subscription lifecycle is not modelled: the private-chat listener nested inside the group-chat listener, and unsubscribing. Each feed update is a function of the two latest snapshots.
- Floating point is not modelled. `Date.now() / 1000` becomes integer milliseconds, which gives the same buckets and floors.
- UserUtil.Bucket: times are whole milliseconds, so a fractional elapsed time cannot arise.
- Common.DecimalDigits: models `String(n)` only for counts; the exponent form of numbers of 10^21 and above is not modelled.
- Common.AsciiLower: `toLowerCase` is modelled for ASCII letters only; other characters are kept as they are.
- The chat type of a selected chat is compared as a string. The dashboard's `userChatSelected` starts as `{}` and `selectedChat.user2` is undefined; both are `None`.
- Asynchronous interleavings are not modelled. This includes a search result arriving after a newer keystroke, a message sent while a snapshot arrives, and the stale closures the activity timer captures beyond `user` and `isActive`.
- ChatDashboard.Dashboard.HandleSetUserChats: the zero-delay timeout is applied at once rather than after the current event.
- ChatDashboard.Dashboard.RunVisibleEffect: the effect's dependency check compares list values, where React compares array identity.
- ChatDashboard.Dashboard.AnimateChatOpen: the source calls it during every render. When there are chats but none is private, the guard still holds after the call (the ensures states this), so each render sets state again and React stops with "Too many re-renders". The model makes one call and does not model the render loop.
- PrivateChat.PrivateChatView.SendMessage: after a new chat is created the friend is undefined; rendering a non-empty message list then reads the friend's id and throws. Rendering is not modelled.
- CustomSelect.Select.ToggleDropdown: the option equal to `selected` is found with `==`; the chat filter passes a title string while its options are objects, so there it is never found, as in the source.
- DOM concerns are not modelled: focus, click-outside, scrolling, event listener registration, routing and styling. The search bar's `handleClick` only forwards the click to `onSearchBarClick`, which is modelled.
- The exception paths of the store helpers are not modelled. `createMessage` and `createChatRoom` catch errors and return undefined; the model takes their success.
- These files are not part of this model: ChatList.js, Auth.js, ForgotPassword.js, GroupChat.js, Friend.js and Message.js.
