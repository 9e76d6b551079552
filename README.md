# Hotel guest-messaging console: a Dafny model

The web console lets hotel staff answer guest conversations. It also lets
an organisation sign up its first administrator and lets invited staff
set a password. This project models the logic inside those screens and
in the two Redux slices behind them:

- **Chat window**: messages are grouped by calendar day in first-seen order.
  Inside each day, consecutive messages from the same sender form a run. Each
  message records whether it opens a run, closes it, or shows the avatar.
- **Conversation list**:
  - the `cx` class joiner;
  - the relative timestamp ("just now", minutes, hours, a locale date);
  - the free-text filter over department, room, subject and guest language;
  - the keyboard focus index (ArrowDown / ArrowUp / Enter);
  - the per-status counts of the loaded page.
- **Conversations slice**: the loaded conversations, the messages of each
  conversation, and the loading and error flags.
- **Auth slice**: the access and refresh tokens, their copies in local
  storage, and the `Authorization` header kept in step with them.
- **Quick replies**: the per-hotel local-storage key for pins, and pin
  toggling. The list is ordered with the pinned replies first. Pins are
  written with `JSON.stringify` and read back with `JSON.parse`; both are
  modelled for an array of strings.
- **Message composer**: when a message may be sent, and what is sent (the
  trimmed text). Also covered: Enter versus Shift+Enter, inserting a quick
  reply, and the optional character limit with its remaining-count label.
- **Admin sign-up**:
  - the submit check, including the e-mail pattern `.+@.+\..+`;
  - the posted payload;
  - the local-storage writes on success;
  - the mapping of the server's error body to field errors and to a
    field's hint.
- **Set password**: the two client-side checks and the error message
  taken from a failed response.
- **Socket addresses**: the staff and guest WebSocket URLs. The proved
  property is that their query parameters read back as the values put in.

JavaScript behaviour the code relies on is written out in `JsStrings`:

- truthiness, with `""` and `undefined` both falsy;
- `String.prototype.trim` with the ECMAScript whitespace set;
- `length` counted in UTF-16 code units;
- `join`, `split` and `includes`;
- decimal formatting of whole numbers.

Components with state are classes whose fields are that state. Each event
handler is a method with a `modifies` clause, and its `ensures` states the
whole new state. Pure computations are functions, and lemmas state their
properties. `useMemo` values are functions of their dependencies.

## Model

| member | source | states |
|---|---|---|
| ChatWindow.DayOrder | src/components/ChatWindow.tsx:33-39 | the Map's key order: the day of each message, taken when the day first occurs; its properties are DayOrderDistinct, DayOrderCovers and DayOrderFirstSeen |
| ChatWindow.Bucket | src/components/ChatWindow.tsx:33-38 | a day's bucket holds only messages of that day, taken from the list |
| ChatWindow.GroupByDay | src/components/ChatWindow.tsx:33-38 | the days come out in first-seen order; the map's keys are exactly those days; each day maps to its messages in list order |
| ChatWindow.Cluster | src/components/ChatWindow.tsx:40-46 | each message keeps its place; it opens a run iff it is first or its predecessor has another sender; it closes a run iff it is last or its successor has another sender; showAvatar equals lastInGroup |
| ChatWindow.Groups | src/components/ChatWindow.tsx:32-49 | one group per day in first-seen order; each group is the clustered bucket of its day |
| ChatWindow.RegroupIsIdentical | src/components/ChatWindow.tsx:32-49 | recomputing the groups memo on the same list gives the same groups |
| ChatWindow.BucketOfUnseenDay | src/components/ChatWindow.tsx:36-37 | a day no message falls on has an empty bucket |
| ChatWindow.DayAbsentBeforeFirstMessage | src/components/ChatWindow.tsx:36 | a day is listed only once a message falls on it |
| ChatWindow.BucketOfSeenDay | src/components/ChatWindow.tsx:36-37 | every listed day has at least one message, so no empty group is shown |
| ChatWindow.DayOrderDistinct | src/components/ChatWindow.tsx:33-39 | no day is listed twice |
| ChatWindow.DayOrderCovers | src/components/ChatWindow.tsx:34-36 | every message's day is listed |
| ChatWindow.DayOrderPrefix | src/components/ChatWindow.tsx:33-39 | later messages only add days after the ones already listed |
| ChatWindow.DayOrderFirstSeen | src/components/ChatWindow.tsx:33-39 | the days listed before a day are those of the messages before its first message |
| ChatWindow.BucketAppend | src/components/ChatWindow.tsx:34-37 | the bucket of a concatenation is the concatenation of the buckets |
| ChatWindow.LandsInOwnDay | src/components/ChatWindow.tsx:35-37 | each message is in its own day's bucket and in no other |
| ChatWindow.TotalSizeStep | src/components/ChatWindow.tsx:34-37 | one more message adds one to the listed days' total iff its day is listed |
| ChatWindow.GroupsCoverList | src/components/ChatWindow.tsx:33-39 | the group sizes add up to the number of messages, so each message is shown exactly once |
| ChatWindow.ClusterEnds | src/components/ChatWindow.tsx:41-45 | a day's first message opens a run; its last closes a run and shows the avatar |
| ChatWindow.ClusterBoundaries | src/components/ChatWindow.tsx:43-44 | a message closes a run iff the next one opens a run |
| ChatWindow.ClusterOneSender | src/components/ChatWindow.tsx:43-45 | with a single sender, only the first message opens and only the last closes and shows the avatar |
| ChatWindow.ClusterSplitsAtSenderChange | src/components/ChatWindow.tsx:40-46 | where two adjacent messages have different senders, clustering the whole equals clustering the two parts |
| ChatWindow.ClusterOfLeftPart | src/components/ChatWindow.tsx:40-46 | flags left of a sender change do not depend on what follows |
| ChatWindow.ClusterOfRightPart | src/components/ChatWindow.tsx:40-46 | flags right of a sender change do not depend on what precedes |
| ChatWindow.DayGroupShape | src/components/ChatWindow.tsx:39-48 | every shown group is non-empty, holds its day's messages in order, and starts and ends a run |
| ConversationList.Cx | src/components/ConversationList.tsx:9-11 | `cx`: the kept entries joined with single spaces; its properties are CxOfFalsyEntries, CxConcat and CxSplitsBack |
| ConversationList.Kept | src/components/ConversationList.tsx:10 | `filter(Boolean)` keeps only non-empty strings that were among the entries |
| ConversationList.KeptAppend | src/components/ConversationList.tsx:10 | filtering a concatenation is concatenating the filtered parts |
| ConversationList.CxOfFalsyEntries | src/components/ConversationList.tsx:9-11 | a list of falsy entries gives the empty class string |
| ConversationList.CxConcat | src/components/ConversationList.tsx:9-11 | the class strings of two parts join with exactly one space |
| ConversationList.CxSplitsBack | src/components/ConversationList.tsx:9-11 | splitting the class string at spaces gives back the kept class names |
| ConversationList.RelTime | src/components/ConversationList.tsx:13-21 | `relTime` over the whole seconds elapsed, with an unparsable date leading to the locale date; its labels are stated by RelTimeReadsBack |
| ConversationList.RelTimeReadsBack | src/components/ConversationList.tsx:13-21 | the label has four cases: "" without a timestamp; "just now" under 60 s; under a day, digits plus m/h whose value times 60 or 3600 brackets the elapsed time (1–59 minutes, 1–23 hours); a day or more, or an unparsable date, gives the locale date |
| ConversationList.FieldText | src/components/ConversationList.tsx:42-44 | a searchable field, lower-cased, with a missing value read as "" |
| ConversationList.Matches | src/components/ConversationList.tsx:41-45 | a conversation matches when its department name, room, subject or guest language includes the query |
| ConversationList.KeepMatching | src/components/ConversationList.tsx:40-46 | `items.filter(...)` with the match test; its properties are KeepMatchingIsSubsequence and KeepMatchingMembers |
| ConversationList.Filtered | src/components/ConversationList.tsx:37-47 | the `filtered` memo: all items for a blank query, else the matching ones; stated by FilteredBlankQuery and FilteredSpec |
| ConversationList.KeepMatchingIsSubsequence | src/components/ConversationList.tsx:40-46 | the filter keeps items in their original order |
| ConversationList.KeepMatchingMembers | src/components/ConversationList.tsx:40-46 | an item is kept iff one of the four fields includes the query |
| ConversationList.FilteredBlankQuery | src/components/ConversationList.tsx:38-39 | a query that is blank after trimming shows every item |
| ConversationList.FilteredSpec | src/components/ConversationList.tsx:37-47 | the filtered list is an order-preserving sub-list; an item is in it iff it matches the trimmed, lower-cased query |
| ConversationList.NextFocus | src/components/ConversationList.tsx:54-55 | the two arrow-key focus updaters, clamped to the list |
| ConversationList.OnKeyAsWritten | src/components/ConversationList.tsx:50-59 | `onKey` as written, where Enter past the end throws; compared with the corrected handler by OnKeyAgreesWhereNothingThrows and StaleFocusAfterNarrowing |
| ConversationList.OnKey | src/components/ConversationList.tsx:49-63 | the corrected handler never throws |
| ConversationList.OnKeyAgreesWhereNothingThrows | src/components/ConversationList.tsx:50-59 | the handler as written throws exactly on Enter with a focus index at or past the end of a non-empty list; everywhere else it equals the corrected one |
| ConversationList.StaleFocusAfterNarrowing | src/components/ConversationList.tsx:54-58 | two ArrowDowns over two rows focus index 1, after which Enter over one row throws as written; corrected, it is handled without navigating |
| ConversationList.OnKeySpec | src/components/ConversationList.tsx:50-59 | other keys and an empty list are ignored; ArrowDown moves to min(i+1, n-1) and stays in range from -1 on; ArrowUp moves to max(i-1, 0); Enter navigates to the focused conversation's page iff the index is in range |
| ConversationList.ListFocus.constructor | src/components/ConversationList.tsx:31 | the focus index starts at -1 |
| ConversationList.ListFocus.HandleKey | src/components/ConversationList.tsx:49-63 | the outcome and the new focus index are those of the corrected handler on the old index |
| ConversationList.StatusCount | src/components/ConversationList.tsx:67 | the number of loaded conversations with a status; CountByStatus computes it for every key |
| ConversationList.StatusCountOfAbsent | src/components/ConversationList.tsx:67 | a status no item has counts zero |
| ConversationList.CountStep | src/components/ConversationList.tsx:67 | one more item adds one to its own status's count and leaves every other count unchanged |
| ConversationList.CountByStatus | src/components/ConversationList.tsx:65-69 | the counts have a key for each of the three tabs and for each status seen; each key maps to the number of items with that status |
| ConversationList.TabCountsCoverItems | src/components/ConversationList.tsx:65-69 | when every status is a tab, the three tab counts add up to the number of items |
| ConversationsSlice.MessagesOf | src/features/conversations/conversationsSlice.ts:42 | a conversation's messages, with a missing entry read as `[]` |
| ConversationsSlice.AppendedAll | src/features/conversations/conversationsSlice.ts:40-43 | several `appendMessage` actions in turn; stated by AppendedAllKeepsArrivalOrder |
| ConversationsSlice.Appended | src/features/conversations/conversationsSlice.ts:40-43 | appending adds the conversation's key and leaves every other conversation's messages unchanged |
| ConversationsSlice.Replaced | src/features/conversations/conversationsSlice.ts:50-52 | replacing adds the key and leaves every other conversation's messages unchanged |
| ConversationsSlice.AppendedGrowsByOne | src/features/conversations/conversationsSlice.ts:40-43 | the conversation's list keeps its old messages and gets the new one at the end (a missing list counts as empty) |
| ConversationsSlice.AppendedAllKeepsArrivalOrder | src/features/conversations/conversationsSlice.ts:40-43 | appending several messages one by one gives the old list plus them in arrival order; other conversations are untouched |
| ConversationsSlice.FetchDiscardsEarlierAppends | src/features/conversations/conversationsSlice.ts:50-52 | a fetched page replaces everything appended before it |
| ConversationsSlice.ConversationsStore.constructor | src/features/conversations/conversationsSlice.ts:12-16 | no items, no messages, not loading, no error |
| ConversationsSlice.ConversationsStore.AppendMessage | src/features/conversations/conversationsSlice.ts:40-43 | the message goes at the end of its conversation's list; nothing else changes |
| ConversationsSlice.ConversationsStore.FetchConversationsPending | src/features/conversations/conversationsSlice.ts:46 | loading is set; nothing else changes |
| ConversationsSlice.ConversationsStore.FetchConversationsFulfilled | src/features/conversations/conversationsSlice.ts:47 | the items become the payload and loading clears; any earlier error stays |
| ConversationsSlice.ConversationsStore.FetchConversationsRejected | src/features/conversations/conversationsSlice.ts:48 | loading clears and the error becomes the rejection's message, possibly undefined; the items stay |
| ConversationsSlice.ConversationsStore.FetchMessagesFulfilled | src/features/conversations/conversationsSlice.ts:50-52 | the conversation's messages become the fetched page; nothing else changes |
| AuthSlice.GetItem | src/features/auth/authSlice.ts:12-13 | `localStorage.getItem`: the stored value, or null when the key is absent |
| AuthSlice.AuthHeaderFor | src/lib/api.ts:11-14 | the `Authorization` header `setAuthHeader` leaves: "Bearer " plus a truthy token, else none; stated by AuthHeaderCarriesToken |
| AuthSlice.AuthHeaderCarriesToken | src/lib/api.ts:11-14 | a header is set iff the token is truthy, and it is "Bearer " followed by the token |
| AuthSlice.LoginError | src/features/auth/authSlice.ts:53 | the error is never empty: the rejection's message when truthy, otherwise "Login failed" |
| AuthSlice.AuthStore.constructor | src/features/auth/authSlice.ts:11-15 | both tokens are read from storage; not loading; no error; the header matches the stored token, as the boot code in src/main.tsx lines 10-11 sets it; the store starts synced |
| AuthSlice.AuthStore.SetToken | src/features/auth/authSlice.ts:34-39 | a truthy token is stored and any other value removed; the header follows; the other fields stay; storage, state and header stay synced |
| AuthSlice.AuthStore.LoginPending | src/features/auth/authSlice.ts:42 | loading is set and the error cleared; tokens, storage and header stay |
| AuthSlice.AuthStore.LoginFulfilled | src/features/auth/authSlice.ts:43-50 | both tokens are set and stored; the header follows the access token; loading clears; the store stays synced |
| AuthSlice.AuthStore.LoginRejected | src/features/auth/authSlice.ts:51-54 | loading clears and the error is set to LoginError of the message; nothing else changes |
| AuthSlice.AuthStore.LogoutFulfilled | src/features/auth/authSlice.ts:55-61 | both tokens are cleared and both keys removed from storage; the header is removed; the store stays synced |
| PinCodec.Stringify | src/hooks/useQuickReplies.ts:39 | `JSON.stringify` of an array of strings; stated with Parse by ParseStringify and StringifyInjective |
| PinCodec.Parse | src/hooks/useQuickReplies.ts:33 | `JSON.parse` of an array of strings, with None where it throws; stated by ParseStringify |
| PinCodec.EscapeCharParses | src/hooks/useQuickReplies.ts:39 | each character's JSON escape decodes back to that character |
| PinCodec.QuoteParses | src/hooks/useQuickReplies.ts:39 | a quoted string literal decodes to the string and leaves what follows |
| PinCodec.ElementsParse | src/hooks/useQuickReplies.ts:33 | the comma-joined literals of a non-empty list decode to the list, up to the closing bracket |
| PinCodec.ParseStringify | src/hooks/useQuickReplies.ts:33-39 | `JSON.parse(JSON.stringify(xs))` is `xs` for every array of strings |
| PinCodec.StringifyInjective | src/hooks/useQuickReplies.ts:39 | different pin lists are stored as different texts |
| QuickReplies.PinKey | src/hooks/useQuickReplies.ts:31 | the pin storage key, per hotel when a hotel id is given; stated by PinKeyPerHotel |
| QuickReplies.LoadPins | src/hooks/useQuickReplies.ts:33 | the pins memo: the stored text (missing or empty read as "[]") parsed; stated by LoadStoredPins |
| QuickReplies.PinKeyPerHotel | src/hooks/useQuickReplies.ts:31 | two hotels share a pin key iff their ids are equal; a hotel never shares the key used without one |
| QuickReplies.LoadStoredPins | src/hooks/useQuickReplies.ts:32-35 | a stored list reads back as itself; a missing key reads as no pins |
| QuickReplies.FetchError | src/hooks/useQuickReplies.ts:26 | the error is the response's detail when truthy, otherwise "Failed to load"; it is never empty |
| QuickReplies.Without | src/hooks/useQuickReplies.ts:38 | `pins.filter((x) => x !== id)`; stated by WithoutSpec, WithoutAbsent and WithoutKeepsDistinct |
| QuickReplies.TogglePins | src/hooks/useQuickReplies.ts:38 | the toggled pin list: the id removed if present, else appended; stated by TogglePinsSpec and ToggleTwiceRestores |
| QuickReplies.WithoutSpec | src/hooks/useQuickReplies.ts:38 | unpinning removes every copy of the id and keeps every other id as often as before |
| QuickReplies.WithoutAbsent | src/hooks/useQuickReplies.ts:38 | removing an id that is not pinned leaves the pins unchanged |
| QuickReplies.WithoutKeepsDistinct | src/hooks/useQuickReplies.ts:38 | unpinning keeps the pins free of duplicates and adds nothing |
| QuickReplies.TogglePinsSpec | src/hooks/useQuickReplies.ts:38 | after a toggle the id is pinned iff it was not; a new pin goes at the end; other ids keep their counts |
| QuickReplies.ToggleTwiceRestores | src/hooks/useQuickReplies.ts:38 | toggling a new id twice restores the pins |
| QuickReplies.WithoutAppendLast | src/hooks/useQuickReplies.ts:38 | unpinning the id just appended restores the earlier pins |
| QuickReplies.TogglePinsKeepsDistinct | src/hooks/useQuickReplies.ts:38 | toggling keeps the pins free of duplicates |
| QuickReplies.Lookup | src/hooks/useQuickReplies.ts:46-47 | a lookup finds an item with that id, or none exists |
| QuickReplies.LookupTakesLast | src/hooks/useQuickReplies.ts:46 | the Map built from the items keeps the last item with each id |
| QuickReplies.Pinned | src/hooks/useQuickReplies.ts:46-47 | the pinned block: the Map's item for each pin, pins without an item dropped; stated by PinnedFollowsPinOrder |
| QuickReplies.Rest | src/hooks/useQuickReplies.ts:48 | the unpinned items; stated by RestMembers and RestIsSubsequence |
| QuickReplies.Ordered | src/hooks/useQuickReplies.ts:44-50 | the `ordered` memo; stated by PinnedComeFirst and OrderedIsPermutation |
| QuickReplies.PinnedFollowsPinOrder | src/hooks/useQuickReplies.ts:47 | the pinned block follows the pin order and skips pins with no item; each pinned item is a loaded one |
| QuickReplies.RestIsSubsequence | src/hooks/useQuickReplies.ts:48 | the unpinned items keep their fetched order |
| QuickReplies.RestMembers | src/hooks/useQuickReplies.ts:48 | the rest are exactly the loaded items whose id is not pinned |
| QuickReplies.PinnedComeFirst | src/hooks/useQuickReplies.ts:44-50 | with no pins the order is unchanged; otherwise pinned items come first, then exactly the unpinned ones in their fetched order, all loaded |
| QuickReplies.PinnedReachesMatched | src/hooks/useQuickReplies.ts:46-47 | every pin that names a loaded item brings that item into the pinned block |
| QuickReplies.PinnedDistinct | src/hooks/useQuickReplies.ts:47 | distinct pins give a duplicate-free pinned block |
| QuickReplies.RestDistinct | src/hooks/useQuickReplies.ts:48 | with distinct ids the rest has no duplicates |
| QuickReplies.OrderedIsPermutation | src/hooks/useQuickReplies.ts:44-50 | with distinct ids and pins, the ordered list is a permutation of the loaded items |
| QuickReplies.QuickRepliesHook.constructor | src/hooks/useQuickReplies.ts:13-35 | no items, not loading, no error; the key is the hotel's pin key and the pins are read from storage |
| QuickReplies.QuickRepliesHook.FetchStarted | src/hooks/useQuickReplies.ts:18-22 | loading is set only when a hotel id is given; nothing else changes |
| QuickReplies.QuickRepliesHook.FetchSucceeded | src/hooks/useQuickReplies.ts:23-27 | the items become the response and loading clears |
| QuickReplies.QuickRepliesHook.FetchFailed | src/hooks/useQuickReplies.ts:26-27 | the error is set from the response detail and loading clears; the items stay |
| QuickReplies.QuickRepliesHook.TogglePinAsWritten | src/hooks/useQuickReplies.ts:37-42 | storage gets the toggle of the memoised pins, which are never re-read |
| QuickReplies.QuickRepliesHook.TogglePin | src/hooks/useQuickReplies.ts:37-42 | corrected: the pins are the toggle of the current pins and storage holds exactly them, so the two stay in step |
| QuickReplies.StaleToggleLosesPin | src/hooks/useQuickReplies.ts:32-42 | as written, pinning "a" then "b" stores ["b"] and pinning "a" twice stores ["a"]; corrected, they store ["a","b"] and [] |
| MessageInput.CanSend | src/components/MessageInput.tsx:30 | the `canSend` memo; stated by CanSendIff |
| MessageInput.CanSendIff | src/components/MessageInput.tsx:30 | sending is allowed iff the composer is enabled and the text has a non-whitespace character |
| MessageInput.WithQuickReply | src/components/MessageInput.tsx:86 | the text after inserting a quick reply; stated by WithQuickReplySpec |
| MessageInput.WithQuickReplySpec | src/components/MessageInput.tsx:85-88 | empty text becomes the reply; otherwise the text is kept, then one space, then the reply, and the lengths add up |
| MessageInput.LeftCount | src/components/MessageInput.tsx:90-91 | a count is shown iff a limit is given, and it is never negative |
| MessageInput.LeftCountWithinLimit | src/components/MessageInput.tsx:90-91 | within the limit, the count is the limit minus the UTF-16 length |
| MessageInput.AcceptsInput | src/components/MessageInput.tsx:142 | a typed value is accepted unless a limit is given and its UTF-16 length exceeds it |
| MessageInput.QuickReplyCanPassLimit | src/components/MessageInput.tsx:85-91 | a quick reply can take the text past the limit that typing respects; the count then reads 0 |
| MessageInput.Composer.constructor | src/components/MessageInput.tsx:21-26 | the text starts empty and nothing is sent |
| MessageInput.Composer.Send | src/components/MessageInput.tsx:62-67 | a sendable text goes out trimmed and the text clears; otherwise nothing changes; every sent text is non-empty with no whitespace at either end |
| MessageInput.Composer.OnKeyDown | src/components/MessageInput.tsx:69-74 | the default is prevented iff the key is Enter without Shift, which then sends |
| MessageInput.Composer.AddQuickReply | src/components/MessageInput.tsx:85-88 | the text gains the reply; nothing is sent |
| MessageInput.Composer.OnChange | src/components/MessageInput.tsx:141-144 | a value over the limit is refused and the old text stays; typing keeps the text within the limit |
| AdminSignup.EmailPattern | src/admin/pages/AdminSignup.tsx:22 | `/.+@.+\..+/.test(email)`, unanchored; stated by EmailOfParts and EmailPatternNeeds |
| AdminSignup.CanSubmit | src/admin/pages/AdminSignup.tsx:19-27 | the `canSubmit` memo, conjunct for conjunct |
| AdminSignup.EmailOfParts | src/admin/pages/AdminSignup.tsx:22 | every local@domain.tld with non-empty single-line parts passes the pattern |
| AdminSignup.EmailPatternNeeds | src/admin/pages/AdminSignup.tsx:22 | a passing address has at least five characters, an `@` after the first, and a `.` at least two places after it |
| AdminSignup.CanSubmitSpec | src/admin/pages/AdminSignup.tsx:19-27 | an enabled button implies a non-blank trimmed name, a password of at least four characters equal to its confirmation, and an address of at least five characters |
| AdminSignup.ErrText | src/admin/pages/AdminSignup.tsx:194 | a field's error text: a list joined with spaces, a single message as it is, or "" |
| AdminSignup.ShowsHint | src/admin/pages/AdminSignup.tsx:199 | the hint shows when it is truthy and the error text is empty |
| AdminSignup.ShowsError | src/admin/pages/AdminSignup.tsx:200 | the error shows when its text is non-empty |
| AdminSignup.HintOrError | src/admin/pages/AdminSignup.tsx:194-200 | a field never shows its hint and an error together; a truthy hint shows unless an error does; a password mismatch shows its error instead of the hint |
| AdminSignup.FailureErrors | src/admin/pages/AdminSignup.tsx:56-58 | an object body becomes the error bag as it is |
| AdminSignup.FailureErrorsShown | src/admin/pages/AdminSignup.tsx:56-58 | a missing or empty body shows "Signup failed. Please try again." as the non-field error; a text body sets no field error |
| AdminSignup.Payload | src/admin/pages/AdminSignup.tsx:40-45 | the organisation name and email are trimmed and the password is kept; the name is sent iff it is non-blank after trimming |
| AdminSignup.SignupForm.constructor | src/admin/pages/AdminSignup.tsx:9-17 | all fields empty, not loading, no success, no errors, nothing posted |
| AdminSignup.SignupForm.HandleSubmit | src/admin/pages/AdminSignup.tsx:29-45 | on a mismatch, both password fields get the mismatch error and nothing is posted; otherwise the errors clear, loading is set and the payload is posted |
| AdminSignup.SignupForm.OnSignupSucceeded | src/admin/pages/AdminSignup.tsx:47-53 | success holds the result; the organisation id, user id and email are stored; loading clears |
| AdminSignup.SignupForm.OnSignupFailed | src/admin/pages/AdminSignup.tsx:54-61 | the errors come from the failure body and loading clears |
| SetPassword.Validate | src/routes/SetPassword.tsx:20-21 | the two client-side checks in order; stated by ValidateSpec |
| SetPassword.ValidateSpec | src/routes/SetPassword.tsx:18-22 | a request goes out iff the password has at least 8 UTF-16 units and both entries match; a short password is reported before a mismatch |
| SetPassword.FailureMessage | src/routes/SetPassword.tsx:27-31 | a truthy detail is shown; otherwise a text body is shown as it is |
| SetPassword.FailureMessageShown | src/routes/SetPassword.tsx:28-30 | the message is empty only for an empty text body; no body, or an object without a truthy detail, shows "Failed to set password." |
| SetPassword.SetPasswordForm.constructor | src/routes/SetPassword.tsx:7-16 | the link's uid and token are kept; both entries empty; not saving; no error; not done |
| SetPassword.SetPasswordForm.Submit | src/routes/SetPassword.tsx:18-24 | callable while not saving (the button is disabled while saving); a failed check sets its message and posts nothing; otherwise the error clears, saving is set and the request carries the uid, token and password |
| SetPassword.SetPasswordForm.OnSucceeded | src/routes/SetPassword.tsx:25-34 | done is set and saving clears |
| SetPassword.SetPasswordForm.OnFailed | src/routes/SetPassword.tsx:27-34 | the error is the failure message and saving clears |
| Ws.StaffWsUrl | src/lib/ws.ts:4-7 | `staffWsUrl`, in its source form; stated by StaffUrlIsAddress, StaffUrlParams and StaffUrlTokenExtends |
| Ws.GuestWsUrl | src/lib/ws.ts:8-10 | `guestWsUrl`, in its source form; stated by GuestUrlIsAddress and GuestUrlParams |
| Ws.StaffUrlIsAddress | src/lib/ws.ts:4-7 | the staff URL is the base path, `?`, then hotel, conversation and, for a truthy token, the encoded token, joined by `&` |
| Ws.StaffUrlParams | src/lib/ws.ts:4-7 | the staff URL's query reads back as hotel, conversation and, for a truthy token, the encoded token, in that order |
| Ws.StaffUrlTokenExtends | src/lib/ws.ts:4-7 | for an empty token the URL is the base one; a truthy token appends `&token=` plus its encoding |
| Ws.GuestUrlIsAddress | src/lib/ws.ts:8-10 | the guest URL is the base path, `?`, then hotel, conversation and guest session, joined by `&` |
| Ws.GuestUrlParams | src/lib/ws.ts:8-10 | the guest URL's query reads back as hotel, conversation and guest session, in that order |
| JsStrings.Trim | src/components/MessageInput.tsx:63 | `String.prototype.trim` with the ECMAScript whitespace set; stated by TrimEnds, TrimIsSlice, TrimRemovesWhitespace, TrimEmptyIff and TrimIdempotent |
| JsStrings.Includes | src/components/ConversationList.tsx:45 | `String.prototype.includes`: the needle occurs at some position |
| JsStrings.Join | src/components/ConversationList.tsx:10 | `Array.prototype.join`; stated by JoinAppend |
| JsStrings.Split | src/lib/ws.ts:5 | `String.prototype.split` on one character, the reading side of a query string, used only to state that the URL parameters read back; stated by SplitJoin |
| JsStrings.JsLength | src/components/MessageInput.tsx:91 | `length` in UTF-16 code units; stated by JsLengthBounds and JsLengthAppend |
| JsStrings.NatToDecimal | src/components/ConversationList.tsx:18 | a whole number in decimal inside a template literal; stated by DecimalRoundTrip |
| JsStrings.TrimEnds | src/components/MessageInput.tsx:63 | a non-empty trimmed text has no whitespace at either end |
| JsStrings.TrimIsSlice | src/components/MessageInput.tsx:63 | the trimmed text is a contiguous part of the original |
| JsStrings.TrimRemovesWhitespace | src/components/MessageInput.tsx:63 | everything cut off at either end is whitespace |
| JsStrings.TrimEmptyIff | src/components/MessageInput.tsx:30 | the trimmed text is empty iff the text is all whitespace |
| JsStrings.TrimIdempotent | src/components/ConversationList.tsx:38 | trimming twice is trimming once |
| JsStrings.ToLower | src/components/ConversationList.tsx:38 | lower-casing keeps the length |
| JsStrings.IncludesEmpty | src/components/ConversationList.tsx:45 | every text includes the empty query |
| JsStrings.JoinAppend | src/components/ConversationList.tsx:10 | joining two non-empty lists puts exactly one separator between their joins |
| JsStrings.SplitJoin | src/components/ConversationList.tsx:10 | splitting a join at a separator no part contains gives back the parts |
| JsStrings.JsLengthBounds | src/components/MessageInput.tsx:91 | the UTF-16 length lies between the number of characters and twice that, and is zero only for the empty text |
| JsStrings.JsLengthAppend | src/components/MessageInput.tsx:86 | the UTF-16 length of a concatenation is the sum of the lengths |
| JsStrings.DecimalRoundTrip | src/components/ConversationList.tsx:18 | a whole number's decimal digits read back as the number |

## Left out

- Network requests, WebSocket connections, timers, focus, scrolling, the
  textarea's auto-grow, the typing debounce, file attachment, navigation
  and rendering. The result of a request arrives as a method call
  (`FetchSucceeded`, `OnSignupFailed`, …). A navigation is returned as a
  value.
- The `api.ts` response interceptor (token refresh and its storage
  writes). It would change the token behind the auth store's back, so the
  store's storage/header invariant assumes nothing else writes those keys.
- `Date`, `Date.now()` and locale formatting. The chat window takes the
  day key as a function. `relTime` takes the whole seconds elapsed (or
  `None` for an unparsable date) and the locale date text as parameters.
  `WS_BASE` and `encodeURIComponent` are parameters too.
- The hotels slice, the admin CRUD pages, the guest QR route and the
  layout components are not part of this model. The hotel in use is a
  plain parameter, with no store field.
- `classNames` in src/components/MessageInput.tsx:13-15 is the same function
  as `cx` and is modelled once, by `ConversationList.Cx`.
- `fetchConversations` sends a `status` filter, and `useQuickReplies`
  sends a `department` parameter. Both only shape the request and are not
  modelled. A quick reply's `department` and `is_active` fields are
  likewise left out.
- Props of the composer (`maxLength`, `disabled`) are constants of a
  composer. A change of hotel in the quick-replies hook is a new hook
  (the key memo recomputes; the fetch effect restarts).
- `JsStrings.ToLower`: lower-cases ASCII letters only; full Unicode case
  mapping is not modelled.
- `PinCodec.Parse`: accepts only the compact form `JSON.stringify` writes
  (no whitespace between tokens, and no `\u` escapes for surrogate
  halves). Storage stays readable because only the codec writes it; any
  other text reads as a parse failure.
- `QuickReplies.QuickRepliesHook.constructor`: requires the stored pins
  to decode. In the original, a malformed value makes `JSON.parse` throw
  during render.
- `ConversationList.CountByStatus`: keys such as `__proto__` or
  `constructor`, which a plain object treats specially, are counted like
  any other status.
- `MessageInput.LeftCount`: a `maxLength` that is a number but not an
  integer, or is NaN, is not modelled. The limit is an optional whole
  number.
- `ConversationList.FieldText`: a `room_number` holding a non-string is
  not modelled (it is `String(...)`-converted in the original).
- `AdminSignup.FailureErrors` and `SetPassword.FailureMessage`: a
  response `detail` or field entry of a type other than string or string
  array is not modelled.
- `AdminSignup.CanSubmitSpec`: lists only necessary consequences of an
  enabled button. The characterisation is `AdminSignup.CanSubmit` itself,
  whose conjuncts are those of the source.
- The sign-up success screen and the set-password success text are
  rendering; only the state that selects them is modelled.

## Findings

| source | as written | input that shows it | evidently intended | confidence | as-written member | corrected member |
|---|---|---|---|---|---|---|
| src/hooks/useQuickReplies.ts:32-42 | `togglePin` toggles the `pins` memo. The memo depends only on `key`, so it is never re-read after a toggle. Each toggle starts from the pins loaded at mount. | Empty storage: pin "a", then pin "b". Storage ends as `["b"]`, and "a" is lost. Pinning "a" twice stores `["a"]`. | Each toggle works on the current pins, giving `["a","b"]` and `[]`. | not executed | QuickReplies.QuickRepliesHook.TogglePinAsWritten, QuickReplies.StaleToggleLosesPin | QuickReplies.QuickRepliesHook.TogglePin |
| src/components/ConversationList.tsx:49-59 | `focusIdx` is not reset or clamped when the filtered list shrinks. Enter reads `filtered[focusIdx].id`. | Two conversations: ArrowDown twice (focus 1). Then type a query that leaves one row and press Enter. `filtered[1]` is undefined and `.id` throws a TypeError. | Enter with a focus outside the list does not navigate and does not throw. | not executed | ConversationList.OnKeyAsWritten, ConversationList.StaleFocusAfterNarrowing | ConversationList.OnKey, ConversationList.ListFocus.HandleKey |
