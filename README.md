# Chat application store and view rules, in Dafny

This project models the in-memory backend of a small React chat application. It also models the pure rules two of its pages apply to that backend's data.

**The store.** `store.tsx` has four context providers:

- `UserProvider`: the users table.
- `AuthProvider`: the session, meaning the current user and token.
- `SettingsProvider`: the settings record.
- `ChatProvider`: the chat list, the active chat and the message threads.

All of them share `Store.AppStore`, one Dafny class whose fields are these tables. The class also holds the mock backend's own chat and message arrays, because the chat provider reads them and writes into them. Each provider operation is a method. The method replaces whole fields, and its `ensures` ties each new field to a pure function of the old state: `UpdateUsers`, `RemoveUser`, `BuildChatList`, `ChatListAfterSend` and so on. The properties the application relies on are proved about those functions:

- unique e-mails, nicknames and ids;
- a sorted chat list;
- only the targeted record changing;
- a chat, once created, being reopened rather than duplicated.

**The pages.** `ChatPage.tsx` and `SettingsAdminPage.tsx` contribute pure rules, which are modelled as functions with lemmas:

- the chat-list search;
- what a chat-list entry shows when its partner may have been deleted;
- the preview line and when an entry is disabled;
- when the message input sends;
- the contacts search and the admin user search;
- the admin self-delete guard;
- the admin access gate.

**Modules.**

- `Maybe`: Option.
- `Seqs`: `map` with a condition, `filter`, `find`, `findIndex`.
- `Strings`: ASCII lowering, `includes`, ECMAScript `trim`, `charCodeAt`.
- `Sorting`: the stable newest-first sort of `Array.prototype.sort`.
- `Types`: the records and constants of `types.ts` and `constants.ts`.
- `Store`: the providers.
- `ChatPage`, `SettingsAdminPage`: the page rules.

**How the model differs from a plain reading of the code.**

- **createOrOpenChat.** It looks for an existing direct chat with the other user before it checks that this user exists (store.tsx:332-347). A chat with a deleted partner is therefore reopened, not refused. `CreateOrOpenChat` models this order, and only an unknown user with no existing chat yields `None`.
- **Two sort keys.** The chat list is sorted by `lastMessage?.timestamp || 0` when it is built and after a send (store.tsx:282, 321), but by `lastMessage?.timestamp || createdAt` after a chat is created (store.tsx:361). "Sorted" is therefore proved of each result under the key that produced it, not as one invariant of the class.
- **Colour of an unnamed id.** For an empty chat id, `charCodeAt(0)` is NaN and the group colour is `undefined`. `GroupColor` returns `None` there.
- **Deleted partner.** The entry for a deleted partner is a copy of `UNKNOWN_USER_PLACEHOLDER`, and the code compares against the placeholder by reference (ChatPage.tsx:82, 101, 103). The model gives the copy and the placeholder itself distinct constructors of `ChatPage.DisplayUser`.
- **Message edits.** The provider's thread edit patches every message with the id. The mock backend's edit patches only the first one (store.tsx:370-378). `PatchFirstIsUpdateThread` shows the two agree when message ids are unique.

## Model

| member | source | states |
|---|---|---|
| Store.FindUser | store.tsx:35-37 | The user found is the first in the table with the id; nothing is found exactly when no user has the id. |
| Store.UpdateUsers | store.tsx:39-43 | Same length and order; every user with the id gets the patch merged in; every other user is unchanged. |
| Store.AppStore.UpdateUser | store.tsx:39-43 | Always returns true; the new table is `UpdateUsers` of the old one. |
| Store.RemoveUser | store.tsx:45-49 | No user with the id remains. Every other user remains, as often as in the table, and the result is an order-preserving subsequence of the table. |
| Store.RemoveAbsentUser | store.tsx:45-49 | Deleting an id no user has leaves the table unchanged. |
| Store.AppStore.DeleteUserByAdmin | store.tsx:45-49 | Always returns true; the new table is `RemoveUser` of the old one; unique e-mails, nicknames and ids stay unique. |
| Store.FindCredentials | store.tsx:93 | The account found is the first with both the e-mail and the password hash; nothing is found exactly when no account has both. |
| Store.AppStore.Login | store.tsx:89-105 | Succeeds iff an account matches. On success that account becomes current, the new token is set, and only its row goes Online with lastSeen = now. On failure nothing changes. Uniqueness is preserved. |
| Store.NewAccount | store.tsx:115-123 | The appended account is not an admin, is Online, and carries the given id, e-mail, nickname and password hash. |
| Store.SignupKeepsAccountsUnique | store.tsx:111-125 | Appending an account whose e-mail and nickname are both untaken keeps e-mails and nicknames unique. |
| Store.FreshIdKeepsIdsUnique | store.tsx:115-125 | Appending an account with an unused id keeps ids unique. |
| Store.AppStore.Signup | store.tsx:107-132 | Refused, with nothing changed, iff some account has the e-mail or the nickname. Otherwise exactly one new account is appended and becomes current with the new token. Unique e-mails and nicknames stay unique, and so do ids when the new id is fresh. |
| Store.PresenceKeepsUnique | store.tsx:100 | A presence update on login or logout keeps e-mails, nicknames and ids unique. |
| Store.RemoveKeepsUnique | store.tsx:47 | Removing users keeps e-mails, nicknames and ids unique. |
| Store.AppStore.Logout | store.tsx:134-141 | The previously current user's row goes Offline with lastSeen = now, and no other row changes; with nobody logged in the table is unchanged. The session is cleared either way. |
| Store.AppStore.UpdateCurrentUser | store.tsx:143-155 | With nobody logged in nothing changes. Otherwise the edit is merged into the current user, whose id is kept, and into that id's table rows only. |
| Store.ProfileEditKeepsRowInSync | store.tsx:143-155 | A row equal to the current user is still equal to it after the edit. |
| Store.ProfileEditCanDuplicateNickname | store.tsx:143-155 | Unlike signup, the profile edit does not check nicknames: an edit can make two accounts share one. |
| Store.LogoutAfterRemovalIsNoop | store.tsx:160-161 | Once the account is removed, logout's status update changes no row. |
| Store.AppStore.DeleteAccount | store.tsx:157-163 | Refused, with nothing changed, iff nobody is logged in. Otherwise the current user's rows are removed and the session is cleared. |
| Store.ApplySetting | store.tsx:233-235 | Exactly the key named by the change takes the new value; the other keys keep theirs. |
| Store.AppStore.UpdateSetting | store.tsx:233-235 | The new settings are `ApplySetting` of the old ones. |
| Store.OtherParticipant | store.tsx:272 | The participant found is the chat's first one that is not the given user; none is found iff every participant is that user. |
| Store.WithLatestMessage | store.tsx:278-281 | An existing last message is kept. Otherwise the chat's thread's final message is used, if the thread has one. All other fields are unchanged. |
| Store.VisibleChats | store.tsx:265-281 | The result is the visible mock chats, in their order, each completed with its latest message. So every chat kept is visible to the user and comes from the mock chats, and every visible mock chat is kept. |
| Store.BuildChatList | store.tsx:263-282 | Every chat listed includes the user. A two-person direct chat is listed only if the partner still exists. The list is sorted newest first by last-message time or 0. Every visible mock chat is listed with its latest message, and every chat listed is one of them. That it is a permutation of them, with no duplicated entry, is `BuildChatListPermutes` and `BuildChatListCounts`. |
| Store.BuildChatListPermutes | store.tsx:263-282 | The built list is a permutation of `VisibleChats`. |
| Store.VisibleChatsCounts | store.tsx:265-281 | With distinct mock chat ids, each visible mock chat appears once, completed, and no other mock chat appears. |
| Store.BuildChatListCounts | store.tsx:263-282 | With distinct mock chat ids, the built list holds each visible mock chat exactly once and no other. |
| Store.AppStore.RefreshChatList | store.tsx:263-290 | With a current user, the list is `BuildChatList` and the threads are reloaded. Without one, list, threads and active chat are cleared. |
| Store.AppStore.FetchMessages | store.tsx:293-296 | Only that chat's thread is replaced, by the mock backend's thread or by the empty one. |
| Store.NewMessage | store.tsx:300-308 | The message has the chat id, the sender, the text and the type given. |
| Store.AppendToThread | store.tsx:311-316 | That chat's thread becomes the old thread (or the empty one) plus the message; every other thread is unchanged. |
| Store.ChatListAfterSend | store.tsx:318-322 | Sorted newest first. Same length. Chats with the id have the message as their last message. Every other chat is kept, and every chat listed is an updated or kept one. That no entry is duplicated is `ChatListAfterSendPermutes`. |
| Store.ChatListAfterSendPermutes | store.tsx:318-322 | The list after a send is a permutation of the old list with the sent-to chats given the message. |
| Store.AppStore.SendMessage | store.tsx:298-323 | Without a current user nothing changes. Otherwise exactly one message from the current user is appended to that chat's thread, both in the provider and in the mock backend, and the chat list becomes `ChatListAfterSend`. |
| Store.FindChat | store.tsx:325-327 | The chat found is the first in the list with the id; nothing is found iff no chat has the id. |
| Store.FindDirectChat | store.tsx:332-336 | The chat found is the list's first non-group chat with both users; nothing is found iff the list has no such chat. |
| Store.NewDirectChat | store.tsx:349-358 | A non-group chat with the new id, participants [current, other], created now, and no last message. |
| Store.ChatListAfterCreate | store.tsx:361 | Sorted newest first by last-message time or creation time. One chat longer. Holds the new chat and every old one, and every chat listed is one of them. That no entry is duplicated is `ChatListAfterCreatePermutes`. |
| Store.ChatListAfterCreatePermutes | store.tsx:361 | The list after a create is a permutation of the new chat followed by the old list. |
| Store.CreatedChatIsReopened | store.tsx:332-363 | After a chat is created, the direct-chat lookup for the same two users finds exactly that chat. |
| Store.AppStore.CreateOrOpenChat | store.tsx:329-365 | No current user: `None`, nothing changes. An existing direct chat: its id is returned and made active, and nothing is added. Otherwise: `None` for an unknown user; for a known one a new direct chat is added to the list and to the mock chats, made active, and its id returned. |
| Store.OpenChatTwice | store.tsx:329-365 | Two calls for the same user add at most one chat, and once the first succeeds the second returns the same id. |
| Store.UpdateThread | store.tsx:367-374 | Same length. Every message with the id gets the patch merged in; every other message is unchanged. |
| Store.PatchFirst | store.tsx:375-380 | Only the first message with the id gets the patch merged in. Messages without the id, and later messages with it, are unchanged. |
| Store.PatchFirstIsUpdateThread | store.tsx:367-380 | When message ids are unique, the mock backend's edit and the provider's edit give the same thread. |
| Store.AppStore.UpdateMessageInChat | store.tsx:367-381 | The provider's thread becomes `UpdateThread` of the old one (or of the empty one). The mock backend's thread, when present, becomes `PatchFirst` of it. Nothing else changes. |
| Store.AppStore.constructor | store.tsx:259-261 | Nobody is logged in, the chat list is empty, no chat is active, and the threads are the mock ones. |
| Sorting.SortNewestFirst | store.tsx:282 | The result is sorted by non-increasing key and is a permutation of the input. |
| Sorting.SortStable | store.tsx:282 | The sort is stable: the chats sharing a key come out in their input order. |
| Strings.IncludesIffOccurs | ChatPage.tsx:141 | `includes` holds iff the needle occurs at some position of the haystack. |
| Strings.TrimEmptyIffBlank | ChatPage.tsx:242 | A string trims to nothing iff every character of it is ECMAScript white space. |
| Strings.FirstCodeUnit | ChatPage.tsx:90 | `charCodeAt(0)` is below 0x10000. It is the character itself for BMP characters. For an astral character it is the high surrogate whose 1024-code-point block holds that character. |
| ChatPage.EmptyTermMatches | ChatPage.tsx:141 | The empty search term matches every field. |
| ChatPage.MatchesIgnoresTermCase | ChatPage.tsx:141 | Lowering the term first changes no match. |
| ChatPage.FilterChats | ChatPage.tsx:136-156 | The result is an order-preserving subsequence holding exactly the chats the rule keeps, each as often as in the list. It is empty without a current user. |
| ChatPage.EmptySearchListsChatsWithPartner | ChatPage.tsx:136-156 | With an empty term, every group chat and every direct chat with another participant is kept, even if that partner was deleted. |
| ChatPage.ChatSearchIgnoresTermCase | ChatPage.tsx:136-156 | The chat search gives the same list for a term and for its lower-case form. |
| ChatPage.GroupColor | ChatPage.tsx:90 | For a non-empty id the colour is `AVATAR_COLORS[charCodeAt(0) % 17]`, so it is always one of the colours. An empty id has no colour. |
| ChatPage.DisplayUserFor | ChatPage.tsx:69-94 | An existing partner shows that user. A deleted partner shows a placeholder copy whose name and nickname are the participant's nickname, or "Unknown User" and "unknown" when that is empty. A named group with no other participant shows its name and colour. Anything else shows the placeholder itself. |
| ChatPage.PreviewText | ChatPage.tsx:98-101 | Image, File and Like messages get their labels. A text message shows its non-empty text. Otherwise the preview is "Chat with unknown user" for the placeholder and "No messages yet" for everyone else. |
| ChatPage.DisabledIffNoPartner | ChatPage.tsx:103 | An entry is disabled iff it is a direct chat with no participant besides the current user; a deleted partner does not disable it. |
| ChatPage.NoMessagePreview | ChatPage.tsx:72-101 | For a chat without messages, "Chat with unknown user" appears exactly when there is no partner and no named group; a deleted partner gets "No messages yet". |
| ChatPage.ChatListItem | ChatPage.tsx:65-103 | Nothing is rendered iff there is no current user. Otherwise the entry shows the `DisplayUserFor` user and the `PreviewText` of that user, and the disabled flag is the no-partner rule. |
| ChatPage.HandleSend | ChatPage.tsx:241-245 | Nothing is sent, and the draft is kept, iff the draft is all white space; this is also when the send button is disabled (ChatPage.tsx:297). Otherwise the trimmed draft goes out as a Text message: it is non-empty and blank at neither end. The draft is then cleared. |
| ChatPage.HandleLike | ChatPage.tsx:247-249 | Always sends one thumbs-up as a Like message and leaves the draft alone. |
| ChatPage.HandleKeyDown | ChatPage.tsx:251-256 | Enter without Shift is a send; any other key sends nothing. |
| ChatPage.EmojiEdges | ChatPage.tsx:258 | No emoji of the picker begins or ends with white space. |
| ChatPage.TrimOfEmojiDraft | ChatPage.tsx:258-262 | Trimming a draft with an emoji appended gives the draft without its leading blanks, followed by the emoji. |
| ChatPage.EmojiMakesDraftSendable | ChatPage.tsx:258-262 | After an emoji is appended, the draft always sends, and what is sent is the draft without its leading blanks, followed by the emoji. |
| ChatPage.FilterContacts | ChatPage.tsx:416-418 | The result is an order-preserving subsequence without the current user. It holds exactly the users whose name or nickname contains the term, each as often as in the table. |
| ChatPage.ContactsWithoutSearch | ChatPage.tsx:416-418 | With an empty term the contacts are the users table minus the current user. |
| SettingsAdminPage.FilterUsers | SettingsAdminPage.tsx:157-161 | The result is an order-preserving subsequence holding exactly the users whose name, nickname or e-mail contains the term, each as often as in the table. |
| SettingsAdminPage.EmptySearchListsEveryone | SettingsAdminPage.tsx:157-161 | With an empty term every user is listed. |
| SettingsAdminPage.AdminSearchIgnoresTermCase | SettingsAdminPage.tsx:157-161 | The admin search gives the same list for a term and for its lower-case form. |
| SettingsAdminPage.DeleteDecision | SettingsAdminPage.tsx:137-147 | Refused iff the row is the current user's own. Otherwise the user is deleted iff the dialog is confirmed, and cancelled iff it is not. |
| SettingsAdminPage.AdminPanel.constructor | SettingsAdminPage.tsx:132 | No row is being deleted at first. |
| SettingsAdminPage.HandleDeleteUser | SettingsAdminPage.tsx:137-147 | The outcome is `DeleteDecision`. Only a deletion changes the table, to `RemoveUser` of it, and leaves no row marked as deleting. A refusal or a cancel changes nothing. |
| SettingsAdminPage.EnabledDeleteIsNeverSelf | SettingsAdminPage.tsx:215 | The admin's own row has its button disabled. A click on an enabled button is never refused as self-deletion: it deletes iff confirmed. |
| SettingsAdminPage.RenderPage | SettingsAdminPage.tsx:243-273 | The admin panel is shown iff the admin view is asked for by an admin. Access denied is shown iff anyone else asks for it. The settings view is always shown when asked for. |
| SettingsAdminPage.HandleSettingChange | SettingsAdminPage.tsx:21-23 | Exactly one change is forwarded; the new settings are `ApplySetting` of the old ones. |

## Left out

- Delays and interleaving: the `setTimeout` waits inside the operations, and React's effect scheduling. Each operation is one atomic step, and races between stale closures are not modelled.
- Persistence: the localStorage reads and writes of the users table (store.tsx:14-33), of the token and of the settings. The constructor's `initialUsers` and `initialSettings` stand in for what was loaded.
- The token effect (store.tsx:72-86): it runs again after every change of the token or of the users table, so after each login, signup, logout and users-table edit. With a token and a non-empty table, it re-derives `currentUser` from the token. It then marks that user Online again, with a fresh lastSeen, if the row is not Online. So a status that an admin or profile edit gives the logged-in user's row is overwritten. Without a token it clears `currentUser`. None of this is modelled, because the `decodeToken` helper is not part of this model. In the model `currentUser` changes only through the operations, and a row keeps whatever status they give it.
- Browser I/O: the OS colour-scheme query and the document `lang`, `dir` and class updates that follow a settings change.
- Helpers that are not part of this model:
  - `generateId` and `generateToken`: callers pass ids and tokens in.
  - `getRandomColor`: a function parameter of `Signup`.
  - `formatTimestamp`, `getInitials`: display only.
- Dates: ISO timestamps and `Date` parsing are integers. An unparsable date, and the NaN it sorts as, is not modelled.
- Case folding: `toLowerCase` is ASCII-only lowering; other letters keep their case.
- Provider guards that always pass once the providers are nested as the application nests them (`!userContext?.users` in login and signup, `!getUserById` in createOrOpenChat): not modelled.
- Signup's spread copies `avatarInitialColorSeed` into the stored record. The model's `User` has no such field, so the new account carries only the fields of `types.ts`.
- Store.AppStore.SendMessage: the source's default argument `type = MessageType.Text` (store.tsx:298) is the explicit parameter `mtype`; a caller that omits the type passes `Text`.
- Patches with keys outside the record type (`Partial<User>` at run time): patches are limited to the record's own fields.
- SettingsAdminPage.HandleDeleteUser: the in-progress marker is set and cleared within the one atomic step. Its intermediate value, which drives the spinner, is not observable in the model. The confirmation dialog's answer is the boolean `confirmed`, and its text is not modelled, nor is the alert for a refused self-deletion.
- `handleDeleteMyAccount` on the settings screen: it only calls `deleteAccount` (modelled as `DeleteAccount`) and shows an alert.
- `handleViewUser` and the profile modal, `AuthPage.tsx`, `ProfilePage.tsx`, `ui.tsx`, routing, and the mobile layout: presentation and wiring around the modelled operations.
- ChatListItem's unread badge, active-entry highlight, timestamps and avatar rendering: presentation only. MessageInput's textarea editing and the closing of the emoji picker: widget state.
