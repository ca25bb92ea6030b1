/**
 * The in-memory backend of the chat application: the users table, the auth
 * session, the settings record, the chat list and the message threads, and the
 * operations the four providers of store.tsx offer on them.
 *
 * Each operation replaces whole tables; the new table is a pure function of the
 * old one, defined and specified first, and the class `AppStore` assigns it.
 * Ids, tokens, timestamps and avatar colours come from helpers that are not part
 * of this model, so the operations receive them as parameters.
 */
module Store {
  import opened Maybe
  import opened Seqs
  import opened Sorting
  import opened Types

  // ---------------------------------------------------------------------------
  // The users table (UserProvider)

  function HasId(id: string): User -> bool
  {
    (u: User) => u.id == id
  }

  function LacksId(id: string): User -> bool
  {
    (u: User) => u.id != id
  }

  /** `getUserById`: `users.find(u => u.id === id)`. */
  function FindUser(users: seq<User>, id: string): (r: Option<User>)
    ensures r.Some? ==> r.value in users && r.value.id == id
    ensures r.Some? ==> IsFirstWhere(users, HasId(id), r.value)
    ensures r.None? <==> forall i :: 0 <= i < |users| ==> users[i].id != id
  {
    FindWhere(users, HasId(id))
  }

  /** `{ ...u, ...patch }`. */
  function MergeUser(u: User, p: UserPatch): User
  {
    User(
      p.id.GetOr(u.id), p.name.GetOr(u.name), p.nickname.GetOr(u.nickname),
      p.email.GetOr(u.email), p.passwordHash.GetOr(u.passwordHash),
      p.avatarUrl.GetOr(u.avatarUrl), p.avatarBgColor.GetOr(u.avatarBgColor),
      p.isAdmin.GetOr(u.isAdmin), p.status.GetOr(u.status),
      p.joinedAt.GetOr(u.joinedAt), p.lastSeen.GetOr(u.lastSeen))
  }

  function MergeWith(p: UserPatch): User -> User
  {
    (u: User) => MergeUser(u, p)
  }

  /** The patch `{ status, lastSeen: now }` that login and logout apply. */
  function PresencePatch(status: UserStatus, now: int): UserPatch
  {
    UserPatch(None, None, None, None, None, None, None, None, Some(status), None, Some(Some(now)))
  }

  /** A profile edit as a general user patch: it never touches id, e-mail, password or role. */
  function ProfileAsUserPatch(p: ProfilePatch): UserPatch
  {
    UserPatch(None, p.name, p.nickname, None, None, p.avatarUrl, p.avatarBgColor, None, None, None, None)
  }

  /** `users.map(u => u.id === id ? { ...u, ...patch } : u)`. */
  function UpdateUsers(users: seq<User>, id: string, patch: UserPatch): (r: seq<User>)
    ensures |r| == |users|
    ensures forall i :: 0 <= i < |users| && users[i].id == id ==> r[i] == MergeUser(users[i], patch)
    ensures forall i :: 0 <= i < |users| && users[i].id != id ==> r[i] == users[i]
  {
    MapIf(users, HasId(id), MergeWith(patch))
  }

  /** `users.filter(u => u.id !== id)`. */
  function RemoveUser(users: seq<User>, id: string): (r: seq<User>)
    ensures forall i :: 0 <= i < |r| ==> r[i].id != id && r[i] in users
    ensures forall i :: 0 <= i < |users| && users[i].id != id ==> users[i] in r
    ensures IsSubsequence(r, users)
    ensures forall x :: multiset(r)[x] == if x.id != id then multiset(users)[x] else 0
  {
    FilterMultiset(users, LacksId(id));
    Filter(users, LacksId(id))
  }

  /** Removing an id nobody has leaves the table as it was. */
  lemma RemoveAbsentUser(users: seq<User>, id: string)
    requires FindUser(users, id).None?
    ensures RemoveUser(users, id) == users
  {
    FilterKeepsAll(users, LacksId(id));
  }

  /** After the account is removed, logout's status update finds no row to touch. */
  lemma LogoutAfterRemovalIsNoop(users: seq<User>, id: string, now: int)
    ensures UpdateUsers(RemoveUser(users, id), id, PresencePatch(Offline, now)) == RemoveUser(users, id)
  {
    var rest := RemoveUser(users, id);
    MapIfNoMatch(rest, HasId(id), MergeWith(PresencePatch(Offline, now)));
  }

  function EmailOf(u: User): string { u.email }
  function NicknameOf(u: User): string { u.nickname }
  function IdOf(u: User): string { u.id }

  /** No two accounts share an e-mail address or a nickname. */
  ghost predicate UniqueAccounts(users: seq<User>)
  {
    DistinctBy(users, EmailOf) && DistinctBy(users, NicknameOf)
  }

  ghost predicate UniqueUserIds(users: seq<User>)
  {
    DistinctBy(users, IdOf)
  }

  /** `users.some(u => u.email === email || u.nickname === nickname)`: the check signup refuses on. */
  predicate AccountTaken(users: seq<User>, email: string, nickname: string)
  {
    exists i :: 0 <= i < |users| && (users[i].email == email || users[i].nickname == nickname)
  }

  /** The seed of the new account's colour: `avatarInitialColorSeed || name`. */
  function ColorSeed(data: SignupData): string
  {
    if Truthy(data.avatarInitialColorSeed) then data.avatarInitialColorSeed.value else data.name
  }

  /** The record signup appends. */
  function NewAccount(data: SignupData, id: string, color: string, now: int): (u: User)
    ensures !u.isAdmin && u.status == Online
    ensures u.id == id && u.email == data.email && u.nickname == data.nickname && u.passwordHash == data.passwordHash
  {
    User(id, data.name, data.nickname, data.email, data.passwordHash, data.avatarUrl,
         color, false, Online, now, Some(now))
  }

  /** Appending an account whose e-mail and nickname are not taken keeps accounts unique. */
  lemma SignupKeepsAccountsUnique(users: seq<User>, u: User)
    requires UniqueAccounts(users)
    requires !AccountTaken(users, u.email, u.nickname)
    ensures UniqueAccounts(users + [u])
  {
    var r := users + [u];
    forall i, j | 0 <= i < j < |r| ensures r[i].email != r[j].email && r[i].nickname != r[j].nickname {
      if j == |users| {
        assert r[i] == users[i] && r[j] == u;
      } else {
        assert r[i] == users[i] && r[j] == users[j];
        assert EmailOf(users[i]) != EmailOf(users[j]) && NicknameOf(users[i]) != NicknameOf(users[j]);
      }
    }
  }

  /** A fresh id keeps ids unique. */
  lemma FreshIdKeepsIdsUnique(users: seq<User>, u: User)
    requires UniqueUserIds(users)
    requires FindUser(users, u.id).None?
    ensures UniqueUserIds(users + [u])
  {
    var r := users + [u];
    forall i, j | 0 <= i < j < |r| ensures IdOf(r[i]) != IdOf(r[j]) {
      if j == |users| {
        assert r[i] == users[i] && r[j] == u;
      } else {
        assert r[i] == users[i] && r[j] == users[j];
      }
    }
  }

  /** Removing accounts keeps accounts and ids unique. */
  lemma RemoveKeepsUnique(users: seq<User>, id: string)
    requires UniqueAccounts(users) && UniqueUserIds(users)
    ensures UniqueAccounts(RemoveUser(users, id)) && UniqueUserIds(RemoveUser(users, id))
  {
    var r := RemoveUser(users, id);
    SubsequenceDistinct(r, users, EmailOf);
    SubsequenceDistinct(r, users, NicknameOf);
    SubsequenceDistinct(r, users, IdOf);
  }

  /** A presence change (login, logout) touches neither e-mail, nickname nor id, so uniqueness survives it. */
  lemma PresenceKeepsUnique(users: seq<User>, id: string, status: UserStatus, now: int)
    requires UniqueAccounts(users) && UniqueUserIds(users)
    ensures UniqueAccounts(UpdateUsers(users, id, PresencePatch(status, now)))
    ensures UniqueUserIds(UpdateUsers(users, id, PresencePatch(status, now)))
  {
    var r := UpdateUsers(users, id, PresencePatch(status, now));
    forall i, j | 0 <= i < j < |r|
      ensures EmailOf(r[i]) != EmailOf(r[j]) && NicknameOf(r[i]) != NicknameOf(r[j]) && IdOf(r[i]) != IdOf(r[j])
    {
      assert EmailOf(r[i]) == EmailOf(users[i]) && EmailOf(r[j]) == EmailOf(users[j]);
      assert NicknameOf(r[i]) == NicknameOf(users[i]) && NicknameOf(r[j]) == NicknameOf(users[j]);
      assert IdOf(r[i]) == IdOf(users[i]) && IdOf(r[j]) == IdOf(users[j]);
    }
  }

  function HasCredentials(email: string, pass: string): User -> bool
  {
    (u: User) => u.email == email && u.passwordHash == pass
  }

  /** `users.find(u => u.email === email && u.passwordHash === pass)`: the account login accepts. */
  function FindCredentials(users: seq<User>, email: string, pass: string): (r: Option<User>)
    ensures r.Some? ==> r.value in users && r.value.email == email && r.value.passwordHash == pass
    ensures r.Some? ==> IsFirstWhere(users, HasCredentials(email, pass), r.value)
    ensures r.None? <==> forall i :: 0 <= i < |users| ==> !(users[i].email == email && users[i].passwordHash == pass)
  {
    FindWhere(users, HasCredentials(email, pass))
  }

  /**
   * Unlike signup, a profile edit does not check that the new nickname is free:
   * two accounts can end up sharing one.
   */
  lemma ProfileEditCanDuplicateNickname()
    ensures exists users: seq<User>, id: string, p: ProfilePatch ::
              UniqueAccounts(users) && !UniqueAccounts(UpdateUsers(users, id, ProfileAsUserPatch(p)))
  {
    var a := User("u1", "Alice", "alice", "alice@example.com", "h1", None, "bg-red-500", false, Offline, 0, None);
    var b := User("u2", "Bob", "bob", "bob@example.com", "h2", None, "bg-red-500", false, Offline, 0, None);
    var users := [a, b];
    var p := ProfilePatch(None, Some("bob"), None, None);
    var r := UpdateUsers(users, "u1", ProfileAsUserPatch(p));
    assert NicknameOf(r[0]) == NicknameOf(r[1]);
    assert UniqueAccounts(users) by {
      forall i, j | 0 <= i < j < |users| ensures EmailOf(users[i]) != EmailOf(users[j]) && NicknameOf(users[i]) != NicknameOf(users[j]) {
        assert i == 0 && j == 1;
      }
    }
    assert !UniqueAccounts(r);
  }

  /** The profile edit keeps the current user and their table row equal when they were equal before. */
  lemma ProfileEditKeepsRowInSync(users: seq<User>, current: User, p: ProfilePatch, i: nat)
    requires i < |users| && users[i] == current
    ensures MergeUser(current, ProfileAsUserPatch(p)).id == current.id
    ensures UpdateUsers(users, current.id, ProfileAsUserPatch(p))[i] == MergeUser(current, ProfileAsUserPatch(p))
  {
  }

  // ---------------------------------------------------------------------------
  // Settings (SettingsProvider)

  /** `{ ...s, [key]: value }`: exactly the one key changes. */
  function ApplySetting(s: AppSettings, change: SettingChange): (r: AppSettings)
    ensures change.SetTheme? ==> r.theme == change.theme && r.language == s.language && r.notificationsEnabled == s.notificationsEnabled
    ensures change.SetLanguage? ==> r.language == change.language && r.theme == s.theme && r.notificationsEnabled == s.notificationsEnabled
    ensures change.SetNotifications? ==> r.notificationsEnabled == change.enabled && r.theme == s.theme && r.language == s.language
  {
    match change
    case SetTheme(t) => s.(theme := t)
    case SetLanguage(l) => s.(language := l)
    case SetNotifications(b) => s.(notificationsEnabled := b)
  }

  // ---------------------------------------------------------------------------
  // Chats and threads (ChatProvider)

  function HasChatId(chatId: string): Chat -> bool
  {
    (c: Chat) => c.id == chatId
  }

  function ChatIdOf(c: Chat): string { c.id }

  /** `{ ...chat, lastMessage: m }`. */
  function WithLastMessage(m: Message): Chat -> Chat
  {
    (c: Chat) => c.(lastMessage := Some(m))
  }

  /** `chat.participants.some(p => p.userId === userId)`. */
  predicate Involves(chat: Chat, userId: string)
  {
    exists i :: 0 <= i < |chat.participants| && chat.participants[i].userId == userId
  }

  function IsOtherThan(userId: string): ChatParticipant -> bool
  {
    (p: ChatParticipant) => p.userId != userId
  }

  /** `chat.participants.find(p => p.userId !== userId)`. */
  function OtherParticipant(chat: Chat, userId: string): (r: Option<ChatParticipant>)
    ensures r.Some? ==> r.value in chat.participants && r.value.userId != userId
    ensures r.Some? ==> IsFirstWhere(chat.participants, IsOtherThan(userId), r.value)
    ensures r.None? <==> forall i :: 0 <= i < |chat.participants| ==> chat.participants[i].userId == userId
  {
    FindWhere(chat.participants, IsOtherThan(userId))
  }

  /** The filter of the chat-list build: the user takes part, and a two-person chat's partner still exists. */
  predicate VisibleTo(chat: Chat, users: seq<User>, userId: string)
  {
    if !Involves(chat, userId) then false
    else if !chat.isGroup && |chat.participants| == 2 then
      match OtherParticipant(chat, userId)
      case None => false
      case Some(other) => FindUser(users, other.userId).Some?
    else true
  }

  /** `threads[chatId] || []`. */
  function ThreadOf(threads: map<string, seq<Message>>, chatId: string): seq<Message>
  {
    if chatId in threads then threads[chatId] else []
  }

  /** `chat.lastMessage || threads[chat.id]?.[threads[chat.id].length - 1]`. */
  function WithLatestMessage(chat: Chat, threads: map<string, seq<Message>>): (r: Chat)
    ensures r.id == chat.id && r.participants == chat.participants && r.isGroup == chat.isGroup
    ensures r.createdAt == chat.createdAt && r.name == chat.name && r.unreadCount == chat.unreadCount
    ensures chat.lastMessage.Some? ==> r.lastMessage == chat.lastMessage
    ensures chat.lastMessage.None? && ThreadOf(threads, chat.id) != [] ==>
              r.lastMessage == Some(ThreadOf(threads, chat.id)[|ThreadOf(threads, chat.id)| - 1])
    ensures chat.lastMessage.None? && ThreadOf(threads, chat.id) == [] ==> r.lastMessage.None?
  {
    if chat.lastMessage.Some? then chat
    else
      var thread := ThreadOf(threads, chat.id);
      if thread == [] then chat else chat.(lastMessage := Some(thread[|thread| - 1]))
  }

  /** The sort key of the chat list: `lastMessage?.timestamp || 0`. */
  function TimeOrZero(c: Chat): int
  {
    if c.lastMessage.Some? then c.lastMessage.value.timestamp else 0
  }

  /** The sort key after a chat is created: `lastMessage?.timestamp || createdAt`. */
  function TimeOrCreated(c: Chat): int
  {
    if c.lastMessage.Some? then c.lastMessage.value.timestamp else c.createdAt
  }

  function IsVisibleTo(users: seq<User>, userId: string): Chat -> bool
  {
    (c: Chat) => VisibleTo(c, users, userId)
  }

  function CompletedFrom(threads: map<string, seq<Message>>): Chat -> Chat
  {
    (c: Chat) => WithLatestMessage(c, threads)
  }

  /** The chats the build keeps, each completed with its latest message. */
  function VisibleChats(mockChats: seq<Chat>, mockThreads: map<string, seq<Message>>, users: seq<User>, userId: string): (r: seq<Chat>)
    ensures forall k :: 0 <= k < |r| ==> VisibleTo(r[k], users, userId)
    ensures forall k :: 0 <= k < |r| ==> exists j :: 0 <= j < |mockChats| && r[k] == WithLatestMessage(mockChats[j], mockThreads)
    ensures forall j :: 0 <= j < |mockChats| && VisibleTo(mockChats[j], users, userId) ==>
              WithLatestMessage(mockChats[j], mockThreads) in r
    ensures |r| <= |mockChats|
    ensures |r| == |Filter(mockChats, IsVisibleTo(users, userId))|
    ensures forall k :: 0 <= k < |r| ==> r[k] == WithLatestMessage(Filter(mockChats, IsVisibleTo(users, userId))[k], mockThreads)
  {
    var visible := Filter(mockChats, IsVisibleTo(users, userId));
    var r := Map(visible, CompletedFrom(mockThreads));
    FilterMapMembers(mockChats, IsVisibleTo(users, userId), CompletedFrom(mockThreads));
    forall k | 0 <= k < |r|
      ensures VisibleTo(r[k], users, userId)
      ensures exists j :: 0 <= j < |mockChats| && r[k] == WithLatestMessage(mockChats[j], mockThreads)
    {
      var j :| 0 <= j < |mockChats| && IsVisibleTo(users, userId)(mockChats[j]) && r[k] == CompletedFrom(mockThreads)(mockChats[j]);
      assert r[k].participants == mockChats[j].participants && r[k].isGroup == mockChats[j].isGroup;
    }
    r
  }

  /** The chat list built for the current user from the mock chats (store.tsx:265-282). */
  function BuildChatList(mockChats: seq<Chat>, mockThreads: map<string, seq<Message>>, users: seq<User>, userId: string): (r: seq<Chat>)
    ensures SortedDesc(r, TimeOrZero)
    ensures |r| <= |mockChats|
    ensures forall i :: 0 <= i < |r| ==> Involves(r[i], userId)
    ensures forall i :: 0 <= i < |r| && !r[i].isGroup && |r[i].participants| == 2 ==>
              OtherParticipant(r[i], userId).Some? && FindUser(users, OtherParticipant(r[i], userId).value.userId).Some?
    ensures forall i :: 0 <= i < |r| ==>
              exists j :: 0 <= j < |mockChats| && r[i] == WithLatestMessage(mockChats[j], mockThreads)
    ensures forall j :: 0 <= j < |mockChats| && VisibleTo(mockChats[j], users, userId) ==>
              WithLatestMessage(mockChats[j], mockThreads) in r
  {
    var filled := VisibleChats(mockChats, mockThreads, users, userId);
    SortKeepsAll(filled, TimeOrZero);
    SortNewestFirst(filled, TimeOrZero)
  }

  /** The sorted list is a permutation of the visible chats. */
  lemma BuildChatListPermutes(mockChats: seq<Chat>, mockThreads: map<string, seq<Message>>, users: seq<User>, userId: string)
    ensures multiset(BuildChatList(mockChats, mockThreads, users, userId)) == multiset(VisibleChats(mockChats, mockThreads, users, userId))
  {
    var filled := VisibleChats(mockChats, mockThreads, users, userId);
    assert BuildChatList(mockChats, mockThreads, users, userId) == SortNewestFirst(filled, TimeOrZero);
  }

  /** With distinct mock chat ids, each visible mock chat is completed once and every other one not at all. */
  lemma VisibleChatsCounts(mockChats: seq<Chat>, mockThreads: map<string, seq<Message>>, users: seq<User>, userId: string, x: Chat)
    requires DistinctBy(mockChats, ChatIdOf)
    requires x in mockChats
    ensures multiset(VisibleChats(mockChats, mockThreads, users, userId))[WithLatestMessage(x, mockThreads)] ==
            if VisibleTo(x, users, userId) then 1 else 0
  {
    var f := CompletedFrom(mockThreads);
    assert VisibleChats(mockChats, mockThreads, users, userId) == Map(Filter(mockChats, IsVisibleTo(users, userId)), f);
    FilterMapCount(mockChats, IsVisibleTo(users, userId), f, ChatIdOf, ChatIdOf, x);
  }

  /** With distinct mock chat ids, each visible mock chat is listed exactly once and every other one not at all. */
  lemma BuildChatListCounts(mockChats: seq<Chat>, mockThreads: map<string, seq<Message>>, users: seq<User>, userId: string, x: Chat)
    requires DistinctBy(mockChats, ChatIdOf)
    requires x in mockChats
    ensures multiset(BuildChatList(mockChats, mockThreads, users, userId))[WithLatestMessage(x, mockThreads)] ==
            if VisibleTo(x, users, userId) then 1 else 0
  {
    BuildChatListPermutes(mockChats, mockThreads, users, userId);
    VisibleChatsCounts(mockChats, mockThreads, users, userId, x);
  }

  /** `chats.find(c => c.id === chatId)`, behind `getChatById`. */
  function FindChat(chats: seq<Chat>, chatId: string): (r: Option<Chat>)
    ensures r.Some? ==> r.value in chats && r.value.id == chatId
    ensures r.Some? ==> IsFirstWhere(chats, HasChatId(chatId), r.value)
    ensures r.None? <==> forall i :: 0 <= i < |chats| ==> chats[i].id != chatId
  {
    FindWhere(chats, HasChatId(chatId))
  }

  /** The chat `createOrOpenChat` reopens: a non-group chat with both users. */
  predicate IsDirectChatOf(chat: Chat, userId: string, otherId: string)
  {
    Involves(chat, otherId) && Involves(chat, userId) && !chat.isGroup
  }

  function IsDirectChatWith(userId: string, otherId: string): Chat -> bool
  {
    (c: Chat) => IsDirectChatOf(c, userId, otherId)
  }

  function FindDirectChat(chats: seq<Chat>, userId: string, otherId: string): (r: Option<Chat>)
    ensures r.Some? ==> r.value in chats && IsDirectChatOf(r.value, userId, otherId)
    ensures r.Some? ==> IsFirstWhere(chats, IsDirectChatWith(userId, otherId), r.value)
    ensures r.None? <==> forall i :: 0 <= i < |chats| ==> !IsDirectChatOf(chats[i], userId, otherId)
  {
    FindWhere(chats, IsDirectChatWith(userId, otherId))
  }

  /** A participant entry copied from a user. */
  function Snapshot(u: User): (p: ChatParticipant)
    ensures p.userId == u.id && p.nickname == u.nickname
  {
    ChatParticipant(u.id, u.nickname, u.avatarUrl, u.avatarBgColor)
  }

  /** The chat `createOrOpenChat` creates between the current user and another. */
  function NewDirectChat(id: string, current: User, other: User, now: int): (c: Chat)
    ensures IsDirectChatOf(c, current.id, other.id)
    ensures c.id == id && c.participants == [Snapshot(current), Snapshot(other)] && c.createdAt == now
    ensures c.lastMessage.None? && c.name.None? && c.unreadCount.None?
  {
    var c := Chat(id, [Snapshot(current), Snapshot(other)], false, now, None, None, None);
    assert c.participants[0].userId == current.id && c.participants[1].userId == other.id;
    c
  }

  /** `[newChat, ...chats].sort(by lastMessage?.timestamp || createdAt, newest first)`. */
  function ChatListAfterCreate(chats: seq<Chat>, created: Chat): (r: seq<Chat>)
    ensures SortedDesc(r, TimeOrCreated)
    ensures |r| == |chats| + 1
    ensures created in r
    ensures forall i :: 0 <= i < |chats| ==> chats[i] in r
    ensures forall i :: 0 <= i < |r| ==> r[i] == created || r[i] in chats
  {
    var r := SortNewestFirst([created] + chats, TimeOrCreated);
    SortKeepsMembers([created] + chats, TimeOrCreated, created);
    assert forall i :: 0 <= i < |chats| ==> chats[i] in r by {
      forall i | 0 <= i < |chats| ensures chats[i] in r {
        SortKeepsMembers([created] + chats, TimeOrCreated, chats[i]);
      }
    }
    assert forall i :: 0 <= i < |r| ==> r[i] == created || r[i] in chats by {
      forall i | 0 <= i < |r| ensures r[i] == created || r[i] in chats {
        SortKeepsMembers([created] + chats, TimeOrCreated, r[i]);
      }
    }
    r
  }

  /** The list after a create holds exactly the new chat and the old ones. */
  lemma ChatListAfterCreatePermutes(chats: seq<Chat>, created: Chat)
    ensures multiset(ChatListAfterCreate(chats, created)) == multiset([created] + chats)
  {
    assert ChatListAfterCreate(chats, created) == SortNewestFirst([created] + chats, TimeOrCreated);
  }

  /** A chat that was just created is the one the next `createOrOpenChat` for the same two users reopens. */
  lemma CreatedChatIsReopened(chats: seq<Chat>, id: string, current: User, other: User, now: int)
    requires FindDirectChat(chats, current.id, other.id).None?
    ensures FindDirectChat(ChatListAfterCreate(chats, NewDirectChat(id, current, other, now)), current.id, other.id)
            == Some(NewDirectChat(id, current, other, now))
  {
    var c := NewDirectChat(id, current, other, now);
    var r := ChatListAfterCreate(chats, c);
    var k :| 0 <= k < |r| && r[k] == c;
  }

  /** The message `sendMessage` appends. */
  function NewMessage(id: string, chatId: string, senderId: string, content: string, mtype: MessageType, replyTo: Option<string>, now: int): (m: Message)
    ensures m.chatId == chatId && m.senderId == senderId && m.text == Some(content) && m.mtype == mtype
  {
    Message(id, chatId, senderId, Some(content), mtype, replyTo, now, None)
  }

  /** `{ ...threads, [chatId]: [...(threads[chatId] || []), m] }`. */
  function AppendToThread(threads: map<string, seq<Message>>, chatId: string, m: Message): (r: map<string, seq<Message>>)
    ensures chatId in r && r[chatId] == ThreadOf(threads, chatId) + [m]
    ensures forall k :: k != chatId ==> (k in r <==> k in threads)
    ensures forall k :: k != chatId && k in threads ==> r[k] == threads[k]
  {
    threads[chatId := ThreadOf(threads, chatId) + [m]]
  }

  /** `chats.map(c => c.id === chatId ? { ...c, lastMessage: m } : c).sort(by lastMessage?.timestamp || 0)`. */
  function ChatListAfterSend(chats: seq<Chat>, chatId: string, m: Message): (r: seq<Chat>)
    ensures SortedDesc(r, TimeOrZero)
    ensures |r| == |chats|
    ensures forall i :: 0 <= i < |r| && r[i].id == chatId ==> r[i].lastMessage == Some(m)
    ensures forall i :: 0 <= i < |r| && r[i].id != chatId ==> r[i] in chats
    ensures forall i :: 0 <= i < |chats| && chats[i].id != chatId ==> chats[i] in r
    ensures forall i :: 0 <= i < |chats| && chats[i].id == chatId ==> chats[i].(lastMessage := Some(m)) in r
  {
    var marked := MapIf(chats, HasChatId(chatId), WithLastMessage(m));
    var r := SortNewestFirst(marked, TimeOrZero);
    assert forall i :: 0 <= i < |r| ==> r[i] in marked by {
      forall i | 0 <= i < |r| ensures r[i] in marked {
        SortKeepsMembers(marked, TimeOrZero, r[i]);
      }
    }
    assert forall i :: 0 <= i < |chats| ==> marked[i] in r by {
      forall i | 0 <= i < |chats| ensures marked[i] in r {
        SortKeepsMembers(marked, TimeOrZero, marked[i]);
      }
    }
    r
  }

  /** After a send the list holds exactly the old chats, the sent-to one updated. */
  lemma ChatListAfterSendPermutes(chats: seq<Chat>, chatId: string, m: Message)
    ensures multiset(ChatListAfterSend(chats, chatId, m)) == multiset(MapIf(chats, HasChatId(chatId), WithLastMessage(m)))
  {
    var marked := MapIf(chats, HasChatId(chatId), WithLastMessage(m));
    assert ChatListAfterSend(chats, chatId, m) == SortNewestFirst(marked, TimeOrZero);
  }

  function HasMessageId(id: string): Message -> bool
  {
    (m: Message) => m.id == id
  }

  /** `{ ...m, ...patch }`. */
  function MergeMessage(m: Message, p: MessagePatch): Message
  {
    Message(
      p.id.GetOr(m.id), p.chatId.GetOr(m.chatId), p.senderId.GetOr(m.senderId),
      p.text.GetOr(m.text), p.mtype.GetOr(m.mtype), p.replyTo.GetOr(m.replyTo),
      p.timestamp.GetOr(m.timestamp), p.reactions.GetOr(m.reactions))
  }

  function MergeMessageWith(p: MessagePatch): Message -> Message
  {
    (m: Message) => MergeMessage(m, p)
  }

  /** `thread.map(msg => msg.id === messageId ? { ...msg, ...patch } : msg)`: every message with the id. */
  function UpdateThread(thread: seq<Message>, messageId: string, p: MessagePatch): (r: seq<Message>)
    ensures |r| == |thread|
    ensures forall i :: 0 <= i < |thread| && thread[i].id == messageId ==> r[i] == MergeMessage(thread[i], p)
    ensures forall i :: 0 <= i < |thread| && thread[i].id != messageId ==> r[i] == thread[i]
  {
    MapIf(thread, HasMessageId(messageId), MergeMessageWith(p))
  }

  /** `thread[thread.findIndex(m => m.id === messageId)] = { ...that, ...patch }`: only the first message with the id. */
  function PatchFirst(thread: seq<Message>, messageId: string, p: MessagePatch): (r: seq<Message>)
    ensures |r| == |thread|
    ensures forall i :: 0 <= i < |thread| && thread[i].id != messageId ==> r[i] == thread[i]
    ensures forall i :: 0 <= i < |thread| && thread[i].id == messageId && (forall j :: 0 <= j < i ==> thread[j].id != messageId) ==>
              r[i] == MergeMessage(thread[i], p)
    ensures forall i, j :: 0 <= j < i < |thread| && thread[j].id == messageId ==> r[i] == thread[i]
  {
    match IndexWhere(thread, HasMessageId(messageId))
    case None => thread
    case Some(i) => thread[i := MergeMessage(thread[i], p)]
  }

  function MessageIdOf(m: Message): string { m.id }

  /** With unique message ids, patching the first match is patching every match: the mock thread and the provider's thread agree. */
  lemma PatchFirstIsUpdateThread(thread: seq<Message>, messageId: string, p: MessagePatch)
    requires DistinctBy(thread, MessageIdOf)
    ensures PatchFirst(thread, messageId, p) == UpdateThread(thread, messageId, p)
  {
    var a := PatchFirst(thread, messageId, p);
    var b := UpdateThread(thread, messageId, p);
    match IndexWhere(thread, HasMessageId(messageId))
    case None =>
    case Some(k) =>
      assert MessageIdOf(thread[k]) == messageId;
      forall i | 0 <= i < |thread| ensures a[i] == b[i] {
        if i != k {
          assert MessageIdOf(thread[i]) != MessageIdOf(thread[k]);
        }
      }
  }

  // ---------------------------------------------------------------------------
  // The providers' state as one object

  class AppStore {
    // UserProvider
    var users: seq<User>
    // AuthProvider
    var currentUser: Option<User>
    var token: Option<string>
    // SettingsProvider
    var settings: AppSettings
    // ChatProvider
    var chats: seq<Chat>
    var activeChatId: Option<string>
    var messages: map<string, seq<Message>>
    // The mock backend module's arrays (MOCK_CHATS, MOCK_ALL_MESSAGES), which the ChatProvider mutates in place
    var mockChats: seq<Chat>
    var mockMessages: map<string, seq<Message>>

    /** The providers' initial state: nobody logged in, no chat list yet, the mock threads loaded. */
    constructor (initialUsers: seq<User>, initialSettings: AppSettings, seedChats: seq<Chat>, seedThreads: map<string, seq<Message>>)
      ensures users == initialUsers && currentUser == None && token == None && settings == initialSettings
      ensures chats == [] && activeChatId == None && messages == seedThreads
      ensures mockChats == seedChats && mockMessages == seedThreads
    {
      users := initialUsers;
      currentUser := None;
      token := None;
      settings := initialSettings;
      chats := [];
      activeChatId := None;
      messages := seedThreads;
      mockChats := seedChats;
      mockMessages := seedThreads;
    }

    /** `updateUser`: merge the patch into every user with the id; always succeeds. */
    method UpdateUser(userId: string, patch: UserPatch) returns (ok: bool)
      modifies this`users
      ensures ok
      ensures users == UpdateUsers(old(users), userId, patch)
    {
      users := UpdateUsers(users, userId, patch);
      ok := true;
    }

    /** `deleteUserByAdmin`: drop every user with the id; always succeeds. */
    method DeleteUserByAdmin(userId: string) returns (ok: bool)
      modifies this`users
      ensures ok
      ensures users == RemoveUser(old(users), userId)
      ensures UniqueAccounts(old(users)) && UniqueUserIds(old(users)) ==> UniqueAccounts(users) && UniqueUserIds(users)
    {
      if UniqueAccounts(users) && UniqueUserIds(users) {
        RemoveKeepsUnique(users, userId);
      }
      users := RemoveUser(users, userId);
      ok := true;
    }

    /** `login`: the first account with this e-mail and password becomes current and goes online. */
    method Login(email: string, pass: string, newToken: string, now: int) returns (ok: bool)
      modifies this`users, this`currentUser, this`token
      ensures ok <==> FindCredentials(old(users), email, pass).Some?
      ensures ok ==> currentUser == FindCredentials(old(users), email, pass) && token == Some(newToken)
      ensures ok ==> users == UpdateUsers(old(users), currentUser.value.id, PresencePatch(Online, now))
      ensures !ok ==> users == old(users) && currentUser == old(currentUser) && token == old(token)
      ensures UniqueAccounts(old(users)) && UniqueUserIds(old(users)) ==> UniqueAccounts(users) && UniqueUserIds(users)
    {
      var found := FindCredentials(users, email, pass);
      if found.None? {
        return false;
      }
      if UniqueAccounts(users) && UniqueUserIds(users) {
        PresenceKeepsUnique(users, found.value.id, Online, now);
      }
      currentUser := found;
      token := Some(newToken);
      users := UpdateUsers(users, found.value.id, PresencePatch(Online, now));
      ok := true;
    }

    /**
     * `signup`: refused when the e-mail or the nickname is taken; otherwise one
     * new, non-admin, online account is appended and becomes current. `colorOf`
     * stands for `getRandomColor(AVATAR_COLORS, ·)`.
     */
    method Signup(data: SignupData, newId: string, colorOf: string -> string, newToken: string, now: int) returns (ok: bool)
      modifies this`users, this`currentUser, this`token
      ensures ok <==> !AccountTaken(old(users), data.email, data.nickname)
      ensures ok ==> users == old(users) + [NewAccount(data, newId, colorOf(ColorSeed(data)), now)]
      ensures ok ==> currentUser == Some(NewAccount(data, newId, colorOf(ColorSeed(data)), now)) && token == Some(newToken)
      ensures !ok ==> users == old(users) && currentUser == old(currentUser) && token == old(token)
      ensures UniqueAccounts(old(users)) ==> UniqueAccounts(users)
      ensures UniqueUserIds(old(users)) && FindUser(old(users), newId).None? ==> UniqueUserIds(users)
    {
      if AccountTaken(users, data.email, data.nickname) {
        return false;
      }
      var account := NewAccount(data, newId, colorOf(ColorSeed(data)), now);
      if UniqueAccounts(users) {
        SignupKeepsAccountsUnique(users, account);
      }
      if UniqueUserIds(users) && FindUser(users, newId).None? {
        FreshIdKeepsIdsUnique(users, account);
      }
      users := users + [account];
      currentUser := Some(account);
      token := Some(newToken);
      ok := true;
    }

    /** `logout`: the current user's row goes offline; the session is cleared. */
    method Logout(now: int)
      modifies this`users, this`currentUser, this`token
      ensures old(currentUser).Some? ==> users == UpdateUsers(old(users), old(currentUser).value.id, PresencePatch(Offline, now))
      ensures old(currentUser).None? ==> users == old(users)
      ensures currentUser == None && token == None
      ensures UniqueAccounts(old(users)) && UniqueUserIds(old(users)) ==> UniqueAccounts(users) && UniqueUserIds(users)
    {
      if currentUser.Some? {
        if UniqueAccounts(users) && UniqueUserIds(users) {
          PresenceKeepsUnique(users, currentUser.value.id, Offline, now);
        }
        users := UpdateUsers(users, currentUser.value.id, PresencePatch(Offline, now));
      }
      currentUser := None;
      token := None;
    }

    /** `updateCurrentUser`: merge a profile edit into the current user and into their row. */
    method UpdateCurrentUser(patch: ProfilePatch)
      modifies this`users, this`currentUser
      ensures old(currentUser).None? ==> users == old(users) && currentUser == None
      ensures old(currentUser).Some? ==>
                currentUser == Some(MergeUser(old(currentUser).value, ProfileAsUserPatch(patch))) &&
                currentUser.value.id == old(currentUser).value.id &&
                users == UpdateUsers(old(users), old(currentUser).value.id, ProfileAsUserPatch(patch))
    {
      if currentUser.Some? {
        var updated := MergeUser(currentUser.value, ProfileAsUserPatch(patch));
        users := UpdateUsers(users, updated.id, ProfileAsUserPatch(patch));
        currentUser := Some(updated);
      }
    }

    /** `deleteAccount`: refused with nobody logged in; otherwise the current user's rows go and the session ends. */
    method DeleteAccount(now: int) returns (ok: bool)
      modifies this`users, this`currentUser, this`token
      ensures ok <==> old(currentUser).Some?
      ensures ok ==> users == RemoveUser(old(users), old(currentUser).value.id) && currentUser == None && token == None
      ensures !ok ==> users == old(users) && currentUser == old(currentUser) && token == old(token)
    {
      if currentUser.None? {
        return false;
      }
      var id := currentUser.value.id;
      users := RemoveUser(users, id);
      LogoutAfterRemovalIsNoop(old(users), id, now);
      Logout(now);
      ok := true;
    }

    /** `updateSetting(key, value)`. */
    method UpdateSetting(change: SettingChange)
      modifies this`settings
      ensures settings == ApplySetting(old(settings), change)
    {
      settings := ApplySetting(settings, change);
    }

    /** The chat-list effect: rebuild the list for the current user, or clear everything when nobody is logged in. */
    method RefreshChatList()
      modifies this`chats, this`messages, this`activeChatId
      ensures old(currentUser).Some? ==>
                chats == BuildChatList(mockChats, mockMessages, users, currentUser.value.id) &&
                messages == mockMessages && activeChatId == old(activeChatId)
      ensures old(currentUser).None? ==> chats == [] && messages == map[] && activeChatId == None
    {
      if currentUser.Some? {
        var uid := currentUser.value.id;
        chats := BuildChatList(mockChats, mockMessages, users, uid);
        messages := mockMessages;
      } else {
        chats := [];
        messages := map[];
        activeChatId := None;
      }
    }

    /** `fetchMessages`: reload one thread from the mock backend. */
    method FetchMessages(chatId: string)
      modifies this`messages
      ensures messages == old(messages)[chatId := ThreadOf(mockMessages, chatId)]
    {
      messages := messages[chatId := ThreadOf(mockMessages, chatId)];
    }

    /**
     * `sendMessage`: with a current user, append one message from them to the
     * thread (in the provider and in the mock backend) and make it the chat's
     * last message, newest chat first.
     */
    method SendMessage(chatId: string, content: string, mtype: MessageType, replyTo: Option<string>, newId: string, now: int)
      modifies this`messages, this`mockMessages, this`chats
      ensures old(currentUser).None? ==> messages == old(messages) && mockMessages == old(mockMessages) && chats == old(chats)
      ensures old(currentUser).Some? ==>
                var m := NewMessage(newId, chatId, currentUser.value.id, content, mtype, replyTo, now);
                messages == AppendToThread(old(messages), chatId, m) &&
                mockMessages == AppendToThread(old(mockMessages), chatId, m) &&
                chats == ChatListAfterSend(old(chats), chatId, m)
    {
      if currentUser.None? {
        return;
      }
      var m := NewMessage(newId, chatId, currentUser.value.id, content, mtype, replyTo, now);
      messages := AppendToThread(messages, chatId, m);
      mockMessages := AppendToThread(mockMessages, chatId, m);
      chats := ChatListAfterSend(chats, chatId, m);
    }

    /**
     * `createOrOpenChat`: reopen the direct chat with the other user if there is
     * one; otherwise, if that user exists, create it, register it with the mock
     * backend and open it.
     */
    method CreateOrOpenChat(otherUserId: string, newId: string, now: int) returns (r: Option<string>)
      modifies this`chats, this`activeChatId, this`mockChats
      ensures old(currentUser).None? ==>
                r.None? && chats == old(chats) && activeChatId == old(activeChatId) && mockChats == old(mockChats)
      ensures old(currentUser).Some? && FindDirectChat(old(chats), currentUser.value.id, otherUserId).Some? ==>
                r == Some(FindDirectChat(old(chats), currentUser.value.id, otherUserId).value.id) &&
                activeChatId == r && chats == old(chats) && mockChats == old(mockChats)
      ensures old(currentUser).Some? && FindDirectChat(old(chats), currentUser.value.id, otherUserId).None? &&
              FindUser(users, otherUserId).None? ==>
                r.None? && chats == old(chats) && activeChatId == old(activeChatId) && mockChats == old(mockChats)
      ensures old(currentUser).Some? && FindDirectChat(old(chats), currentUser.value.id, otherUserId).None? &&
              FindUser(users, otherUserId).Some? ==>
                var created := NewDirectChat(newId, currentUser.value, FindUser(users, otherUserId).value, now);
                r == Some(newId) && activeChatId == r &&
                chats == ChatListAfterCreate(old(chats), created) && mockChats == old(mockChats) + [created]
    {
      if currentUser.None? {
        return None;
      }
      var current := currentUser.value;
      var existing := FindDirectChat(chats, current.id, otherUserId);
      if existing.Some? {
        activeChatId := Some(existing.value.id);
        return Some(existing.value.id);
      }
      var other := FindUser(users, otherUserId);
      if other.None? {
        return None;
      }
      var created := NewDirectChat(newId, current, other.value, now);
      mockChats := mockChats + [created];
      chats := ChatListAfterCreate(chats, created);
      activeChatId := Some(newId);
      r := Some(newId);
    }

    /**
     * `updateMessageInChat`: merge the patch into every message with the id in
     * the provider's thread, and into the first one in the mock backend's thread
     * if that thread exists.
     */
    method UpdateMessageInChat(chatId: string, messageId: string, patch: MessagePatch)
      modifies this`messages, this`mockMessages
      ensures messages == old(messages)[chatId := UpdateThread(ThreadOf(old(messages), chatId), messageId, patch)]
      ensures chatId in old(mockMessages) ==>
                mockMessages == old(mockMessages)[chatId := PatchFirst(old(mockMessages)[chatId], messageId, patch)]
      ensures chatId !in old(mockMessages) ==> mockMessages == old(mockMessages)
    {
      messages := messages[chatId := UpdateThread(ThreadOf(messages, chatId), messageId, patch)];
      if chatId in mockMessages {
        mockMessages := mockMessages[chatId := PatchFirst(mockMessages[chatId], messageId, patch)];
      }
    }
  }

  /** Opening a chat twice with the same user adds at most one chat. */
  method OpenChatTwice(store: AppStore, otherUserId: string, id1: string, id2: string, now1: int, now2: int)
    returns (r1: Option<string>, r2: Option<string>)
    modifies store`chats, store`activeChatId, store`mockChats
    ensures |store.chats| <= |old(store.chats)| + 1
    ensures r1.Some? ==> r2 == r1
  {
    ghost var before := store.chats;
    ghost var reopens := store.currentUser.Some? && FindDirectChat(before, store.currentUser.value.id, otherUserId).Some?;
    r1 := store.CreateOrOpenChat(otherUserId, id1, now1);
    if r1.Some? && !reopens {
      var current := store.currentUser.value;
      var other := FindUser(store.users, otherUserId).value;
      CreatedChatIsReopened(before, id1, current, other, now1);
      assert FindDirectChat(store.chats, current.id, otherUserId).Some?;
    }
    r2 := store.CreateOrOpenChat(otherUserId, id2, now2);
  }
}
