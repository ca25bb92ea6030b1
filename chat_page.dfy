/**
 * The rules of the chat page: which chats the search keeps, what a chat-list
 * entry shows and whether it can be clicked, when the message input sends, and
 * which users the contacts view lists.
 */
module ChatPage {
  import opened Maybe
  import opened Seqs
  import opened Strings
  import opened Types
  import Store

  /** `field.toLowerCase().includes(term.toLowerCase())`. */
  predicate Matches(field: string, term: string)
  {
    Includes(Lower(field), Lower(term))
  }

  /** An empty search term matches every field. */
  lemma EmptyTermMatches(field: string)
    ensures Matches(field, "")
  {
    IncludesEmpty(Lower(field));
  }

  /** Matching ignores the case of the search term. */
  lemma MatchesIgnoresTermCase(field: string, term: string)
    ensures Matches(field, Lower(term)) == Matches(field, term)
  {
    LowerIdempotent(term);
  }

  // ---------------------------------------------------------------------------
  // The chat-list search (ChatList.filteredChats)

  /** Whether the chat list keeps `chat` for the search term. */
  predicate KeepChat(chat: Chat, current: Option<User>, users: seq<User>, term: string)
  {
    if current.None? then false
    else if chat.isGroup then
      // a named group matches on its name; an unnamed one is always shown
      if Truthy(chat.name) then Matches(chat.name.value, term) else true
    else
      match Store.OtherParticipant(chat, current.value.id)
      case None => false
      case Some(other) =>
        match Store.FindUser(users, other.userId)
        case Some(u) => Matches(u.nickname, term) || Matches(u.name, term)
        // the partner was deleted: search the nickname stored in the chat
        case None => Matches(other.nickname, term)
  }

  function KeepsChat(current: Option<User>, users: seq<User>, term: string): Chat -> bool
  {
    (c: Chat) => KeepChat(c, current, users, term)
  }

  /** `chats.filter(...)`: the chats listed for the search term, in list order. */
  function FilterChats(chats: seq<Chat>, current: Option<User>, users: seq<User>, term: string): (r: seq<Chat>)
    ensures IsSubsequence(r, chats)
    ensures forall i :: 0 <= i < |r| ==> KeepChat(r[i], current, users, term)
    ensures forall i :: 0 <= i < |chats| && KeepChat(chats[i], current, users, term) ==> chats[i] in r
    ensures current.None? ==> r == []
    ensures forall x :: multiset(r)[x] == if KeepChat(x, current, users, term) then multiset(chats)[x] else 0
  {
    FilterMultiset(chats, KeepsChat(current, users, term));
    Filter(chats, KeepsChat(current, users, term))
  }

  /** What the list shows with no search: every group, and every other chat that has a partner. */
  predicate ListedWithoutSearch(chat: Chat, userId: string)
  {
    chat.isGroup || Store.OtherParticipant(chat, userId).Some?
  }

  function ListedWithoutSearchFor(userId: string): Chat -> bool
  {
    (c: Chat) => ListedWithoutSearch(c, userId)
  }

  /** An empty search term hides no group and no chat with a partner, deleted or not. */
  lemma EmptySearchListsChatsWithPartner(chats: seq<Chat>, current: User, users: seq<User>)
    ensures FilterChats(chats, Some(current), users, "") == Filter(chats, ListedWithoutSearchFor(current.id))
  {
    forall i | 0 <= i < |chats|
      ensures KeepsChat(Some(current), users, "")(chats[i]) == ListedWithoutSearchFor(current.id)(chats[i])
    {
      var c := chats[i];
      if c.isGroup && Truthy(c.name) {
        EmptyTermMatches(c.name.value);
      } else if !c.isGroup && Store.OtherParticipant(c, current.id).Some? {
        var other := Store.OtherParticipant(c, current.id).value;
        match Store.FindUser(users, other.userId)
        case Some(u) => EmptyTermMatches(u.nickname);
        case None => EmptyTermMatches(other.nickname);
      }
    }
    FilterCongruent(chats, KeepsChat(Some(current), users, ""), ListedWithoutSearchFor(current.id));
  }

  /** The chat search is case-insensitive in its term. */
  lemma ChatSearchIgnoresTermCase(chats: seq<Chat>, current: Option<User>, users: seq<User>, term: string)
    ensures FilterChats(chats, current, users, Lower(term)) == FilterChats(chats, current, users, term)
  {
    forall i | 0 <= i < |chats|
      ensures KeepsChat(current, users, Lower(term))(chats[i]) == KeepsChat(current, users, term)(chats[i])
    {
      var c := chats[i];
      if current.Some? {
        if c.isGroup && Truthy(c.name) {
          MatchesIgnoresTermCase(c.name.value, term);
        } else if !c.isGroup && Store.OtherParticipant(c, current.value.id).Some? {
          var other := Store.OtherParticipant(c, current.value.id).value;
          match Store.FindUser(users, other.userId)
          case Some(u) =>
            MatchesIgnoresTermCase(u.nickname, term);
            MatchesIgnoresTermCase(u.name, term);
          case None => MatchesIgnoresTermCase(other.nickname, term);
        }
      }
    }
    FilterCongruent(chats, KeepsChat(current, users, Lower(term)), KeepsChat(current, users, term));
  }

  // ---------------------------------------------------------------------------
  // A chat-list entry (ChatListItem)

  /**
   * What an entry shows as its user. `UnknownPlaceholder` is the shared
   * `UNKNOWN_USER_PLACEHOLDER` object itself; `DeletedPartner` is a fresh copy
   * of it, which compares unequal to it by reference whatever it holds.
   */
  datatype DisplayUser =
    | Registered(user: User)
    | DeletedPartner(name: string, nickname: string)
    | GroupBadge(name: string, avatarBgColor: Option<string>)
    | UnknownPlaceholder

  /** `AVATAR_COLORS[chat.id.charCodeAt(0) % AVATAR_COLORS.length]`; `charCodeAt(0)` of an empty id is NaN, which indexes nothing. */
  function GroupColor(chatId: string): (r: Option<string>)
    ensures chatId != [] ==> r.Some? && r.value in AVATAR_COLORS
    ensures chatId != [] ==> r == Some(AVATAR_COLORS[FirstCodeUnit(chatId) % 17])
    ensures chatId != [] && chatId[0] as int < 0x1_0000 ==> r == Some(AVATAR_COLORS[chatId[0] as int % 17])
    ensures chatId == [] ==> r.None?
  {
    if chatId == [] then None else Some(AVATAR_COLORS[FirstCodeUnit(chatId) % |AVATAR_COLORS|])
  }

  /** The display user: the first participant other than the current user, if any (ChatPage.tsx:69-94). */
  function DisplayUserFor(chat: Chat, current: User, users: seq<User>): (d: DisplayUser)
    ensures Store.OtherParticipant(chat, current.id).Some? ==>
              var other := Store.OtherParticipant(chat, current.id).value;
              match Store.FindUser(users, other.userId)
              case Some(u) => d == Registered(u)
              case None =>
                d.DeletedPartner? &&
                d.name == (if other.nickname != "" then other.nickname else UNKNOWN_NAME) &&
                d.nickname == (if other.nickname != "" then other.nickname else UNKNOWN_NICKNAME)
    ensures Store.OtherParticipant(chat, current.id).None? && chat.isGroup && Truthy(chat.name) ==>
              d == GroupBadge(chat.name.value, GroupColor(chat.id))
    ensures Store.OtherParticipant(chat, current.id).None? && !(chat.isGroup && Truthy(chat.name)) ==>
              d == UnknownPlaceholder
  {
    var others := Filter(chat.participants, Store.IsOtherThan(current.id));
    FirstOfFilterIsFind(chat.participants, Store.IsOtherThan(current.id));
    if |others| > 0 then
      var other := others[0];
      match Store.FindUser(users, other.userId)
      case Some(u) => Registered(u)
      case None =>
        DeletedPartner(
          if other.nickname != "" then other.nickname else UNKNOWN_NAME,
          if other.nickname != "" then other.nickname else UNKNOWN_NICKNAME)
    else if chat.isGroup && Truthy(chat.name) then
      GroupBadge(chat.name.value, GroupColor(chat.id))
    else
      UnknownPlaceholder
  }

  const IMAGE_PREVIEW: string := "\U{1F4F7} Image"
  const FILE_PREVIEW: string := "\U{1F4C4} File"
  const LIKE_PREVIEW: string := "\U{1F44D} Liked"
  const UNKNOWN_CHAT_PREVIEW: string := "Chat with unknown user"
  const EMPTY_CHAT_PREVIEW: string := "No messages yet"

  /** The second line of an entry: a label for media and likes, else the text, else a fallback. */
  function PreviewText(chat: Chat, d: DisplayUser): (r: string)
    ensures chat.lastMessage.Some? && chat.lastMessage.value.mtype == Image ==> r == IMAGE_PREVIEW
    ensures chat.lastMessage.Some? && chat.lastMessage.value.mtype == File ==> r == FILE_PREVIEW
    ensures chat.lastMessage.Some? && chat.lastMessage.value.mtype == Like ==> r == LIKE_PREVIEW
    ensures chat.lastMessage.Some? && chat.lastMessage.value.mtype == Text && Truthy(chat.lastMessage.value.text) ==>
              r == chat.lastMessage.value.text.value
    ensures (chat.lastMessage.None? || (chat.lastMessage.value.mtype == Text && !Truthy(chat.lastMessage.value.text))) ==>
              r == if d.UnknownPlaceholder? then UNKNOWN_CHAT_PREVIEW else EMPTY_CHAT_PREVIEW
  {
    match chat.lastMessage
    case Some(m) =>
      (match m.mtype
       case Image => IMAGE_PREVIEW
       case File => FILE_PREVIEW
       case Like => LIKE_PREVIEW
       case Text =>
         if Truthy(m.text) then m.text.value
         else if d.UnknownPlaceholder? then UNKNOWN_CHAT_PREVIEW else EMPTY_CHAT_PREVIEW)
    case None => if d.UnknownPlaceholder? then UNKNOWN_CHAT_PREVIEW else EMPTY_CHAT_PREVIEW
  }

  /** `displayUser === UNKNOWN_USER_PLACEHOLDER && !chat.isGroup`. */
  predicate IsDisabled(chat: Chat, d: DisplayUser)
  {
    d.UnknownPlaceholder? && !chat.isGroup
  }

  /** An entry is disabled exactly when a non-group chat has no participant besides the current user; a deleted partner does not disable it. */
  lemma DisabledIffNoPartner(chat: Chat, current: User, users: seq<User>)
    ensures IsDisabled(chat, DisplayUserFor(chat, current, users)) <==>
            !chat.isGroup && Store.OtherParticipant(chat, current.id).None?
  {
  }

  /** A chat without messages reads 'Chat with unknown user' exactly when the entry fell back to the placeholder itself, never for a deleted partner. */
  lemma NoMessagePreview(chat: Chat, current: User, users: seq<User>)
    requires chat.lastMessage.None?
    ensures PreviewText(chat, DisplayUserFor(chat, current, users)) ==
            if Store.OtherParticipant(chat, current.id).None? && !(chat.isGroup && Truthy(chat.name))
            then UNKNOWN_CHAT_PREVIEW else EMPTY_CHAT_PREVIEW
  {
  }

  datatype ItemView = ItemView(display: DisplayUser, preview: string, disabled: bool)

  /** A chat-list entry; nothing is rendered without a current user. */
  function ChatListItem(chat: Chat, current: Option<User>, users: seq<User>): (r: Option<ItemView>)
    ensures r.None? <==> current.None?
    ensures r.Some? ==> r.value.disabled == (!chat.isGroup && Store.OtherParticipant(chat, current.value.id).None?)
    ensures r.Some? ==> r.value.display == DisplayUserFor(chat, current.value, users)
    ensures r.Some? ==> r.value.preview == PreviewText(chat, r.value.display)
  {
    if current.None? then None
    else
      var d := DisplayUserFor(chat, current.value, users);
      DisabledIffNoPartner(chat, current.value, users);
      Some(ItemView(d, PreviewText(chat, d), IsDisabled(chat, d)))
  }

  // ---------------------------------------------------------------------------
  // The message input (MessageInput)

  /** What the input hands to `sendMessage`. */
  datatype Outgoing = Outgoing(content: string, mtype: MessageType)

  /** The effect of one input action: what is sent, and the draft that remains. */
  datatype InputResult = InputResult(sent: Option<Outgoing>, draft: string)

  const THUMBS_UP: string := "\U{1F44D}"

  /** The emojis the picker offers. */
  const EMOJIS: seq<string> := [
    "\U{1F600}", "\U{1F602}", "\U{1F60D}", "\U{1F914}", "\U{1F44D}", "\U{2764}\U{FE0F}", "\U{1F389}", "\U{1F622}"
  ]

  /** `disabled={!text.trim()}` on the send button. */
  predicate SendButtonDisabled(draft: string)
  {
    Trim(draft) == ""
  }

  /** `handleSend`: a blank draft sends nothing; otherwise the trimmed text goes out as a text message and the draft is cleared. */
  function HandleSend(draft: string): (r: InputResult)
    ensures r.sent.None? <==> forall k :: 0 <= k < |draft| ==> IsJsSpace(draft[k])
    ensures r.sent.None? <==> SendButtonDisabled(draft)
    ensures r.sent.None? ==> r.draft == draft
    ensures r.sent.Some? ==>
              r.sent.value == Outgoing(Trim(draft), Text) && r.draft == "" &&
              r.sent.value.content != "" && !IsJsSpace(r.sent.value.content[0]) &&
              !IsJsSpace(r.sent.value.content[|r.sent.value.content| - 1])
  {
    TrimEmptyIffBlank(draft);
    if Trim(draft) == "" then InputResult(None, draft)
    else InputResult(Some(Outgoing(Trim(draft), Text)), "")
  }

  /** `handleLike`: always sends a thumbs-up like, and leaves the draft alone. */
  function HandleLike(draft: string): (r: InputResult)
    ensures r.sent.Some? && r.sent.value.mtype == Like && r.sent.value.content == THUMBS_UP
    ensures r.draft == draft
  {
    InputResult(Some(Outgoing(THUMBS_UP, Like)), draft)
  }

  /** Enter without Shift sends; any other key only edits the draft, which this model does not follow. */
  function HandleKeyDown(key: string, shift: bool, draft: string): (r: InputResult)
    ensures key == "Enter" && !shift ==> r == HandleSend(draft)
    ensures !(key == "Enter" && !shift) ==> r.sent.None? && r.draft == draft
  {
    if key == "Enter" && !shift then HandleSend(draft) else InputResult(None, draft)
  }

  /** `addEmoji`: the emoji goes at the end of the draft. */
  function AddEmoji(draft: string, emoji: string): string
  {
    draft + emoji
  }

  /** No emoji of the picker begins or ends with white space. */
  lemma EmojiEdges(emoji: string)
    requires emoji in EMOJIS
    ensures emoji != [] && !IsJsSpace(emoji[0]) && !IsJsSpace(emoji[|emoji| - 1])
  {
  }

  /** Trimming a draft that ends in a picker emoji removes only its leading blanks. */
  lemma TrimOfEmojiDraft(draft: string, emoji: string)
    requires emoji in EMOJIS
    ensures Trim(AddEmoji(draft, emoji)) == TrimStart(draft) + emoji
  {
    EmojiEdges(emoji);
    TrimAppendNonBlank(draft, emoji);
  }

  /** After an emoji from the picker, the draft can always be sent, and what is sent ends with that emoji. */
  lemma EmojiMakesDraftSendable(draft: string, emoji: string)
    requires emoji in EMOJIS
    ensures HandleSend(AddEmoji(draft, emoji)).sent == Some(Outgoing(TrimStart(draft) + emoji, Text))
  {
    EmojiEdges(emoji);
    TrimOfEmojiDraft(draft, emoji);
    assert !SendButtonDisabled(AddEmoji(draft, emoji));
  }

  // ---------------------------------------------------------------------------
  // The contacts view (ContactsView.displayUsers)

  predicate IsContact(u: User, current: Option<User>, term: string)
  {
    (current.None? || u.id != current.value.id) && (Matches(u.name, term) || Matches(u.nickname, term))
  }

  function IsContactFor(current: Option<User>, term: string): User -> bool
  {
    (u: User) => IsContact(u, current, term)
  }

  /** The users the contacts view lists: everyone but the current user whose name or nickname matches, in table order. */
  function FilterContacts(users: seq<User>, current: Option<User>, term: string): (r: seq<User>)
    ensures IsSubsequence(r, users)
    ensures forall i :: 0 <= i < |r| ==> current.None? || r[i].id != current.value.id
    ensures forall i :: 0 <= i < |r| ==> Matches(r[i].name, term) || Matches(r[i].nickname, term)
    ensures forall i :: 0 <= i < |users| && IsContact(users[i], current, term) ==> users[i] in r
    ensures forall x :: multiset(r)[x] == if IsContact(x, current, term) then multiset(users)[x] else 0
  {
    FilterMultiset(users, IsContactFor(current, term));
    Filter(users, IsContactFor(current, term))
  }

  /** With no search term the contacts are the users table without the current user. */
  lemma ContactsWithoutSearch(users: seq<User>, current: User)
    ensures FilterContacts(users, Some(current), "") == Store.RemoveUser(users, current.id)
  {
    forall i | 0 <= i < |users| ensures IsContactFor(Some(current), "")(users[i]) == Store.LacksId(current.id)(users[i]) {
      EmptyTermMatches(users[i].name);
    }
    FilterCongruent(users, IsContactFor(Some(current), ""), Store.LacksId(current.id));
  }
}
