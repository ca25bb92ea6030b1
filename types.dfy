/**
 * The records of the chat application and the constants the store and the
 * views use. ISO date strings become integers (milliseconds since the epoch);
 * an optional property is an `Option`.
 */
module Types {
  import opened Maybe

  datatype UserStatus = Online | Offline

  datatype User = User(
    id: string,
    name: string,
    nickname: string,
    email: string,
    passwordHash: string,
    avatarUrl: Option<string>,
    avatarBgColor: string,
    isAdmin: bool,
    status: UserStatus,
    joinedAt: int,
    lastSeen: Option<int>)

  /** A participant entry stored inside a chat: a snapshot of the user when the chat was made. */
  datatype ChatParticipant = ChatParticipant(
    userId: string,
    nickname: string,
    avatarUrl: Option<string>,
    avatarBgColor: string)

  datatype MessageType = Text | Image | File | Like

  datatype Message = Message(
    id: string,
    chatId: string,
    senderId: string,
    text: Option<string>,
    mtype: MessageType,
    replyTo: Option<string>,
    timestamp: int,
    reactions: Option<map<string, seq<string>>>)

  datatype Chat = Chat(
    id: string,
    participants: seq<ChatParticipant>,
    isGroup: bool,
    createdAt: int,
    lastMessage: Option<Message>,
    unreadCount: Option<int>,
    name: Option<string>)

  datatype Theme = Light | Dark
  datatype Language = En | Ar

  datatype AppSettings = AppSettings(theme: Theme, language: Language, notificationsEnabled: bool)

  /**
   * A `Partial<User>` merged with `{ ...u, ...patch }`: `None` is a key the patch
   * does not have, `Some(v)` overwrites. For an optional property the new value
   * may itself be absent (`Some(None)`).
   */
  datatype UserPatch = UserPatch(
    id: Option<string>,
    name: Option<string>,
    nickname: Option<string>,
    email: Option<string>,
    passwordHash: Option<string>,
    avatarUrl: Option<Option<string>>,
    avatarBgColor: Option<string>,
    isAdmin: Option<bool>,
    status: Option<UserStatus>,
    joinedAt: Option<int>,
    lastSeen: Option<Option<int>>)

  /** The fields a user may change on their own profile: `Partial<Pick<User, 'name' | 'nickname' | 'avatarUrl' | 'avatarBgColor'>>`. */
  datatype ProfilePatch = ProfilePatch(
    name: Option<string>,
    nickname: Option<string>,
    avatarUrl: Option<Option<string>>,
    avatarBgColor: Option<string>)

  /** A `Partial<Message>`. */
  datatype MessagePatch = MessagePatch(
    id: Option<string>,
    chatId: Option<string>,
    senderId: Option<string>,
    text: Option<Option<string>>,
    mtype: Option<MessageType>,
    replyTo: Option<Option<string>>,
    timestamp: Option<int>,
    reactions: Option<Option<map<string, seq<string>>>>)

  /** The fields `signup` receives: a user without id, admin flag, status, join date and colour, plus an optional colour seed. */
  datatype SignupData = SignupData(
    name: string,
    nickname: string,
    email: string,
    passwordHash: string,
    avatarUrl: Option<string>,
    avatarInitialColorSeed: Option<string>)

  /** One `(key, value)` pair of `AppSettings`, as `updateSetting(key, value)` receives it. */
  datatype SettingChange =
    | SetTheme(theme: Theme)
    | SetLanguage(language: Language)
    | SetNotifications(enabled: bool)

  const AVATAR_COLORS: seq<string> := [
    "bg-red-500", "bg-orange-500", "bg-amber-500", "bg-yellow-500", "bg-lime-500",
    "bg-green-500", "bg-emerald-500", "bg-teal-500", "bg-cyan-500", "bg-sky-500",
    "bg-blue-500", "bg-indigo-500", "bg-violet-500", "bg-purple-500", "bg-fuchsia-500",
    "bg-pink-500", "bg-rose-500"
  ]

  /** The fields of `UNKNOWN_USER_PLACEHOLDER`. */
  const UNKNOWN_NAME: string := "Unknown User"
  const UNKNOWN_NICKNAME: string := "unknown"
  const UNKNOWN_COLOR: string := "bg-gray-400"

  const DEFAULT_APP_SETTINGS: AppSettings := AppSettings(Light, En, true)

  /** JavaScript truthiness of an optional string: present and not empty. */
  predicate Truthy(s: Option<string>)
  {
    s.Some? && s.value != ""
  }
}
