/**
 * The rules of the settings and admin pages: the admin user search, the guard
 * that keeps an admin from deleting their own account, when a row's delete
 * button is disabled, who may see the admin panel, and how a settings control
 * reaches the store.
 */
module SettingsAdminPage {
  import opened Maybe
  import opened Seqs
  import opened Strings
  import opened Types
  import Store
  import ChatPage

  // ---------------------------------------------------------------------------
  // The admin user search (AdminPanelContent.filteredUsers)

  predicate MatchesUser(u: User, term: string)
  {
    ChatPage.Matches(u.name, term) || ChatPage.Matches(u.nickname, term) || ChatPage.Matches(u.email, term)
  }

  function MatchesUserFor(term: string): User -> bool
  {
    (u: User) => MatchesUser(u, term)
  }

  /** The rows of the admin table: the users whose name, nickname or e-mail contains the term, in table order. */
  function FilterUsers(users: seq<User>, term: string): (r: seq<User>)
    ensures IsSubsequence(r, users)
    ensures forall i :: 0 <= i < |r| ==> MatchesUser(r[i], term)
    ensures forall i :: 0 <= i < |users| && MatchesUser(users[i], term) ==> users[i] in r
    ensures forall x :: multiset(r)[x] == if MatchesUser(x, term) then multiset(users)[x] else 0
  {
    FilterMultiset(users, MatchesUserFor(term));
    Filter(users, MatchesUserFor(term))
  }

  /** With no search term the admin table lists every user. */
  lemma EmptySearchListsEveryone(users: seq<User>)
    ensures FilterUsers(users, "") == users
  {
    forall i | 0 <= i < |users| ensures MatchesUserFor("")(users[i]) {
      ChatPage.EmptyTermMatches(users[i].name);
    }
    FilterKeepsAll(users, MatchesUserFor(""));
  }

  /** The admin search is case-insensitive in its term. */
  lemma AdminSearchIgnoresTermCase(users: seq<User>, term: string)
    ensures FilterUsers(users, Lower(term)) == FilterUsers(users, term)
  {
    forall i | 0 <= i < |users| ensures MatchesUserFor(Lower(term))(users[i]) == MatchesUserFor(term)(users[i]) {
      ChatPage.MatchesIgnoresTermCase(users[i].name, term);
      ChatPage.MatchesIgnoresTermCase(users[i].nickname, term);
      ChatPage.MatchesIgnoresTermCase(users[i].email, term);
    }
    FilterCongruent(users, MatchesUserFor(Lower(term)), MatchesUserFor(term));
  }

  // ---------------------------------------------------------------------------
  // Deleting a user from the admin table

  /** `userId === currentUser?.id`: the row is the signed-in admin's own. */
  predicate IsSelf(userId: string, current: Option<User>)
  {
    current.Some? && current.value.id == userId
  }

  datatype DeleteOutcome = RefusedSelf | Cancelled | Deleted

  /** `handleDeleteUser`'s decision, with the answer to the confirmation dialog as `confirmed`. */
  function DeleteDecision(userId: string, current: Option<User>, confirmed: bool): (r: DeleteOutcome)
    ensures r == RefusedSelf <==> IsSelf(userId, current)
    ensures r == Deleted <==> !IsSelf(userId, current) && confirmed
    ensures r == Cancelled <==> !IsSelf(userId, current) && !confirmed
  {
    if IsSelf(userId, current) then RefusedSelf
    else if confirmed then Deleted
    else Cancelled
  }

  /** The admin panel's own state: the row whose deletion is in progress (`isDeletingUser`). */
  class AdminPanel {
    var deletingUser: Option<string>

    constructor ()
      ensures deletingUser == None
    {
      deletingUser := None;
    }
  }

  /**
   * `handleDeleteUser`: the admin's own row is refused before any dialog;
   * otherwise the user is removed only on a confirmed dialog, with the row
   * marked as deleting for the duration of the store call.
   */
  method HandleDeleteUser(store: Store.AppStore, panel: AdminPanel, userId: string, confirmed: bool) returns (outcome: DeleteOutcome)
    modifies store`users, panel`deletingUser
    ensures outcome == DeleteDecision(userId, store.currentUser, confirmed)
    ensures outcome == Deleted ==> store.users == Store.RemoveUser(old(store.users), userId) && panel.deletingUser == None
    ensures outcome != Deleted ==> store.users == old(store.users) && panel.deletingUser == old(panel.deletingUser)
  {
    if IsSelf(userId, store.currentUser) {
      return RefusedSelf;
    }
    if !confirmed {
      return Cancelled;
    }
    panel.deletingUser := Some(userId);
    var _ := store.DeleteUserByAdmin(userId);
    panel.deletingUser := None;
    return Deleted;
  }

  /** `disabled={user.id === currentUser?.id || isDeletingUser === user.id}`. */
  predicate DeleteButtonDisabled(row: User, current: Option<User>, deletingUser: Option<string>)
  {
    IsSelf(row.id, current) || deletingUser == Some(row.id)
  }

  /** The own row's button is always disabled, and a click on an enabled one is never refused as self-deletion. */
  lemma EnabledDeleteIsNeverSelf(row: User, current: Option<User>, deletingUser: Option<string>, confirmed: bool)
    ensures current.Some? && row.id == current.value.id ==> DeleteButtonDisabled(row, current, deletingUser)
    ensures !DeleteButtonDisabled(row, current, deletingUser) ==>
              DeleteDecision(row.id, current, confirmed) == (if confirmed then Deleted else Cancelled)
  {
  }

  // ---------------------------------------------------------------------------
  // The page itself

  datatype PageView = SettingsView | AdminView

  datatype Screen = AccessDenied | SettingsScreen | AdminPanelScreen

  /** `currentUser?.isAdmin`: false when nobody is signed in. */
  predicate IsAdmin(current: Option<User>)
  {
    current.Some? && current.value.isAdmin
  }

  /** `SettingsAdminPage`: the admin view is shown only to an admin; anyone else asking for it sees the access-denied screen. */
  function RenderPage(view: PageView, current: Option<User>): (s: Screen)
    ensures s == AdminPanelScreen <==> view == AdminView && IsAdmin(current)
    ensures s == AccessDenied <==> view == AdminView && !IsAdmin(current)
    ensures s == SettingsScreen <==> view == SettingsView
  {
    match view
    case AdminView => if !IsAdmin(current) then AccessDenied else AdminPanelScreen
    case SettingsView => SettingsScreen
  }

  /** `handleSettingChange`: one (key, value) pair goes to `updateSetting`, which replaces only that key. */
  method HandleSettingChange(store: Store.AppStore, change: SettingChange)
    modifies store`settings
    ensures store.settings == Store.ApplySetting(old(store.settings), change)
  {
    store.UpdateSetting(change);
  }
}
