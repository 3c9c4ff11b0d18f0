/**
 * The user administration page: a searchable list of users and a modal form to
 * create a user or edit one, with a switch per permission flag.
 */
module AdminUsersPage {
  import opened Wrappers
  import opened Text
  import opened Seqs
  import opened UserService

  // ---------------------------------------------------------------------------
  // Search.

  /** A user is listed when the lower-cased term occurs in its lower-cased name or email. */
  predicate Matches(u: User, term: string) {
    Contains(ToLower(u.fullName), ToLower(term)) || Contains(ToLower(u.email), ToLower(term))
  }

  function MatchesTerm(term: string): User -> bool {
    u => Matches(u, term)
  }

  /** `filteredUsers`: the users matching the search term, in list order. */
  function FilteredUsers(users: seq<User>, term: string): (r: seq<User>)
    ensures forall u :: u in r <==> u in users && Matches(u, term)
    ensures IsSubsequence(r, users)
  {
    FilterIsSubsequence(users, MatchesTerm(term));
    Filter(users, MatchesTerm(term))
  }

  /** An empty search term lists every user. */
  lemma EmptyTermKeepsAll(users: seq<User>)
    ensures FilteredUsers(users, "") == users
  {
    assert ToLower("") == "";
    forall k | 0 <= k < |users|
      ensures MatchesTerm("")(users[k])
    {
      ContainsEmpty(ToLower(users[k].fullName));
    }
    FilterAll(users, MatchesTerm(""));
  }

  /** The search ignores the case of ASCII letters in the term. */
  lemma {:induction false} SearchIgnoresTermCase(users: seq<User>, term: string, term': string)
    requires ToLower(term) == ToLower(term')
    ensures FilteredUsers(users, term) == FilteredUsers(users, term')
    decreases |users|
  {
    if users != [] {
      SearchIgnoresTermCase(users[1..], term, term');
      assert MatchesTerm(term)(users[0]) == MatchesTerm(term')(users[0]);
    }
  }

  // ---------------------------------------------------------------------------
  // The user form.

  /** `!permissions[key]` written back into `permissions`. */
  function Toggled(p: Permissions, f: Flag): (q: Permissions)
    ensures Has(q, f) == !Has(p, f)
    ensures forall g :: g != f ==> Has(q, g) == Has(p, g)
  {
    With(p, f, !Has(p, f))
  }

  /** Two permission sets that agree on every flag are the same. */
  lemma PermissionsExtensional(p: Permissions, q: Permissions)
    requires forall f :: Has(p, f) == Has(q, f)
    ensures p == q
  {
    assert Has(p, CanManageTimes) == Has(q, CanManageTimes);
    assert Has(p, CanEditSurveys) == Has(q, CanEditSurveys);
    assert Has(p, CanViewGlobalStats) == Has(q, CanViewGlobalStats);
    assert Has(p, CanManageUsers) == Has(q, CanManageUsers);
  }

  /** Flipping the same switch twice restores the permissions. */
  lemma ToggleTwice(p: Permissions, f: Flag)
    ensures Toggled(Toggled(p, f), f) == p
  {
    PermissionsExtensional(Toggled(Toggled(p, f), f), p);
  }

  /** Switches on different flags commute. */
  lemma ToggleCommutes(p: Permissions, f: Flag, g: Flag)
    ensures Toggled(Toggled(p, f), g) == Toggled(Toggled(p, g), f)
  {
    PermissionsExtensional(Toggled(Toggled(p, f), g), Toggled(Toggled(p, g), f));
  }

  /** The form of a new user: empty name and email, role OPERADOR, every flag off. */
  const NEW_USER_FORM: UserPayload :=
    UserPayload(None, Some(""), Some(""), None, Some("OPERADOR"), None, Some(NO_PERMISSIONS), None)

  /** The form that edits `u`: its name, email, role and a copy of its permissions. */
  function EditForm(u: User): (f: UserPayload)
    ensures f.fullName == Some(u.fullName) && f.email == Some(u.email) && f.role == Some(u.role)
    ensures f.permissions == Some(u.permissions)
    ensures f.id.None? && f.password.None? && f.isActive.None? && f.lastLogin.None?
  {
    UserPayload(None, Some(u.fullName), Some(u.email), None, Some(u.role), None, Some(u.permissions), None)
  }

  /** `disabled={!formData.fullName || !formData.email}` on the save button. */
  predicate SaveDisabled(f: UserPayload) {
    f.fullName.GetOr("") == "" || f.email.GetOr("") == ""
  }

  /** A new user cannot be saved before a name and an email are typed. */
  lemma NewUserFormDisabled()
    ensures SaveDisabled(NEW_USER_FORM)
    ensures forall fl :: !Has(NEW_USER_FORM.permissions.value, fl)
  {
  }

  /** An edit form can be saved as opened exactly when the user has a name and an email. */
  lemma EditFormEnabled(u: User)
    ensures !SaveDisabled(EditForm(u)) <==> u.fullName != "" && u.email != ""
  {
  }

  /** What `handleSave` sends. */
  datatype SaveRequest =
    | Update(id: string, payload: UserPayload)
    | Create(payload: UserPayload)

  /**
   * The page's list, search box, modal and form state, and its `loading` flag;
   * an object is built once the first `fetchUsers` has finished.
   */
  class UsersAdmin {
    var users: seq<User>
    var loading: bool
    var searchTerm: string
    var modalOpen: bool
    var editing: Option<User>
    var form: UserPayload

    constructor (loaded: seq<User>)
      ensures users == loaded && searchTerm == "" && !modalOpen && editing.None?
      ensures form == NEW_USER_FORM && !loading
    {
      users := loaded;
      loading := false;
      searchTerm := "";
      modalOpen := false;
      editing := None;
      form := NEW_USER_FORM;
    }

    /** The rows the table shows. */
    function Shown(): (r: seq<User>)
      reads this
      ensures IsSubsequence(r, users)
      ensures forall u :: u in r <==> u in users && Matches(u, searchTerm)
    {
      FilteredUsers(users, searchTerm)
    }

    method SetSearch(term: string)
      modifies this
      ensures searchTerm == term
      ensures users == old(users) && modalOpen == old(modalOpen) && editing == old(editing) && form == old(form)
      ensures loading == old(loading)
    {
      searchTerm := term;
    }

    /** `handleOpenModal(user?)`: the edit form of `user`, or the new-user form. */
    method OpenModal(user: Option<User>)
      modifies this
      ensures editing == user && modalOpen
      ensures user.Some? ==> form == EditForm(user.value)
      ensures user.None? ==> form == NEW_USER_FORM
      ensures users == old(users) && searchTerm == old(searchTerm) && loading == old(loading)
    {
      if user.Some? {
        editing := user;
        form := EditForm(user.value);
      } else {
        editing := None;
        form := NEW_USER_FORM;
      }
      modalOpen := true;
    }

    /** `handlePermissionChange(key)`: flips `key` and nothing else; a form without permissions is left alone. */
    method PermissionChange(f: Flag)
      modifies this
      ensures old(form).permissions.None? ==> form == old(form)
      ensures old(form).permissions.Some? ==>
        form == old(form).(permissions := Some(Toggled(old(form).permissions.value, f)))
      ensures users == old(users) && searchTerm == old(searchTerm) && loading == old(loading)
      ensures modalOpen == old(modalOpen) && editing == old(editing)
    {
      if form.permissions.None? {
        return;
      }
      var p := form.permissions.value;
      form := form.(permissions := Some(With(p, f, !Has(p, f))));
    }

    /**
     * `handleSave`: loading starts, then an update of the edited user or a
     * creation is sent. When the backend accepts it (`ok`), the modal closes and
     * the list is fetched again; when that fetch answers (`reloaded`), the list
     * is replaced and loading ends. Neither await is guarded: a rejected request
     * leaves the modal open, and a failed fetch leaves the list as it was; in
     * both cases loading is never switched off.
     */
    method Save(ok: bool, reloaded: Option<seq<User>>) returns (request: SaveRequest)
      modifies this
      ensures old(editing).Some? ==> request == Update(old(editing).value.id, old(form))
      ensures old(editing).None? ==> request == Create(old(form))
      ensures ok ==> !modalOpen
      ensures !ok ==> modalOpen == old(modalOpen)
      ensures ok && reloaded.Some? ==> users == reloaded.value && !loading
      ensures !ok || reloaded.None? ==> users == old(users) && loading
      ensures editing == old(editing) && form == old(form) && searchTerm == old(searchTerm)
    {
      loading := true;
      if editing.Some? {
        request := Update(editing.value.id, form);
      } else {
        request := Create(form);
      }
      if !ok {
        return;
      }
      modalOpen := false;
      if reloaded.None? {
        return;
      }
      users := reloaded.value;
      loading := false;
    }
  }
}
