/**
 * routes/users.js: listing, lookup, creation, update and deletion of users, and the caller's own
 * settings. The guarded routes run `Guards.RouteAuthenticate` first and reach these handlers only
 * through its `Next` outcome; `POST /` has no guard.
 */
module Users {
  import opened Wrappers
  import opened Text
  import opened Calendar
  import opened Services
  import opened Http
  import opened Collections
  import opened Guards
  import opened UserModel

  // ---------------------------------------------------------------- GET /

  /** The query string of `GET /`; absent values default to page 1, limit 10, no search. */
  datatype ListQuery = ListQuery(page: Option<int>, limit: Option<nat>, search: Option<string>)

  /**
   * A listed user. The projection `_id name email role isActive createdAt` names the `name`
   * virtual, which is no stored path, and leaves out `firstName` and `lastName`, so the virtual
   * is computed from two absent parts; `isActive` is not in the schema at all.
   */
  datatype UserSummary = UserSummary(id: Id, name: string, email: string, role: string, createdAt: Time)

  datatype UserPage = UserPage(users: seq<UserSummary>, totalPages: Option<nat>)

  function Summary(u: User): UserSummary {
    UserSummary(u.id, FullName("", ""), u.email, u.role, u.createdAt)
  }

  /**
   * The search clause: `$or` of case-insensitive regexes on `name`, `email` and `role`. `name`
   * is not stored, so that branch matches no document.
   */
  predicate SearchMatches(search: string, u: User) {
    search == "" || ContainsIgnoringCase(u.email, search) || ContainsIgnoringCase(u.role, search)
  }

  function Matching(users: seq<User>, search: string): (r: seq<User>)
    ensures forall i :: 0 <= i < |r| ==> SearchMatches(search, r[i])
    ensures forall i :: 0 <= i < |users| && SearchMatches(search, users[i]) ==> users[i] in r
  {
    Filter(users, u => SearchMatches(search, u))
  }

  function SummaryCreatedAt(s: UserSummary): Time { s.createdAt }

  /** One page of users, already ordered, as the listing shows them. */
  function Summaries(ordered: seq<User>, skip: nat, limit: nat): (shown: seq<UserSummary>)
    requires NewestFirst(ordered, CreatedAtOf)
    ensures |shown| == |Window(ordered, skip, limit)|
    ensures limit > 0 ==> |shown| <= limit
    ensures NewestFirst(shown, SummaryCreatedAt)
    ensures forall i :: 0 <= i < |shown| ==> skip + i < |ordered| && shown[i] == Summary(ordered[skip + i])
  {
    var window := Window(ordered, skip, limit);
    var shown := Map(window, Summary);
    WindowNewestFirst(ordered, skip, limit, CreatedAtOf);
    assert NewestFirst(shown, SummaryCreatedAt) by {
      forall i, j | 0 <= i < j < |shown| ensures SummaryCreatedAt(shown[i]) >= SummaryCreatedAt(shown[j]) {
        assert SummaryCreatedAt(shown[i]) == CreatedAtOf(window[i]);
        assert SummaryCreatedAt(shown[j]) == CreatedAtOf(window[j]);
      }
    }
    shown
  }

  /** `GET /`: newest first, `(page - 1) * limit` skipped, at most `limit` returned. */
  function ListUsers(users: seq<User>, q: ListQuery): (r: Reply<UserPage>)
    ensures var page, limit, search := q.page.GetOr(1), q.limit.GetOr(10), q.search.GetOr("");
            var skip := Skip(page, limit);
            var ordered := SortNewestFirst(Matching(users, search), CreatedAtOf);
            && (skip < 0 <==> r.Failure?)
            && (r.Failure? ==> r == Failure(500, ErrorKey, "Failed to fetch users"))
            && (r.Success? ==>
                  && r.status == 200
                  && (limit > 0 ==> |r.value.users| <= limit)
                  && NewestFirst(r.value.users, SummaryCreatedAt)
                  && r.value.users == Summaries(ordered, skip, limit)
                  && r.value.totalPages == TotalPages(|Matching(users, search)|, limit))
  {
    var page, limit, search := q.page.GetOr(1), q.limit.GetOr(10), q.search.GetOr("");
    var skip := Skip(page, limit);
    if skip < 0 then Failure(500, ErrorKey, "Failed to fetch users")
    else
      var matching := Matching(users, search);
      Success(200, UserPage(Summaries(SortNewestFirst(matching, CreatedAtOf), skip, limit),
                            TotalPages(|matching|, limit)))
  }

  /** Every listed name is empty, whatever the users are called. */
  lemma ListedNamesAreEmpty(users: seq<User>, q: ListQuery, i: nat)
    requires ListUsers(users, q).Success? && i < |ListUsers(users, q).value.users|
    ensures ListUsers(users, q).value.users[i].name == ""
  {
    FullNameCases("", "");
  }

  /** Searching for a first name finds nobody whose email and role do not contain it. */
  lemma SearchIgnoresNames(users: seq<User>, search: string, u: User)
    requires search != "" && !ContainsIgnoringCase(u.email, search) && !ContainsIgnoringCase(u.role, search)
    ensures u !in Matching(users, search)
  {
  }

  // ---------------------------------------------------------------- GET /:id

  /** `GET /:id`: the user without its password, or 404. */
  function GetUser(users: seq<User>, id: Id): (r: Reply<UserView>)
    ensures r.Failure? <==> forall i :: 0 <= i < |users| ==> users[i].id != id
    ensures r.Failure? ==> r == Failure(404, ErrorKey, "User not found")
    ensures r.Success? ==> r.status == 200 && exists i :: 0 <= i < |users| && users[i].id == id && r.value == View(users[i])
  {
    match FindById(users, id)
    case None => Failure(404, ErrorKey, "User not found")
    case Some(i) => Success(200, View(users[i]))
  }

  // ---------------------------------------------------------------- GET /me/settings

  /** `GET /me/settings`: the settings of the user the token names, or 404. */
  function GetSettings(users: seq<User>, req: Request): (r: Reply<Settings>)
    ensures r.Failure? ==> r == Failure(404, ErrorKey, "User not found")
    ensures r.Success? <==> req.userId.Some? && exists i :: 0 <= i < |users| && users[i].id == req.userId.value
    ensures r.Success? ==> r.status == 200 && exists i :: 0 <= i < |users| && users[i].id == req.userId.value && r.value == users[i].settings
  {
    if req.userId.None? then Failure(404, ErrorKey, "User not found")
    else match FindById(users, req.userId.value)
      case None => Failure(404, ErrorKey, "User not found")
      case Some(i) => Success(200, users[i].settings)
  }

  // ---------------------------------------------------------------- request bodies

  datatype CreateBody = CreateBody(
    firstName: Option<string>, lastName: Option<string>, email: Option<string>,
    photo: Option<string>, tempPassword: Option<string>, role: Option<string>,
    cargo: Option<string>, forcePasswordChange: Option<bool>, permissions: Option<PermissionsInput>)

  /** The 201 body of `POST /`: no password. */
  datatype Created = Created(id: Id, firstName: string, lastName: string, email: string, role: string, message: string)

  datatype UpdateBody = UpdateBody(
    name: Option<string>, email: Option<string>, photo: Option<string>, password: Option<string>,
    role: Option<string>, cargo: Option<string>, isActive: Option<bool>,
    forcePasswordChange: Option<bool>, permissions: Option<PermissionsInput>)

  datatype Updated = Updated(user: UserView, message: string)

  datatype SettingsBody = SettingsBody(darkMode: Option<bool>, language: Option<string>, timezone: Option<string>)

  /** The four fields `POST /` insists on. */
  predicate HasRequired(b: CreateBody) {
    Truthy(b.firstName) && Truthy(b.lastName) && Truthy(b.email) && Truthy(b.tempPassword)
  }

  /** The document `POST /` builds, given the hash of the temporary password. */
  function NewUserOf(b: CreateBody, id: Id, hashed: string, now: Time): User
    requires HasRequired(b)
  {
    NewUser(id, b.firstName.value, b.lastName.value, b.email.value, b.cargo, b.photo, b.role,
            b.forcePasswordChange, b.permissions, hashed, now)
  }

  /**
   * `findByIdAndUpdate(id, updateData)`: each field the body sets replaces the stored one; an
   * undefined field is stripped from the update (Mongoose 7 and later); `name` and `isActive` are
   * not schema paths and are dropped; a `permissions` object replaces the whole sub-record, its
   * missing flags reading as their defaults.
   */
  function Patched(u: User, b: UpdateBody, newHash: Option<string>, now: Time): (v: User)
    ensures v.password == if newHash.Some? then newHash.value else u.password
    ensures v.id == u.id && v.firstName == u.firstName && v.lastName == u.lastName
    ensures v.settings == u.settings && v.createdAt == u.createdAt && v.updatedAt == now
    ensures v.email == (if b.email.Some? then b.email.value else u.email)
    ensures v.photo == (if b.photo.Some? then b.photo else u.photo)
    ensures v.role == (if b.role.Some? then b.role.value else u.role)
    ensures v.cargo == (if b.cargo.Some? then b.cargo else u.cargo)
    ensures v.forcePasswordChange == (if b.forcePasswordChange.Some? then b.forcePasswordChange.value else u.forcePasswordChange)
    ensures v.permissions == (if b.permissions.Some? then ResolvePermissions(b.permissions) else u.permissions)
  {
    u.(email := b.email.GetOr(u.email),
       photo := if b.photo.Some? then b.photo else u.photo,
       role := b.role.GetOr(u.role),
       cargo := if b.cargo.Some? then b.cargo else u.cargo,
       forcePasswordChange := b.forcePasswordChange.GetOr(u.forcePasswordChange),
       permissions := if b.permissions.Some? then ResolvePermissions(b.permissions) else u.permissions,
       password := newHash.GetOr(u.password),
       updatedAt := now)
  }

  /** `name` and `isActive` in an update body have no effect. */
  lemma PatchIgnoresNameAndIsActive(u: User, b: UpdateBody, newHash: Option<string>, now: Time)
    ensures Patched(u, b, newHash, now) == Patched(u, b.(name := None, isActive := None), newHash, now)
  {
  }

  /** The partial merge of `PUT /me/settings`, field by field. */
  method MergeSettings(s: Settings, b: SettingsBody) returns (t: Settings)
    ensures t.darkMode == if b.darkMode.Some? then b.darkMode.value else s.darkMode
    ensures t.language == if Truthy(b.language) then b.language.value else s.language
    ensures t.timezone == if Truthy(b.timezone) then b.timezone.value else s.timezone
  {
    t := s;
    if b.darkMode.Some? {
      t := t.(darkMode := b.darkMode.value);
    }
    if Truthy(b.language) {
      t := t.(language := b.language.value);
    }
    if Truthy(b.timezone) {
      t := t.(timezone := b.timezone.value);
    }
  }

  /** The users collection. */
  class UserStore {
    var users: seq<User>

    ghost predicate Valid()
      reads this
    {
      Indexed(users)
    }

    constructor ()
      ensures Valid() && users == []
    {
      users := [];
    }

    /** `POST /` (no guard). */
    method Create(b: CreateBody, passwords: PasswordLibrary, salt: string, newId: Id, now: Time)
      returns (r: Reply<Created>)
      requires Valid() && HashesNonEmpty(passwords)
      modifies this
      ensures Valid()
      ensures r.Failure? ==> users == old(users)
      ensures !HasRequired(b) ==>
                r == Failure(400, ErrorKey, "First name, last name, email, and password are required")
      ensures HasRequired(b) && FindByEmail(old(users), b.email.value).Some? ==>
                r == Failure(400, ErrorKey, "User with this email already exists")
      ensures r.Success? <==>
                HasRequired(b) && FindByEmail(old(users), b.email.value).None?
                && b.role.GetOr(DEFAULT_ROLE) in ROLES && FindById(old(users), newId).None?
      ensures r.Failure? && r.status != 400 ==> r == Failure(500, ErrorKey, "Failed to create user")
      ensures r.Success? ==>
                var u := NewUserOf(b, newId, passwords.hash(b.tempPassword.value, salt), now);
                && users == old(users) + [u]
                && r == Success(201, Created(u.id, u.firstName, u.lastName, u.email, u.role,
                                             "User created successfully"))
    {
      if !HasRequired(b) {
        r := Failure(400, ErrorKey, "First name, last name, email, and password are required");
        return;
      }
      if FindByEmail(users, b.email.value).Some? {
        r := Failure(400, ErrorKey, "User with this email already exists");
        return;
      }
      var hashed := passwords.hash(b.tempPassword.value, salt);
      var u := NewUserOf(b, newId, hashed, now);
      if !SchemaValid(u) || FindById(users, newId).Some? {
        r := Failure(500, ErrorKey, "Failed to create user");
        return;
      }
      AppendDistinct(users, u, IdOf);
      AppendDistinct(users, u, EmailOf);
      users := users + [u];
      r := Success(201, Created(u.id, u.firstName, u.lastName, u.email, u.role, "User created successfully"));
    }

    /**
     * `PUT /:id`: the password is re-hashed only when one is given; an email another user holds
     * trips the unique index (500); an unknown id is 404.
     */
    method Update(id: Id, b: UpdateBody, passwords: PasswordLibrary, salt: string, now: Time)
      returns (r: Reply<Updated>)
      requires Valid()
      modifies this
      ensures Valid()
      ensures r.Failure? ==> users == old(users)
      ensures FindById(old(users), id).None? <==> r == Failure(404, ErrorKey, "User not found")
      ensures r.Failure? && r.status != 404 ==> r == Failure(500, ErrorKey, "Failed to update user")
      ensures r.Success? ==>
                var i := FindById(old(users), id).value;
                var newHash := if Truthy(b.password) then Some(passwords.hash(b.password.value, salt)) else None;
                var v := Patched(old(users)[i], b, newHash, now);
                && users == old(users)[i := v]
                && r == Success(200, Updated(View(v), "User updated successfully"))
      ensures r.Success? ==> |users| == |old(users)|
      ensures FindById(old(users), id).Some? ==>
                var i := FindById(old(users), id).value;
                var newHash := if Truthy(b.password) then Some(passwords.hash(b.password.value, salt)) else None;
                var holder := FindByEmail(old(users), Patched(old(users)[i], b, newHash, now).email);
                (r.Success? <==> holder.None? || holder.value == i)
    {
      var newHash := if Truthy(b.password) then Some(passwords.hash(b.password.value, salt)) else None;
      var found := FindById(users, id);
      if found.None? {
        r := Failure(404, ErrorKey, "User not found");
        return;
      }
      var i := found.value;
      var v := Patched(users[i], b, newHash, now);
      var holder := FindByEmail(users, v.email);
      if holder.Some? && holder.value != i {
        r := Failure(500, ErrorKey, "Failed to update user");
        return;
      }
      ReplaceDistinct(users, i, v, IdOf);
      ReplaceDistinct(users, i, v, EmailOf);
      users := users[i := v];
      r := Success(200, Updated(View(v), "User updated successfully"));
    }

    /** `DELETE /:id`: removes the user with that id and no other; 404 when there is none. */
    method Delete(id: Id) returns (r: Reply<string>)
      requires Valid()
      modifies this
      ensures Valid()
      ensures users == Filter(old(users), (u: User) => u.id != id)
      ensures FindById(old(users), id).None? <==> r == Failure(404, ErrorKey, "User not found")
      ensures FindById(old(users), id).Some? ==> r == Success(200, "User deleted successfully")
      ensures r.Success? ==> |users| == |old(users)| - 1
    {
      var found := FindById(users, id);
      FilterDistinct(users, (u: User) => u.id != id, IdOf);
      FilterDistinct(users, (u: User) => u.id != id, EmailOf);
      OnlyMatchRemoved(users, id);
      users := Filter(users, (u: User) => u.id != id);
      if found.None? {
        r := Failure(404, ErrorKey, "User not found");
      } else {
        r := Success(200, "User deleted successfully");
      }
    }

    /**
     * `PUT /me/settings`: darkMode is set whenever given (false included), language and timezone
     * only when non-empty; `save()` validates the whole document and answers 500 when it fails.
     */
    method UpdateSettings(req: Request, b: SettingsBody, now: Time) returns (r: Reply<Settings>)
      requires Valid()
      modifies this
      ensures Valid()
      ensures r.Failure? ==> users == old(users)
      ensures (req.userId.None? || FindById(old(users), req.userId.value).None?) <==>
                r == Failure(404, ErrorKey, "User not found")
      ensures r.Failure? && r.status != 404 ==> r == Failure(500, ErrorKey, "Failed to update settings")
      ensures req.userId.Some? && FindById(old(users), req.userId.value).Some? ==>
                (r.Success? <==> SchemaValid(old(users)[FindById(old(users), req.userId.value).value]))
      ensures r.Success? ==>
                var i := FindById(old(users), req.userId.value).value;
                var u := old(users)[i];
                && SchemaValid(u)
                && r.status == 200
                && r.value.darkMode == (if b.darkMode.Some? then b.darkMode.value else u.settings.darkMode)
                && r.value.language == (if Truthy(b.language) then b.language.value else u.settings.language)
                && r.value.timezone == (if Truthy(b.timezone) then b.timezone.value else u.settings.timezone)
                && users == old(users)[i := u.(settings := r.value,
                                              updatedAt := if r.value == u.settings then u.updatedAt else now)]
    {
      if req.userId.None? {
        r := Failure(404, ErrorKey, "User not found");
        return;
      }
      var found := FindById(users, req.userId.value);
      if found.None? {
        r := Failure(404, ErrorKey, "User not found");
        return;
      }
      var i := found.value;
      var u := users[i];
      var merged := MergeSettings(u.settings, b);
      if !SchemaValid(u) {
        r := Failure(500, ErrorKey, "Failed to update settings");
        return;
      }
      var saved := u.(settings := merged, updatedAt := if merged == u.settings then u.updatedAt else now);
      ReplaceDistinct(users, i, saved, IdOf);
      ReplaceDistinct(users, i, saved, EmailOf);
      users := users[i := saved];
      r := Success(200, merged);
    }
  }

  /** With unique ids, deleting by id removes exactly one user when it exists and none otherwise. */
  lemma OnlyMatchRemoved(users: seq<User>, id: Id)
    requires Distinct(users, IdOf)
    ensures |Filter(users, (u: User) => u.id != id)| ==
              if FindById(users, id).Some? then |users| - 1 else |users|
  {
    FilterOutKey(users, IdOf, id, (u: User) => u.id != id);
  }
}
