/** The User schema (models/User.js): stored fields, defaults, constraints and the `name` virtual. */
module UserModel {
  import opened Wrappers
  import opened Text
  import opened Calendar
  import opened Services
  import opened Collections

  /** The seven capability flags. */
  datatype Permissions = Permissions(
    addEmployees: bool, editEmployees: bool, deactivateEmployees: bool, viewEmployees: bool,
    generateQRCodes: bool, revokeQRCodes: bool, manageUsers: bool)

  /** A `permissions` object as a request sends it: each flag may be left out. */
  datatype PermissionsInput = PermissionsInput(
    addEmployees: Option<bool>, editEmployees: Option<bool>, deactivateEmployees: Option<bool>,
    viewEmployees: Option<bool>, generateQRCodes: Option<bool>, revokeQRCodes: Option<bool>,
    manageUsers: Option<bool>)

  datatype Settings = Settings(darkMode: bool, language: string, timezone: string)

  /**
   * A stored user document. `role` is a string: the schema's enum is checked when a document is
   * saved, but `findByIdAndUpdate` runs no validators, so an update can store any role.
   */
  datatype User = User(
    id: Id, firstName: string, lastName: string, email: string,
    cargo: Option<string>, photo: Option<string>, role: string, forcePasswordChange: bool,
    permissions: Permissions, settings: Settings, password: string,
    createdAt: Time, updatedAt: Time)

  const ROLES: seq<string> := ["Administrator", "Manager", "Viewer"]
  const DEFAULT_ROLE: string := "Viewer"
  const DEFAULT_LANGUAGE: string := "English (United States)"
  const DEFAULT_TIMEZONE: string := "(GMT+01:00) West Africa Time (Luanda)"

  /** The schema's flag defaults, taken for every flag a request leaves out. */
  function ResolvePermissions(input: Option<PermissionsInput>): (p: Permissions)
    ensures input.None? ==>
              p == Permissions(false, false, false, true, false, false, false)
    ensures input.Some? ==>
              && p.addEmployees == input.value.addEmployees.GetOr(false)
              && p.editEmployees == input.value.editEmployees.GetOr(false)
              && p.deactivateEmployees == input.value.deactivateEmployees.GetOr(false)
              && p.viewEmployees == input.value.viewEmployees.GetOr(true)
              && p.generateQRCodes == input.value.generateQRCodes.GetOr(false)
              && p.revokeQRCodes == input.value.revokeQRCodes.GetOr(false)
              && p.manageUsers == input.value.manageUsers.GetOr(false)
  {
    var i := input.GetOr(PermissionsInput(None, None, None, None, None, None, None));
    Permissions(
      i.addEmployees.GetOr(false), i.editEmployees.GetOr(false), i.deactivateEmployees.GetOr(false),
      i.viewEmployees.GetOr(true), i.generateQRCodes.GetOr(false), i.revokeQRCodes.GetOr(false),
      i.manageUsers.GetOr(false))
  }

  function DefaultSettings(): (s: Settings)
    ensures !s.darkMode && s.language == DEFAULT_LANGUAGE && s.timezone == DEFAULT_TIMEZONE
  {
    Settings(false, DEFAULT_LANGUAGE, DEFAULT_TIMEZONE)
  }

  /** `[firstName, lastName].filter(Boolean).join(' ')`. */
  function JoinNonEmpty(parts: seq<string>): string {
    if parts == [] then ""
    else if parts[0] == "" then JoinNonEmpty(parts[1..])
    else
      var rest := JoinNonEmpty(parts[1..]);
      if rest == "" then parts[0] else parts[0] + " " + rest
  }

  /** The `name` virtual. */
  function FullName(firstName: string, lastName: string): string {
    JoinNonEmpty([firstName, lastName])
  }

  /** Empty parts are dropped and the others joined by a single space. */
  lemma FullNameCases(firstName: string, lastName: string)
    ensures FullName(firstName, lastName) ==
              if firstName == "" then lastName
              else if lastName == "" then firstName
              else firstName + " " + lastName
  {
    assert [firstName, lastName][1..] == [lastName];
    assert [lastName][1..] == [];
    assert JoinNonEmpty([lastName]) == lastName;
  }

  /** A document built by `new User({...})`: every field left undefined takes its schema default. */
  function NewUser(
    id: Id, firstName: string, lastName: string, email: string,
    cargo: Option<string>, photo: Option<string>, role: Option<string>,
    forcePasswordChange: Option<bool>, permissions: Option<PermissionsInput>,
    password: string, now: Time): (u: User)
    ensures u.role == role.GetOr(DEFAULT_ROLE)
    ensures u.forcePasswordChange == forcePasswordChange.GetOr(true)
    ensures u.permissions == ResolvePermissions(permissions)
    ensures u.settings == DefaultSettings()
    ensures u.id == id && u.email == email && u.password == password
    ensures u.firstName == firstName && u.lastName == lastName && u.cargo == cargo && u.photo == photo
    ensures u.createdAt == now && u.updatedAt == now
  {
    User(id, firstName, lastName, email, cargo, photo, role.GetOr(DEFAULT_ROLE),
         forcePasswordChange.GetOr(true), ResolvePermissions(permissions), DefaultSettings(),
         password, now, now)
  }

  /** A user given nothing optional: Viewer, must change password, may only view employees. */
  lemma NewUserDefaults(id: Id, firstName: string, lastName: string, email: string, password: string, now: Time)
    ensures var u := NewUser(id, firstName, lastName, email, None, None, None, None, None, password, now);
            && u.role == "Viewer" && u.forcePasswordChange
            && u.permissions.viewEmployees
            && !u.permissions.addEmployees && !u.permissions.editEmployees
            && !u.permissions.deactivateEmployees && !u.permissions.generateQRCodes
            && !u.permissions.revokeQRCodes && !u.permissions.manageUsers
            && !u.settings.darkMode
            && u.settings.language == "English (United States)"
            && u.settings.timezone == "(GMT+01:00) West Africa Time (Luanda)"
  {
  }

  /**
   * What `save()` validates: the four required strings are non-empty (Mongoose's `required`
   * refuses the empty string) and the role is one of the enum's values.
   */
  predicate SchemaValid(u: User) {
    u.firstName != "" && u.lastName != "" && u.email != "" && u.password != "" && u.role in ROLES
  }

  /** A user as sent back without its password (`select('-password')`), with the `name` virtual. */
  datatype UserView = UserView(
    id: Id, name: string, firstName: string, lastName: string, email: string,
    cargo: Option<string>, photo: Option<string>, role: string, forcePasswordChange: bool,
    permissions: Permissions, settings: Settings, createdAt: Time, updatedAt: Time)

  function View(u: User): (v: UserView)
    ensures v.id == u.id && v.email == u.email && v.role == u.role && v.settings == u.settings
    ensures v.firstName == u.firstName && v.lastName == u.lastName && v.cargo == u.cargo && v.photo == u.photo
    ensures v.forcePasswordChange == u.forcePasswordChange && v.permissions == u.permissions
    ensures v.createdAt == u.createdAt && v.updatedAt == u.updatedAt
    ensures v.name == FullName(u.firstName, u.lastName)
  {
    UserView(u.id, FullName(u.firstName, u.lastName), u.firstName, u.lastName, u.email,
             u.cargo, u.photo, u.role, u.forcePasswordChange, u.permissions, u.settings,
             u.createdAt, u.updatedAt)
  }

  /** The view keeps everything but the password: two users differing only there look the same. */
  lemma ViewHidesPassword(u: User, password: string)
    ensures View(u) == View(u.(password := password))
  {
  }

  function IdOf(u: User): Id { u.id }
  function EmailOf(u: User): string { u.email }
  function CreatedAtOf(u: User): Time { u.createdAt }

  /** The collection's two unique indexes: `_id` and `email`. */
  ghost predicate Indexed(users: seq<User>) {
    Distinct(users, IdOf) && Distinct(users, EmailOf)
  }

  /** `User.findById(id)`. */
  function FindById(users: seq<User>, id: Id): Option<nat> {
    Find(users, IdOf, id)
  }

  /** `User.findOne({ email })`: an exact, case-sensitive match. */
  function FindByEmail(users: seq<User>, email: string): Option<nat> {
    Find(users, EmailOf, email)
  }
}
