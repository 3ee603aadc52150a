/**
 The account document (`UserSchema`): its role enum, the validators that run
 before every save, the defaults a new document receives, and the pre-save
 hook that re-hashes a modified password. Password hashing is an abstract
 function `hash`; its salt and cost are not modelled.
 */
module UserModel {
  import opened Common
  import opened Coll

  datatype Role = Parent | Subuser | Admin

  function RoleName(r: Role): string {
    match r
    case Parent => "parent"
    case Subuser => "subuser"
    case Admin => "admin"
  }

  /** The role enum: a string is accepted exactly when it is the name of a role. */
  function ParseRole(s: string): (r: Option<Role>)
    ensures forall x: Role :: r == Some(x) <==> RoleName(x) == s
  {
    if s == "parent" then Some(Parent)
    else if s == "subuser" then Some(Subuser)
    else if s == "admin" then Some(Admin)
    else None
  }

  const EmailMaxLength: nat := 100

  datatype User = User(
    id: Id,
    email: Option<string>,
    password: string,
    role: Role,
    createdBy: Option<Id>,
    balance: Option<int>,
    isVerified: bool,
    fullname: Option<string>,
    numberphone: Option<string>,
    image: Option<string>,
    isSuspended: bool)

  /**
   The schema validators. A required string path rejects a missing value,
   `null` and "": email is required unless the role is subuser, numberphone
   exactly when it is, and password always. `maxlength` counts the UTF-16
   code units of the email.
   */
  predicate ValidUser(u: User) {
    && (u.role != Subuser ==> Truthy(u.email))
    && (u.email.Some? ==> JsLength(u.email.value) <= EmailMaxLength)
    && u.password != ""
    && (u.role == Subuser ==> Truthy(u.numberphone))
  }

  /**
   The paths a controller sets when it creates an account; a path left `None`
   takes its default. (No creating controller passes `null` for a path with
   a default.)
   */
  datatype UserFields = UserFields(
    email: Option<string>,
    password: Option<string>,
    role: Option<Role>,
    createdBy: Option<Id>,
    isVerified: Option<bool>,
    fullname: Option<string>,
    numberphone: Option<string>,
    image: Option<string>)

  /** The pre-save hook: the password is re-hashed when, and only when, it was modified. */
  function SaveHook(u: User, passwordModified: bool, hash: string -> string): (r: User)
    ensures r.(password := u.password) == u
    ensures !passwordModified ==> r == u
    ensures passwordModified ==> r.password == hash(u.password)
  {
    if passwordModified then u.(password := hash(u.password)) else u
  }

  /** The document `fields` describe once the schema defaults are filled in (before validation). */
  function WithDefaults(id: Id, f: UserFields): User {
    User(id, f.email, Coalesce(f.password, ""), Coalesce(f.role, Parent), f.createdBy, Some(0),
         Coalesce(f.isVerified, false), Some(Coalesce(f.fullname, "")), f.numberphone, Some(Coalesce(f.image, "")), false)
  }

  /**
   Creating and saving a new account: defaults, validation, then the pre-save
   hook (a new document's password counts as modified). `None` is the
   validation error the save throws.
   */
  function CreateUser(id: Id, f: UserFields, hash: string -> string): (r: Option<User>)
    ensures r.Some? <==>
      && Truthy(f.password)
      && (Coalesce(f.role, Parent) != Subuser ==> Truthy(f.email))
      && (f.email.Some? ==> JsLength(f.email.value) <= EmailMaxLength)
      && (Coalesce(f.role, Parent) == Subuser ==> Truthy(f.numberphone))
    ensures r.Some? ==>
      && r.value.id == id
      && r.value.password == hash(f.password.value)
      && r.value.role == Coalesce(f.role, Parent)
      && r.value.email == f.email
      && r.value.createdBy == f.createdBy
      && r.value.balance == Some(0)
      && r.value.isVerified == Coalesce(f.isVerified, false)
      && r.value.fullname == Some(Coalesce(f.fullname, ""))
      && r.value.numberphone == f.numberphone
      && r.value.image == Some(Coalesce(f.image, ""))
      && !r.value.isSuspended
  {
    var doc := WithDefaults(id, f);
    if ValidUser(doc) then Some(SaveHook(doc, true, hash)) else None
  }

  // ---------------------------------------------------------------------------
  // Filters over the users collection
  // ---------------------------------------------------------------------------

  function HasId(id: Id): User -> bool {
    (u: User) => u.id == id
  }

  function HasEmail(email: string): User -> bool {
    (u: User) => u.email == Some(email)
  }

  function ParentWithId(id: Id): User -> bool {
    (u: User) => u.id == id && u.role == Parent
  }

  function SubuserWithId(id: Id): User -> bool {
    (u: User) => u.id == id && u.role == Subuser
  }

  function ParentWithEmail(email: string): User -> bool {
    (u: User) => u.email == Some(email) && u.role == Parent
  }

  function SubuserWithPhone(phone: string): User -> bool {
    (u: User) => u.numberphone == Some(phone) && u.role == Subuser
  }

  /** `{ numberphone, role: 'subuser', created_by: parentId }`: the upsert key, compared verbatim. */
  function SubuserKey(phone: string, parentId: Id): User -> bool {
    (u: User) => u.numberphone == Some(phone) && u.role == Subuser && u.createdBy == Some(parentId)
  }

  /** `{ role: 'subuser', created_by: parentId }`: the sub-accounts a parent owns. */
  function OwnedSubuser(parentId: Id): User -> bool {
    (u: User) => u.role == Subuser && u.createdBy == Some(parentId)
  }

  function HasRole(role: Role): User -> bool {
    (u: User) => u.role == role
  }

  /** The number of sub-accounts `parentId` owns. */
  function SubuserCount(users: seq<User>, parentId: Id): nat {
    Count(users, OwnedSubuser(parentId))
  }

  /** `findById`: the first account with this id. */
  function FindUser(users: seq<User>, id: Id): Option<nat> {
    FirstIndex(users, HasId(id))
  }
}
