/**
 The account handlers of the parent/sub-account controller: registration,
 the two login decisions, the partial profile update, and creating, updating
 and deleting sub-accounts. Each handler maps the users collection and a
 request to the new collection and a reply; a reply that reports an error
 always comes with the collection unchanged.

 `hash` is bcrypt's hash (used by the controller and again by the pre-save
 hook) and `matches` is bcrypt's compare.
 */
module Accounts {
  import opened Common
  import opened Coll
  import opened UserModel

  /** The users collection after a handler, and its reply. */
  datatype Step<R> = Step(users: seq<User>, reply: R)

  // ---------------------------------------------------------------------------
  // registerParent
  // ---------------------------------------------------------------------------

  datatype RegisterReply = EmailTaken | Registered(user: User) | RegisterFailed
  {
    function Status(): nat {
      match this
      case EmailTaken => 400
      case Registered(_) => 201
      case RegisterFailed => 500
    }
  }

  /**
   An email already in use (by an account of any role) is refused. A missing
   password makes bcrypt throw; otherwise the controller hashes it and creates
   a verified parent, whose save hook hashes it a second time.
   */
  function RegisterParent(users: seq<User>, email: string, password: Option<string>, newId: Id,
                          hash: string -> string): (r: Step<RegisterReply>)
    ensures r.reply.EmailTaken? <==> exists j :: 0 <= j < |users| && users[j].email == Some(email)
    ensures r.reply.Registered? <==>
      && (forall j :: 0 <= j < |users| ==> users[j].email != Some(email))
      && password.Some? && email != "" && JsLength(email) <= EmailMaxLength && hash(password.value) != ""
    ensures r.reply.Registered? ==>
      && r.users == users + [r.reply.user]
      && r.reply.user.id == newId
      && r.reply.user.email == Some(email)
      && r.reply.user.role == Parent
      && r.reply.user.isVerified
      && r.reply.user.createdBy == None
      && r.reply.user.balance == Some(0)
      && !r.reply.user.isSuspended
      && r.reply.user.password == hash(hash(password.value))
    ensures !r.reply.Registered? ==> r.users == users
  {
    if FirstIndex(users, HasEmail(email)).Some? then Step(users, EmailTaken)
    else if password.None? then Step(users, RegisterFailed)
    else
      var fields := UserFields(Some(email), Some(hash(password.value)), Some(Parent), None, Some(true), None, None, None);
      match CreateUser(newId, fields, hash)
      case None => Step(users, RegisterFailed)
      case Some(u) => Step(users + [u], Registered(u))
  }

  // ---------------------------------------------------------------------------
  // loginParent, loginSubuser
  // ---------------------------------------------------------------------------

  /** An unknown account and a wrong password produce the same rejection. */
  datatype LoginReply = LoginMissingFields | LoginRejected | LoggedIn(userId: Id)
  {
    function Status(): nat {
      match this
      case LoginMissingFields => 400
      case LoginRejected => 400
      case LoggedIn(_) => 200
    }
  }

  /** The decision shared by both logins, given the first account the login's filter finds. */
  function LoginDecision(users: seq<User>, found: Option<nat>, password: string,
                         matches: (string, string) -> bool): (r: LoginReply)
    requires found.Some? ==> found.value < |users|
    ensures r.LoggedIn? <==> found.Some? && matches(password, users[found.value].password)
    ensures r.LoggedIn? ==> r.userId == users[found.value].id
    ensures !r.LoggedIn? ==> r == LoginRejected
  {
    match found
    case None => LoginRejected
    case Some(k) => if matches(password, users[k].password) then LoggedIn(users[k].id) else LoginRejected
  }

  /** Email login: only the first parent account with exactly this email is considered; suspension is not checked. */
  function LoginParent(users: seq<User>, email: Option<string>, password: Option<string>,
                       matches: (string, string) -> bool): (r: LoginReply)
    ensures r.LoginMissingFields? <==> !Truthy(email) || !Truthy(password)
    ensures Truthy(email) && Truthy(password) && (forall j :: 0 <= j < |users| ==> !ParentWithEmail(email.value)(users[j]))
            ==> r == LoginRejected
    ensures forall k :: 0 <= k < |users| && Truthy(email) && Truthy(password)
                 && ParentWithEmail(email.value)(users[k]) && (forall j :: 0 <= j < k ==> !ParentWithEmail(email.value)(users[j]))
                 ==> r == (if matches(password.value, users[k].password) then LoggedIn(users[k].id) else LoginRejected)
    ensures r.LoggedIn? ==>
      exists k :: 0 <= k < |users|
        && users[k].id == r.userId && users[k].role == Parent && users[k].email == email
        && matches(password.value, users[k].password)
        && (forall j :: 0 <= j < k ==> !ParentWithEmail(email.value)(users[j]))
  {
    if !Truthy(email) || !Truthy(password) then LoginMissingFields
    else
      FirstIndexIsEvery(users, ParentWithEmail(email.value));
      LoginDecision(users, FirstIndex(users, ParentWithEmail(email.value)), password.value, matches)
  }

  /**
   Phone login: the first sub-account with exactly this phone number, across
   all parents; suspension is not checked.
   */
  function LoginSubuser(users: seq<User>, phone: Option<string>, password: Option<string>,
                        matches: (string, string) -> bool): (r: LoginReply)
    ensures r.LoginMissingFields? <==> !Truthy(phone) || !Truthy(password)
    ensures Truthy(phone) && Truthy(password) && (forall j :: 0 <= j < |users| ==> !SubuserWithPhone(phone.value)(users[j]))
            ==> r == LoginRejected
    ensures forall k :: 0 <= k < |users| && Truthy(phone) && Truthy(password)
                 && SubuserWithPhone(phone.value)(users[k]) && (forall j :: 0 <= j < k ==> !SubuserWithPhone(phone.value)(users[j]))
                 ==> r == (if matches(password.value, users[k].password) then LoggedIn(users[k].id) else LoginRejected)
    ensures r.LoggedIn? ==>
      exists k :: 0 <= k < |users|
        && users[k].id == r.userId && users[k].role == Subuser && users[k].numberphone == phone
        && matches(password.value, users[k].password)
        && (forall j :: 0 <= j < k ==> !SubuserWithPhone(phone.value)(users[j]))
  {
    if !Truthy(phone) || !Truthy(password) then LoginMissingFields
    else
      FirstIndexIsEvery(users, SubuserWithPhone(phone.value));
      LoginDecision(users, FirstIndex(users, SubuserWithPhone(phone.value)), password.value, matches)
  }

  /** Suspending or unsuspending any account never changes the outcome of either login. */
  lemma LoginsIgnoreSuspension(users: seq<User>, k: nat, flag: bool, login: Option<string>,
                               password: Option<string>, matches: (string, string) -> bool)
    requires k < |users|
    ensures LoginParent(users[k := users[k].(isSuspended := flag)], login, password, matches)
         == LoginParent(users, login, password, matches)
    ensures LoginSubuser(users[k := users[k].(isSuspended := flag)], login, password, matches)
         == LoginSubuser(users, login, password, matches)
  {
    if Truthy(login) && Truthy(password) {
      FirstIndexUpdate(users, k, users[k].(isSuspended := flag), ParentWithEmail(login.value));
      FirstIndexUpdate(users, k, users[k].(isSuspended := flag), SubuserWithPhone(login.value));
    }
  }

  // ---------------------------------------------------------------------------
  // updateUser
  // ---------------------------------------------------------------------------

  /** The profile fields a request may supply. */
  datatype ProfilePatch = ProfilePatch(fullname: Field<string>, numberphone: Field<string>, image: Field<string>)

  /**
   Each field that is not `undefined` is copied onto the account: a missing
   key keeps the stored value, `null` clears the path, and a value replaces it.
   */
  function ApplyPatch(u: User, patch: ProfilePatch): (r: User)
    ensures r.(fullname := u.fullname, numberphone := u.numberphone, image := u.image) == u
    ensures patch.fullname.Absent? ==> r.fullname == u.fullname
    ensures patch.fullname.Null? ==> r.fullname.None?
    ensures patch.fullname.Given? ==> r.fullname == Some(patch.fullname.value)
    ensures patch.numberphone.Absent? ==> r.numberphone == u.numberphone
    ensures patch.numberphone.Null? ==> r.numberphone.None?
    ensures patch.numberphone.Given? ==> r.numberphone == Some(patch.numberphone.value)
    ensures patch.image.Absent? ==> r.image == u.image
    ensures patch.image.Null? ==> r.image.None?
    ensures patch.image.Given? ==> r.image == Some(patch.image.value)
  {
    u.(fullname := AssignDefined(patch.fullname, u.fullname),
       numberphone := AssignDefined(patch.numberphone, u.numberphone),
       image := AssignDefined(patch.image, u.image))
  }

  datatype UpdateReply = InvalidUserId | UserNotFound | ProfileUpdated(user: User) | UpdateFailed
  {
    function Status(): nat {
      match this
      case InvalidUserId => 400
      case UserNotFound => 404
      case ProfileUpdated(_) => 200
      case UpdateFailed => 500
    }
  }

  /**
   An id that is missing or not an ObjectId is refused before any lookup; the
   supplied fields are copied onto the account, and the save re-runs the
   schema validators (the password is not modified, so it is not re-hashed).
   */
  function UpdateUser(users: seq<User>, id: Option<string>, patch: ProfilePatch): (r: Step<UpdateReply>)
    ensures r.reply.InvalidUserId? <==> !ValidObjectIdOpt(id)
    ensures r.reply.UserNotFound? <==> ValidObjectIdOpt(id) && forall j :: 0 <= j < |users| ==> users[j].id != CastId(id.value)
    ensures r.reply.ProfileUpdated? ==>
      && FindUser(users, CastId(id.value)).Some?
      && r.reply.user == ApplyPatch(users[FindUser(users, CastId(id.value)).value], patch)
      && ValidUser(r.reply.user)
      && r.users == users[FindUser(users, CastId(id.value)).value := r.reply.user]
    ensures r.reply.UpdateFailed? <==>
      && ValidObjectIdOpt(id) && FindUser(users, CastId(id.value)).Some?
      && !ValidUser(ApplyPatch(users[FindUser(users, CastId(id.value)).value], patch))
    ensures !r.reply.ProfileUpdated? ==> r.users == users
  {
    if !ValidObjectIdOpt(id) then Step(users, InvalidUserId)
    else match FindUser(users, CastId(id.value))
      case None => Step(users, UserNotFound)
      case Some(k) =>
        var u := ApplyPatch(users[k], patch);
        if ValidUser(u) then Step(users[k := SaveHook(u, false, x => x)], ProfileUpdated(u))
        else Step(users, UpdateFailed)
  }

  /** Sending `numberphone: null` for a sub-account writes `null`, which the required validator refuses. */
  lemma NullPhoneFailsForSubuser(users: seq<User>, id: Id, fullname: Field<string>, image: Field<string>)
    requires IsObjectIdHex(id)
    requires FindUser(users, id).Some? && users[FindUser(users, id).value].role == Subuser
    ensures UpdateUser(users, Some(id), ProfilePatch(fullname, Null, image)) == Step(users, UpdateFailed)
  {
    CanonicalIdCastsToItself(id);
  }

  // ---------------------------------------------------------------------------
  // createOrUpdateSubuser
  // ---------------------------------------------------------------------------

  /** The number of sub-accounts one parent may own, enforced when creating one. */
  const SubuserQuota: nat := 10

  datatype SubuserRequest = SubuserRequest(
    numberphone: Option<string>,
    password: Option<string>,
    fullname: Option<string>,
    image: Option<string>,
    parentId: Option<string>)

  datatype SubuserReply =
    | SubuserMissingFields
    | InvalidParentId
    | ParentNotFound
    | SubuserUpdated(user: User)
    | QuotaReached
    | SubuserCreated(user: User)
    | SubuserFailed
  {
    function Status(): nat {
      match this
      case SubuserMissingFields => 400
      case InvalidParentId => 400
      case ParentNotFound => 400
      case SubuserUpdated(_) => 200
      case QuotaReached => 400
      case SubuserCreated(_) => 201
      case SubuserFailed => 500
    }
  }

  /** The request passed the field, id and parent checks. */
  predicate SubuserRequestAccepted(users: seq<User>, req: SubuserRequest) {
    && Truthy(req.numberphone) && Truthy(req.password) && Truthy(req.parentId)
    && ValidObjectId(req.parentId.value)
    && FirstIndex(users, ParentWithId(CastId(req.parentId.value))).Some?
  }

  /** The ObjectId the parent id of an accepted request casts to. */
  function ParentOf(users: seq<User>, req: SubuserRequest): Id
    requires SubuserRequestAccepted(users, req)
  {
    CastId(req.parentId.value)
  }

  /** The existing sub-account an accepted request updates in place, if any. */
  function UpsertTarget(users: seq<User>, req: SubuserRequest): Option<nat>
    requires SubuserRequestAccepted(users, req)
  {
    FirstIndex(users, SubuserKey(req.numberphone.value, ParentOf(users, req)))
  }

  /**
   The update path: a new password (hashed by the controller and again on
   save); fullname and image follow `??`, so a missing or `null` one keeps the
   stored value.
   */
  function RefreshSubuser(u: User, req: SubuserRequest, hash: string -> string): (r: User)
    requires req.password.Some?
    ensures r.(password := u.password, fullname := u.fullname, image := u.image) == u
    ensures req.fullname.Some? ==> r.fullname == req.fullname
    ensures req.fullname.None? ==> r.fullname == u.fullname
    ensures req.image.Some? ==> r.image == req.image
    ensures req.image.None? ==> r.image == u.image
  {
    u.(password := hash(req.password.value),
       fullname := if req.fullname.Some? then req.fullname else u.fullname,
       image := if req.image.Some? then req.image else u.image)
  }

  /** The create path's document: no email, and fullname/image default to "" also when supplied empty. */
  function NewSubuserFields(req: SubuserRequest, parent: Id, hash: string -> string): UserFields
    requires req.password.Some?
  {
    UserFields(None, Some(hash(req.password.value)), Some(Subuser), Some(parent), None,
               Some(OrElse(req.fullname, "")), req.numberphone, Some(OrElse(req.image, "")))
  }

  /**
   Create-or-update keyed on (numberphone, parentId): the phone is compared
   verbatim and the parent id as the ObjectId it casts to. A match is updated
   in place and the quota is not consulted; otherwise a new sub-account is
   created only while the parent owns fewer than ten. A document the schema
   validators refuse fails the save.
   */
  function CreateOrUpdateSubuser(users: seq<User>, req: SubuserRequest, newId: Id,
                                 hash: string -> string): (r: Step<SubuserReply>)
    ensures r.reply.SubuserMissingFields? <==>
      !Truthy(req.numberphone) || !Truthy(req.password) || !Truthy(req.parentId)
    ensures r.reply.InvalidParentId? <==>
      Truthy(req.numberphone) && Truthy(req.password) && Truthy(req.parentId) && !ValidObjectId(req.parentId.value)
    ensures r.reply.ParentNotFound? <==>
      && Truthy(req.numberphone) && Truthy(req.password) && Truthy(req.parentId) && ValidObjectId(req.parentId.value)
      && forall j :: 0 <= j < |users| ==> !(users[j].id == CastId(req.parentId.value) && users[j].role == Parent)
    ensures r.reply.SubuserUpdated? ==>
      && SubuserRequestAccepted(users, req) && UpsertTarget(users, req).Some?
      && var k := UpsertTarget(users, req).value;
      && users[k].numberphone == req.numberphone && users[k].role == Subuser
      && users[k].createdBy == Some(CastId(req.parentId.value))
      && r.users == users[k := r.reply.user]
      && r.reply.user.(password := users[k].password, fullname := users[k].fullname, image := users[k].image) == users[k]
      && r.reply.user.password == hash(hash(req.password.value))
      && r.reply.user.fullname == (if req.fullname.Some? then req.fullname else users[k].fullname)
      && r.reply.user.image == (if req.image.Some? then req.image else users[k].image)
    ensures r.reply.QuotaReached? <==>
      && SubuserRequestAccepted(users, req) && UpsertTarget(users, req).None?
      && SubuserCount(users, CastId(req.parentId.value)) >= SubuserQuota
    ensures r.reply.SubuserCreated? ==>
      && SubuserRequestAccepted(users, req) && UpsertTarget(users, req).None?
      && SubuserCount(users, CastId(req.parentId.value)) < SubuserQuota
      && r.users == users + [r.reply.user]
      && r.reply.user.id == newId
      && r.reply.user.role == Subuser
      && r.reply.user.createdBy == Some(CastId(req.parentId.value))
      && r.reply.user.email == None
      && r.reply.user.numberphone == req.numberphone
      && r.reply.user.fullname == Some(OrElse(req.fullname, ""))
      && r.reply.user.image == Some(OrElse(req.image, ""))
      && r.reply.user.password == hash(hash(req.password.value))
    ensures r.reply.SubuserFailed? <==>
      && SubuserRequestAccepted(users, req)
      && match UpsertTarget(users, req)
         case Some(k) => !ValidUser(RefreshSubuser(users[k], req, hash))
         case None => SubuserCount(users, CastId(req.parentId.value)) < SubuserQuota && hash(req.password.value) == ""
    ensures !r.reply.SubuserUpdated? && !r.reply.SubuserCreated? ==> r.users == users
  {
    if !Truthy(req.numberphone) || !Truthy(req.password) || !Truthy(req.parentId) then Step(users, SubuserMissingFields)
    else if !ValidObjectId(req.parentId.value) then Step(users, InvalidParentId)
    else if FirstIndex(users, ParentWithId(CastId(req.parentId.value))).None? then Step(users, ParentNotFound)
    else match UpsertTarget(users, req)
      case Some(k) =>
        var u := RefreshSubuser(users[k], req, hash);
        if ValidUser(u) then
          var saved := SaveHook(u, true, hash);
          Step(users[k := saved], SubuserUpdated(saved))
        else Step(users, SubuserFailed)
      case None =>
        if SubuserCount(users, ParentOf(users, req)) >= SubuserQuota then Step(users, QuotaReached)
        else match CreateUser(newId, NewSubuserFields(req, ParentOf(users, req), hash), hash)
          case None => Step(users, SubuserFailed)
          case Some(u) => Step(users + [u], SubuserCreated(u))
  }

  /**
   No parent is taken above the quota: if every parent owned at most ten
   sub-accounts before the call, every parent does after it. The update path
   changes no parent's count at all.
   */
  lemma CreateOrUpdateKeepsQuota(users: seq<User>, req: SubuserRequest, newId: Id, hash: string -> string, q: Id)
    requires SubuserCount(users, q) <= SubuserQuota
    ensures SubuserCount(CreateOrUpdateSubuser(users, req, newId, hash).users, q) <= SubuserQuota
    ensures !CreateOrUpdateSubuser(users, req, newId, hash).reply.SubuserCreated? ==>
      SubuserCount(CreateOrUpdateSubuser(users, req, newId, hash).users, q) == SubuserCount(users, q)
  {
    var r := CreateOrUpdateSubuser(users, req, newId, hash);
    match r.reply
    case SubuserUpdated(u) =>
      var k := UpsertTarget(users, req).value;
      CountUpdate(users, k, u, OwnedSubuser(q));
    case SubuserCreated(u) =>
      CountAppend(users, u, OwnedSubuser(q));
    case _ =>
  }

  // ---------------------------------------------------------------------------
  // deleteSubuser
  // ---------------------------------------------------------------------------

  datatype DeleteReply = SubuserDeleted | SubuserNotFound | DeleteFailed
  {
    function Status(): nat {
      match this
      case SubuserDeleted => 200
      case SubuserNotFound => 404
      case DeleteFailed => 500
    }
  }

  /**
   `findOneAndDelete({ _id, role: 'subuser' })`: an id that cannot be cast to
   an ObjectId throws; a parent or admin with that id is never removed.
   */
  function DeleteSubuser(users: seq<User>, subuserId: string): (r: Step<DeleteReply>)
    ensures r.reply.DeleteFailed? <==> !ValidObjectId(subuserId)
    ensures r.reply.SubuserNotFound? <==>
      ValidObjectId(subuserId) && forall j :: 0 <= j < |users| ==> !(users[j].id == CastId(subuserId) && users[j].role == Subuser)
    ensures r.reply.SubuserDeleted? ==>
      exists k :: 0 <= k < |users|
        && users[k].id == CastId(subuserId) && users[k].role == Subuser && r.users == RemoveAt(users, k)
    ensures !r.reply.SubuserDeleted? ==> r.users == users
  {
    if !ValidObjectId(subuserId) then Step(users, DeleteFailed)
    else match FirstIndex(users, SubuserWithId(CastId(subuserId)))
      case None => Step(users, SubuserNotFound)
      case Some(k) => Step(RemoveAt(users, k), SubuserDeleted)
  }

  /** Deleting a sub-account leaves the number of parents and admins as it was and no parent's sub-account count grows. */
  lemma DeleteSubuserSparesOtherRoles(users: seq<User>, subuserId: string, role: Role, q: Id)
    requires role != Subuser
    ensures Count(DeleteSubuser(users, subuserId).users, HasRole(role)) == Count(users, HasRole(role))
    ensures SubuserCount(DeleteSubuser(users, subuserId).users, q) <= SubuserCount(users, q)
  {
    if ValidObjectId(subuserId) {
      match FirstIndex(users, SubuserWithId(CastId(subuserId)))
      case None =>
      case Some(k) =>
        CountRemoveAt(users, k, HasRole(role));
        CountRemoveAt(users, k, OwnedSubuser(q));
    }
  }
}
