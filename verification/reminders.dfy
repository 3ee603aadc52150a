/**
 The reminder handlers. Every lookup is scoped to the caller: a reminder
 whose `user_id` is someone else's is never returned, changed or deleted.
 The caller id comes from the verified token; converting the request's date
 string to a Date is the abstract `parseDate`.
 */
module Reminders {
  import opened Common
  import opened Text
  import opened Coll
  import opened ReminderModel

  datatype Step<R> = Step(reminders: seq<Reminder>, reply: R)

  // ---------------------------------------------------------------------------
  // createReminder
  // ---------------------------------------------------------------------------

  datatype ReminderRequest = ReminderRequest(
    childId: Option<string>,
    reminderType: Option<string>,
    note: Option<string>,
    reminderDate: Option<string>,
    reminderTime: Option<string>,
    repeat: Field<bool>,
    repeatType: Field<string>,
    customType: Option<string>)

  datatype CreateReply =
    | ReminderMissingFields
    | ChildNotFound
    | CustomTypeRequired
    | ReminderRejected
    | ReminderCreated(reminder: Reminder)
  {
    function Status(): nat {
      match this
      case ReminderMissingFields => 400
      case ChildNotFound => 404
      case CustomTypeRequired => 400
      case ReminderRejected => 400
      case ReminderCreated(_) => 201
    }
  }

  /** The request names a caller, a child, a type, a date and a time. */
  predicate CreateRequestComplete(caller: Option<Id>, req: ReminderRequest) {
    Truthy(caller) && Truthy(req.childId) && Truthy(req.reminderType) && Truthy(req.reminderDate) && Truthy(req.reminderTime)
  }

  /** The controller's own check for an "other" reminder, made before the schema validator sees it. */
  predicate MissingCustomType(req: ReminderRequest) {
    req.reminderType == Some("other") && (!Truthy(req.customType) || Trim(req.customType.value) == "")
  }

  /**
   The document the request describes once cast to the schema: `None` when a
   cast or validator fails (unknown type or repeat kind, a `null` repeat kind,
   a date that does not parse, a failing custom type). A missing `repeat`
   defaults to false, while a `null` one is stored as it is.
   */
  function CastReminder(id: Id, caller: Id, req: ReminderRequest, parseDate: string -> Option<int>): (r: Option<Reminder>)
    requires Truthy(req.childId) && ValidObjectId(req.childId.value)
    requires Truthy(req.reminderType) && Truthy(req.reminderDate) && Truthy(req.reminderTime)
    ensures r.Some? ==>
      && ValidReminder(r.value)
      && r.value.id == id && r.value.userId == caller && r.value.childId == CastId(req.childId.value)
      && TypeName(r.value.reminderType) == req.reminderType.value
      && r.value.customType == req.customType && r.value.note == req.note
      && Some(r.value.reminderDate) == parseDate(req.reminderDate.value)
      && r.value.reminderTime == req.reminderTime.value
      && (req.repeat.Absent? ==> r.value.repeat == Some(false))
      && (!req.repeat.Absent? ==> r.value.repeat == NonNull(req.repeat))
      && (req.repeatType.Absent? ==> r.value.repeatType == NoRepeat)
      && (req.repeatType.Given? ==> RepeatName(r.value.repeatType) == req.repeatType.value)
      && r.value.isCompleted == Some(false)
    ensures r.None? <==>
      || ParseType(req.reminderType.value).None?
      || req.repeatType.Null?
      || (req.repeatType.Given? && ParseRepeat(req.repeatType.value).None?)
      || parseDate(req.reminderDate.value).None?
      || !CustomTypeValid(ParseType(req.reminderType.value).value, req.customType)
  {
    match (ParseType(req.reminderType.value), parseDate(req.reminderDate.value))
    case (Some(t), Some(date)) =>
      var repeatType := match req.repeatType
                        case Absent => Some(NoRepeat)
                        case Null => None
                        case Given(s) => ParseRepeat(s);
      var repeat := if req.repeat.Absent? then Some(false) else NonNull(req.repeat);
      if repeatType.None? then None
      else
        var r := Reminder(id, caller, CastId(req.childId.value), t, req.customType, req.note, date, req.reminderTime.value,
                          repeat, repeatType.value, Some(false));
        if ValidReminder(r) then Some(r) else None
    case _ => None
  }

  /** The request passed the field check and names a child id that casts. */
  predicate ChildIdCasts(caller: Option<Id>, req: ReminderRequest) {
    CreateRequestComplete(caller, req) && ValidObjectId(req.childId.value)
  }

  /** The caller owns the child the request names. */
  predicate OwnsChild(children: seq<Child>, caller: Option<Id>, req: ReminderRequest)
    requires ChildIdCasts(caller, req)
  {
    exists j :: 0 <= j < |children| && children[j].id == CastId(req.childId.value) && children[j].userId == caller.value
  }

  /**
   The checks in order: required fields, the child belongs to the caller (a
   child id that is not an ObjectId makes the lookup throw, answered as 400),
   an "other" reminder names a non-blank custom type, and the schema accepts
   the document.
   */
  function CreateReminder(reminders: seq<Reminder>, children: seq<Child>, caller: Option<Id>, req: ReminderRequest,
                          newId: Id, parseDate: string -> Option<int>): (r: Step<CreateReply>)
    ensures r.reply.ReminderMissingFields? <==> !CreateRequestComplete(caller, req)
    ensures r.reply.ChildNotFound? <==> ChildIdCasts(caller, req) && !OwnsChild(children, caller, req)
    ensures r.reply.CustomTypeRequired? <==>
      ChildIdCasts(caller, req) && OwnsChild(children, caller, req) && MissingCustomType(req)
    ensures r.reply.ReminderRejected? <==>
      || (CreateRequestComplete(caller, req) && !ValidObjectId(req.childId.value))
      || (&& ChildIdCasts(caller, req) && OwnsChild(children, caller, req) && !MissingCustomType(req)
          && CastReminder(newId, caller.value, req, parseDate).None?)
    ensures r.reply.ReminderCreated? ==>
      && ChildIdCasts(caller, req) && OwnsChild(children, caller, req) && !MissingCustomType(req)
      && r.reminders == reminders + [r.reply.reminder]
      && Some(r.reply.reminder) == CastReminder(newId, caller.value, req, parseDate)
    ensures !r.reply.ReminderCreated? ==> r.reminders == reminders
  {
    if !CreateRequestComplete(caller, req) then Step(reminders, ReminderMissingFields)
    else if !ValidObjectId(req.childId.value) then Step(reminders, ReminderRejected)
    else if FirstIndex(children, ChildOwnedBy(CastId(req.childId.value), caller.value)).None? then Step(reminders, ChildNotFound)
    else if MissingCustomType(req) then Step(reminders, CustomTypeRequired)
    else match CastReminder(newId, caller.value, req, parseDate)
      case None => Step(reminders, ReminderRejected)
      case Some(rem) => Step(reminders + [rem], ReminderCreated(rem))
  }

  /** An "other" reminder with a blank custom type is never stored, whichever check catches it. */
  lemma NoBlankOtherReminderStored(reminders: seq<Reminder>, children: seq<Child>, caller: Option<Id>,
                                   req: ReminderRequest, newId: Id, parseDate: string -> Option<int>)
    requires req.reminderType == Some("other")
    requires req.customType.None? || IsBlank(req.customType.value)
    ensures !CreateReminder(reminders, children, caller, req, newId, parseDate).reply.ReminderCreated?
  {
    if req.customType.Some? {
      TrimEmptyIffBlank(req.customType.value);
    }
  }

  // ---------------------------------------------------------------------------
  // Reads: getRemindersByUser, getReminderById, getRemindersByChild
  // ---------------------------------------------------------------------------

  datatype ListReply = ListUnauthenticated | ListNotFound | ListFailed | Listed(items: seq<Reminder>)
  {
    function Status(): nat {
      match this
      case ListUnauthenticated => 401
      case ListNotFound => 404
      case ListFailed => 500
      case Listed(_) => 200
    }
  }

  /** All of the caller's reminders, in collection order; no caller is a 401. */
  function RemindersByUser(reminders: seq<Reminder>, caller: Option<Id>): (r: ListReply)
    ensures r.ListUnauthenticated? <==> !Truthy(caller)
    ensures r.Listed? ==> |r.items| == Count(reminders, ReminderOwnedBy(caller.value))
    ensures r.Listed? ==> forall x :: x in r.items ==> x in reminders && x.userId == caller.value
    ensures r.Listed? ==> forall j :: 0 <= j < |reminders| && reminders[j].userId == caller.value ==> reminders[j] in r.items
  {
    if !Truthy(caller) then ListUnauthenticated else Listed(Select(reminders, ReminderOwnedBy(caller.value)))
  }

  datatype GetReply = GetFailed | GetNotFound | Found(reminder: Reminder)
  {
    function Status(): nat {
      match this
      case GetFailed => 500
      case GetNotFound => 404
      case Found(_) => 200
    }
  }

  /** One reminder by id, only if it is the caller's; an id that is not an ObjectId fails the query. */
  function ReminderById(reminders: seq<Reminder>, caller: Id, id: string): (r: GetReply)
    ensures r.GetFailed? <==> !ValidObjectId(id)
    ensures r.Found? ==> r.reminder in reminders && r.reminder.id == CastId(id) && r.reminder.userId == caller
    ensures r.GetNotFound? <==>
      ValidObjectId(id) && forall j :: 0 <= j < |reminders| ==> !(reminders[j].id == CastId(id) && reminders[j].userId == caller)
  {
    if !ValidObjectId(id) then GetFailed
    else match FirstIndex(reminders, OwnedReminder(CastId(id), caller))
      case None => GetNotFound
      case Some(k) => Found(reminders[k])
  }

  /** The caller's reminders for one child, provided the child is the caller's. */
  function RemindersByChild(reminders: seq<Reminder>, children: seq<Child>, caller: Id, childId: string): (r: ListReply)
    ensures !r.ListUnauthenticated?
    ensures r.ListFailed? <==> !ValidObjectId(childId)
    ensures r.ListNotFound? <==>
      ValidObjectId(childId) && forall j :: 0 <= j < |children| ==> !(children[j].id == CastId(childId) && children[j].userId == caller)
    ensures r.Listed? ==> exists j :: 0 <= j < |children| && children[j].id == CastId(childId) && children[j].userId == caller
    ensures r.Listed? ==> forall x :: x in r.items ==> x in reminders && x.userId == caller && x.childId == CastId(childId)
    ensures r.Listed? ==>
      forall j :: 0 <= j < |reminders| && reminders[j].userId == caller && reminders[j].childId == CastId(childId) ==>
        reminders[j] in r.items
  {
    if !ValidObjectId(childId) then ListFailed
    else if FirstIndex(children, ChildOwnedBy(CastId(childId), caller)).None? then ListNotFound
    else Listed(Select(reminders, ChildReminderOwnedBy(CastId(childId), caller)))
  }

  /** A created reminder is what its owner reads back under the fresh id, and nobody else finds it. */
  lemma CreateThenGet(reminders: seq<Reminder>, children: seq<Child>, caller: Id, req: ReminderRequest,
                      newId: Id, parseDate: string -> Option<int>, other: Id)
    requires IsObjectIdHex(newId)
    requires forall j :: 0 <= j < |reminders| ==> reminders[j].id != newId
    requires CreateReminder(reminders, children, Some(caller), req, newId, parseDate).reply.ReminderCreated?
    requires other != caller
    ensures var r := CreateReminder(reminders, children, Some(caller), req, newId, parseDate);
      && ReminderById(r.reminders, caller, newId) == Found(r.reply.reminder)
      && ReminderById(r.reminders, other, newId) == GetNotFound
  {
    var r := CreateReminder(reminders, children, Some(caller), req, newId, parseDate);
    CanonicalIdCastsToItself(newId);
    FirstIndexAppend(reminders, r.reply.reminder, OwnedReminder(newId, caller));
    FirstIndexAppend(reminders, r.reply.reminder, OwnedReminder(newId, other));
  }

  // ---------------------------------------------------------------------------
  // Writes: updateReminder, deleteReminder, completeReminder
  // ---------------------------------------------------------------------------

  /** A request body copied onto the document with `Object.assign`: every supplied path is overwritten, the owner included. */
  datatype ReminderPatch = ReminderPatch(
    userId: Field<string>,
    childId: Field<string>,
    reminderType: Field<string>,
    customType: Field<string>,
    note: Field<string>,
    reminderDate: Field<string>,
    reminderTime: Field<string>,
    repeat: Field<bool>,
    repeatType: Field<string>,
    isCompleted: Field<bool>)

  /**
   The save can store the patched document as far as each path's own type
   goes: every supplied value casts (ObjectIds, enum names, a parsable date),
   and no required or enum path is set to `null`.
   */
  predicate PatchCasts(p: ReminderPatch, parseDate: string -> Option<int>) {
    && !p.userId.Null? && (p.userId.Given? ==> ValidObjectId(p.userId.value))
    && !p.childId.Null? && (p.childId.Given? ==> ValidObjectId(p.childId.value))
    && !p.reminderType.Null? && (p.reminderType.Given? ==> ParseType(p.reminderType.value).Some?)
    && !p.repeatType.Null? && (p.repeatType.Given? ==> ParseRepeat(p.repeatType.value).Some?)
    && !p.reminderDate.Null? && (p.reminderDate.Given? ==> parseDate(p.reminderDate.value).Some?)
    && !p.reminderTime.Null?
  }

  /** Each supplied path is overwritten with its cast value, `null` included where the path allows it. */
  function ApplyPatch(r: Reminder, p: ReminderPatch, parseDate: string -> Option<int>): (r': Reminder)
    requires PatchCasts(p, parseDate)
    ensures r'.id == r.id
    ensures p.userId.Absent? ==> r'.userId == r.userId
    ensures p.userId.Given? ==> r'.userId == CastId(p.userId.value)
    ensures p.childId.Absent? ==> r'.childId == r.childId
    ensures p.childId.Given? ==> r'.childId == CastId(p.childId.value)
    ensures p.reminderType.Absent? ==> r'.reminderType == r.reminderType
    ensures p.reminderType.Given? ==> TypeName(r'.reminderType) == p.reminderType.value
    ensures p.customType.Absent? ==> r'.customType == r.customType
    ensures !p.customType.Absent? ==> r'.customType == NonNull(p.customType)
    ensures p.note.Absent? ==> r'.note == r.note
    ensures !p.note.Absent? ==> r'.note == NonNull(p.note)
    ensures p.reminderDate.Absent? ==> r'.reminderDate == r.reminderDate
    ensures p.reminderDate.Given? ==> Some(r'.reminderDate) == parseDate(p.reminderDate.value)
    ensures p.reminderTime.Absent? ==> r'.reminderTime == r.reminderTime
    ensures p.reminderTime.Given? ==> r'.reminderTime == p.reminderTime.value
    ensures p.repeat.Absent? ==> r'.repeat == r.repeat
    ensures !p.repeat.Absent? ==> r'.repeat == NonNull(p.repeat)
    ensures p.repeatType.Absent? ==> r'.repeatType == r.repeatType
    ensures p.repeatType.Given? ==> RepeatName(r'.repeatType) == p.repeatType.value
    ensures p.isCompleted.Absent? ==> r'.isCompleted == r.isCompleted
    ensures !p.isCompleted.Absent? ==> r'.isCompleted == NonNull(p.isCompleted)
  {
    Reminder(
      r.id,
      if p.userId.Given? then CastId(p.userId.value) else r.userId,
      if p.childId.Given? then CastId(p.childId.value) else r.childId,
      if p.reminderType.Given? then ParseType(p.reminderType.value).value else r.reminderType,
      AssignDefined(p.customType, r.customType),
      AssignDefined(p.note, r.note),
      if p.reminderDate.Given? then parseDate(p.reminderDate.value).value else r.reminderDate,
      if p.reminderTime.Given? then p.reminderTime.value else r.reminderTime,
      AssignDefined(p.repeat, r.repeat),
      if p.repeatType.Given? then ParseRepeat(p.repeatType.value).value else r.repeatType,
      AssignDefined(p.isCompleted, r.isCompleted))
  }

  /** A patch that leaves the type, custom type and time alone cannot make a valid reminder invalid, nor fix an invalid one. */
  lemma PatchOutsideValidatedPathsKeepsValidity(r: Reminder, p: ReminderPatch, parseDate: string -> Option<int>)
    requires PatchCasts(p, parseDate)
    requires p.reminderType.Absent? && p.customType.Absent? && p.reminderTime.Absent?
    ensures ValidReminder(ApplyPatch(r, p, parseDate)) <==> ValidReminder(r)
  {
  }

  /**
   The catch branch of an update answers 400 (`WriteRejected`); that of a
   deletion or a completion answers 500 (`WriteFailed`).
   */
  datatype WriteReply = WriteRejected | WriteFailed | WriteNotFound | Written(reminder: Reminder) | Deleted
  {
    function Status(): nat {
      match this
      case WriteRejected => 400
      case WriteFailed => 500
      case WriteNotFound => 404
      case Written(_) => 200
      case Deleted => 200
    }
  }

  /** The position of the caller's reminder with this id, if any. */
  function OwnedTarget(reminders: seq<Reminder>, caller: Id, id: string): Option<nat>
    requires ValidObjectId(id)
  {
    FirstIndex(reminders, OwnedReminder(CastId(id), caller))
  }

  /** Reminders that are not the caller's are all still there, unchanged and in place. */
  predicate OthersUntouched(before: seq<Reminder>, after: seq<Reminder>, caller: Id) {
    |after| == |before| && forall j :: 0 <= j < |before| && before[j].userId != caller ==> after[j] == before[j]
  }

  /**
   Only the caller's reminder is found; the body is copied onto it and the
   whole document validated on save. An id that is not an ObjectId, a value
   that does not cast and a failing validator are all answered as 400.
   */
  function UpdateReminder(reminders: seq<Reminder>, caller: Id, id: string, patch: ReminderPatch,
                          parseDate: string -> Option<int>): (r: Step<WriteReply>)
    ensures r.reply.WriteNotFound? <==> ValidObjectId(id) && OwnedTarget(reminders, caller, id).None?
    ensures r.reply.WriteRejected? <==>
      || !ValidObjectId(id)
      || (&& OwnedTarget(reminders, caller, id).Some?
          && (!PatchCasts(patch, parseDate)
              || !ValidReminder(ApplyPatch(reminders[OwnedTarget(reminders, caller, id).value], patch, parseDate))))
    ensures r.reply.Written? ==>
      && ValidObjectId(id) && OwnedTarget(reminders, caller, id).Some? && PatchCasts(patch, parseDate)
      && var k := OwnedTarget(reminders, caller, id).value;
      && r.reply.reminder == ApplyPatch(reminders[k], patch, parseDate)
      && ValidReminder(r.reply.reminder)
      && r.reminders == reminders[k := r.reply.reminder]
    ensures !r.reply.Deleted? && !r.reply.WriteFailed?
    ensures !r.reply.Written? ==> r.reminders == reminders
    ensures OthersUntouched(reminders, r.reminders, caller)
  {
    if !ValidObjectId(id) then Step(reminders, WriteRejected)
    else match OwnedTarget(reminders, caller, id)
      case None => Step(reminders, WriteNotFound)
      case Some(k) =>
        if !PatchCasts(patch, parseDate) then Step(reminders, WriteRejected)
        else
          var rem := ApplyPatch(reminders[k], patch, parseDate);
          if ValidReminder(rem) then Step(reminders[k := rem], Written(rem)) else Step(reminders, WriteRejected)
  }

  /**
   An update may hand a reminder to another account: the body's `user_id` is
   copied like any other field, after which the caller can no longer find it.
   */
  lemma UpdateCanReassignOwner(reminders: seq<Reminder>, caller: Id, id: string, newOwner: string,
                               parseDate: string -> Option<int>)
    requires ValidObjectId(id) && ValidObjectId(newOwner) && CastId(newOwner) != caller
    requires OwnedTarget(reminders, caller, id) == Some(0)
    requires ValidReminder(reminders[0])
    ensures var patch := ReminderPatch(Given(newOwner), Absent, Absent, Absent, Absent, Absent, Absent, Absent, Absent, Absent);
            var r := UpdateReminder(reminders, caller, id, patch, parseDate);
            && r.reply.Written? && r.reminders[0].userId == CastId(newOwner) && r.reminders[0].id == CastId(id)
            && ReminderById(r.reminders, caller, id) != Found(r.reminders[0])
  {
  }

  /** Deletion of the caller's reminder with this id; an id that is not an ObjectId is a 500. */
  function DeleteReminder(reminders: seq<Reminder>, caller: Id, id: string): (r: Step<WriteReply>)
    ensures r.reply.WriteFailed? <==> !ValidObjectId(id)
    ensures r.reply.WriteNotFound? <==> ValidObjectId(id) && OwnedTarget(reminders, caller, id).None?
    ensures r.reply.Deleted? ==>
      && ValidObjectId(id) && OwnedTarget(reminders, caller, id).Some?
      && r.reminders == RemoveAt(reminders, OwnedTarget(reminders, caller, id).value)
    ensures !r.reply.Written? && !r.reply.WriteRejected?
    ensures !r.reply.Deleted? ==> r.reminders == reminders
    ensures forall x :: x in reminders && x.userId != caller ==> x in r.reminders
  {
    if !ValidObjectId(id) then Step(reminders, WriteFailed)
    else match OwnedTarget(reminders, caller, id)
      case None => Step(reminders, WriteNotFound)
      case Some(k) =>
        var r' := RemoveAt(reminders, k);
        assert forall j :: 0 <= j < |reminders| && j != k ==> reminders[j] in r' by {
          forall j | 0 <= j < |reminders| && j != k ensures reminders[j] in r' {
            if j < k { assert r'[j] == reminders[j]; } else { assert r'[j - 1] == reminders[j]; }
          }
        }
        Step(r', Deleted)
  }

  /**
   Marks the caller's reminder completed; nothing else about it changes. The
   save re-validates the whole document, so a stored reminder the validators
   now refuse cannot be completed.
   */
  function CompleteReminder(reminders: seq<Reminder>, caller: Id, id: string): (r: Step<WriteReply>)
    ensures r.reply.WriteNotFound? <==> ValidObjectId(id) && OwnedTarget(reminders, caller, id).None?
    ensures r.reply.WriteFailed? <==>
      || !ValidObjectId(id)
      || (OwnedTarget(reminders, caller, id).Some? && !ValidReminder(reminders[OwnedTarget(reminders, caller, id).value]))
    ensures r.reply.Written? ==>
      && ValidObjectId(id) && OwnedTarget(reminders, caller, id).Some?
      && var k := OwnedTarget(reminders, caller, id).value;
      && r.reply.reminder.(isCompleted := reminders[k].isCompleted) == reminders[k]
      && r.reply.reminder.isCompleted == Some(true)
      && r.reminders == reminders[k := r.reply.reminder]
    ensures !r.reply.Deleted? && !r.reply.WriteRejected?
    ensures !r.reply.Written? ==> r.reminders == reminders
    ensures OthersUntouched(reminders, r.reminders, caller)
  {
    if !ValidObjectId(id) then Step(reminders, WriteFailed)
    else match OwnedTarget(reminders, caller, id)
      case None => Step(reminders, WriteNotFound)
      case Some(k) =>
        var rem := reminders[k].(isCompleted := Some(true));
        if ValidReminder(rem) then Step(reminders[k := rem], Written(rem)) else Step(reminders, WriteFailed)
  }

  /** Completing a reminder a second time leaves the collection as the first call left it. */
  lemma CompleteIsIdempotent(reminders: seq<Reminder>, caller: Id, id: string)
    ensures var once := CompleteReminder(reminders, caller, id).reminders;
            CompleteReminder(once, caller, id).reminders == once
  {
    if ValidObjectId(id) && OwnedTarget(reminders, caller, id).Some? {
      var k := OwnedTarget(reminders, caller, id).value;
      FirstIndexUpdate(reminders, k, reminders[k].(isCompleted := Some(true)), OwnedReminder(CastId(id), caller));
    }
  }
}
