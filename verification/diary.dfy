/**
 The diary entry handlers. Every id is checked with `ObjectId.isValid`
 before any query; entries derived from a reminder (`isFromReminder`) can be
 read but neither updated nor deleted through these handlers.
 */
module Diary {
  import opened Common
  import opened Text
  import opened Coll
  import opened DiaryModel

  datatype Step<R> = Step(entries: seq<DiaryEntry>, reply: R)

  // ---------------------------------------------------------------------------
  // getDiaryEntries
  // ---------------------------------------------------------------------------

  datatype ListReply = ListInvalidChild | ListInvalidUser | Entries(items: seq<DiaryEntry>)
  {
    function Status(): nat {
      match this
      case ListInvalidChild => 400
      case ListInvalidUser => 400
      case Entries(_) => 200
    }
  }

  /**
   The query built from the supplied (truthy) parameters, each cast to the
   ObjectId it names; an absent one does not constrain.
   */
  function EntryMatches(childId: Option<string>, userId: Option<string>): DiaryEntry -> bool {
    (e: DiaryEntry) =>
      && (Truthy(childId) ==> ObjectIdOf(childId.value) == Some(e.childId))
      && (Truthy(userId) ==> ObjectIdOf(userId.value) == Some(e.userId))
  }

  function ByChild(childId: Id): DiaryEntry -> bool {
    (e: DiaryEntry) => e.childId == childId
  }

  function ByUser(userId: Id): DiaryEntry -> bool {
    (e: DiaryEntry) => e.userId == userId
  }

  /** All entries matching the query, in collection order; a supplied id must be an ObjectId. */
  function ListEntries(entries: seq<DiaryEntry>, childId: Option<string>, userId: Option<string>): (r: ListReply)
    ensures r.ListInvalidChild? <==> Truthy(childId) && !ValidObjectId(childId.value)
    ensures r.ListInvalidUser? <==>
      (Truthy(childId) ==> ValidObjectId(childId.value)) && Truthy(userId) && !ValidObjectId(userId.value)
    ensures r.Entries? ==> forall x :: x in r.items <==>
      && x in entries
      && (Truthy(childId) ==> x.childId == CastId(childId.value))
      && (Truthy(userId) ==> x.userId == CastId(userId.value))
  {
    if Truthy(childId) && !ValidObjectId(childId.value) then ListInvalidChild
    else if Truthy(userId) && !ValidObjectId(userId.value) then ListInvalidUser
    else
      var r := Select(entries, EntryMatches(childId, userId));
      assert forall x :: x in entries && EntryMatches(childId, userId)(x) ==> x in r by {
        forall x | x in entries && EntryMatches(childId, userId)(x) ensures x in r {
          var j :| 0 <= j < |entries| && entries[j] == x;
        }
      }
      Entries(r)
  }

  /**
   The two parameters compose: filtering by both is filtering by the child
   and then by the user, and with neither every entry is listed.
   */
  lemma ListFilterIsConjunction(entries: seq<DiaryEntry>, childId: string, userId: string)
    requires ValidObjectId(childId) && ValidObjectId(userId)
    ensures ListEntries(entries, Some(childId), Some(userId))
         == Entries(Select(Select(entries, ByChild(CastId(childId))), ByUser(CastId(userId))))
    ensures ListEntries(entries, None, None) == Entries(entries)
  {
    SelectSelect(entries, ByChild(CastId(childId)), ByUser(CastId(userId)), EntryMatches(Some(childId), Some(userId)));
    SelectAll(entries, EntryMatches(None, None));
  }

  // ---------------------------------------------------------------------------
  // getDiaryEntry
  // ---------------------------------------------------------------------------

  datatype GetReply = GetInvalidId | GetNotFound | GotEntry(entry: DiaryEntry)
  {
    function Status(): nat {
      match this
      case GetInvalidId => 400
      case GetNotFound => 404
      case GotEntry(_) => 200
    }
  }

  /** The position of the entry `findById` finds for this id, if any. */
  function Target(entries: seq<DiaryEntry>, id: string): Option<nat>
    requires ValidObjectId(id)
  {
    FirstIndex(entries, HasEntryId(CastId(id)))
  }

  function GetEntry(entries: seq<DiaryEntry>, id: string): (r: GetReply)
    ensures r.GetInvalidId? <==> !ValidObjectId(id)
    ensures r.GetNotFound? <==> ValidObjectId(id) && forall j :: 0 <= j < |entries| ==> entries[j].id != CastId(id)
    ensures r.GotEntry? ==> r.entry in entries && r.entry.id == CastId(id)
  {
    if !ValidObjectId(id) then GetInvalidId
    else match Target(entries, id)
      case None => GetNotFound
      case Some(k) => GotEntry(entries[k])
  }

  // ---------------------------------------------------------------------------
  // createDiaryEntry
  // ---------------------------------------------------------------------------

  datatype CreateRequest = CreateRequest(
    childId: Option<string>,
    userId: Option<string>,
    entryType: Option<string>,
    activity: Option<string>)

  datatype CreateReply = CreateInvalidChild | CreateInvalidUser | CreateValidationFailed | Created(entry: DiaryEntry)
  {
    function Status(): nat {
      match this
      case CreateInvalidChild => 400
      case CreateInvalidUser => 400
      case CreateValidationFailed => 400
      case Created(_) => 201
    }
  }

  /**
   A manual entry: both ids must be ObjectIds, type and activity are trimmed
   and must stay non-empty. The entry is never marked as derived from a
   reminder and carries no reminder link.
   */
  function CreateEntry(entries: seq<DiaryEntry>, req: CreateRequest, newId: Id, localTime: string, now: int)
    : (r: Step<CreateReply>)
    ensures r.reply.CreateInvalidChild? <==> req.childId.None? || !ValidObjectId(req.childId.value)
    ensures r.reply.CreateInvalidUser? <==>
      req.childId.Some? && ValidObjectId(req.childId.value) && (req.userId.None? || !ValidObjectId(req.userId.value))
    ensures r.reply.CreateValidationFailed? <==>
      && req.childId.Some? && ValidObjectId(req.childId.value) && req.userId.Some? && ValidObjectId(req.userId.value)
      && (req.entryType.None? || IsBlank(req.entryType.value) || req.activity.None? || IsBlank(req.activity.value))
    ensures r.reply.Created? ==>
      && r.entries == entries + [r.reply.entry]
      && ValidEntry(r.reply.entry)
      && r.reply.entry.id == newId
      && r.reply.entry.childId == CastId(req.childId.value) && r.reply.entry.userId == CastId(req.userId.value)
      && r.reply.entry.entryType == Trim(req.entryType.value) && r.reply.entry.activity == Trim(req.activity.value)
      && !r.reply.entry.isFromReminder && r.reply.entry.originalReminderId.None?
    ensures !r.reply.Created? ==> r.entries == entries
  {
    if req.childId.None? || !ValidObjectId(req.childId.value) then Step(entries, CreateInvalidChild)
    else if req.userId.None? || !ValidObjectId(req.userId.value) then Step(entries, CreateInvalidUser)
    else match (TrimmedRequired(req.entryType), TrimmedRequired(req.activity))
      case (Some(t), Some(a)) =>
        var e := DiaryEntry(newId, CastId(req.childId.value), CastId(req.userId.value), t, a, false, None, localTime, now);
        Step(entries + [e], Created(e))
      case _ => Step(entries, CreateValidationFailed)
  }

  /** A created entry is what a later read of its fresh id returns. */
  lemma CreateThenGet(entries: seq<DiaryEntry>, req: CreateRequest, newId: Id, localTime: string, now: int)
    requires IsObjectIdHex(newId)
    requires forall j :: 0 <= j < |entries| ==> entries[j].id != newId
    requires CreateEntry(entries, req, newId, localTime, now).reply.Created?
    ensures var r := CreateEntry(entries, req, newId, localTime, now);
      GetEntry(r.entries, newId) == GotEntry(r.reply.entry)
  {
    var r := CreateEntry(entries, req, newId, localTime, now);
    CanonicalIdCastsToItself(newId);
    FirstIndexAppend(entries, r.reply.entry, HasEntryId(newId));
  }

  // ---------------------------------------------------------------------------
  // updateDiaryEntry, deleteDiaryEntry
  // ---------------------------------------------------------------------------

  datatype WriteReply = WriteInvalidId | WriteNotFound | FromReminder | WriteValidationFailed | Updated(entry: DiaryEntry) | Deleted
  {
    function Status(): nat {
      match this
      case WriteInvalidId => 400
      case WriteNotFound => 404
      case FromReminder => 403
      case WriteValidationFailed => 400
      case Updated(_) => 200
      case Deleted => 200
    }
  }

  /**
   The update document is `{ type, activity }`: both paths are written, so an
   absent value clears its path and the update validator refuses it, as it
   refuses a value that trims to nothing.
   */
  function UpdateEntry(entries: seq<DiaryEntry>, id: string, entryType: Option<string>, activity: Option<string>)
    : (r: Step<WriteReply>)
    ensures r.reply.WriteInvalidId? <==> !ValidObjectId(id)
    ensures r.reply.WriteNotFound? <==> ValidObjectId(id) && Target(entries, id).None?
    ensures r.reply.FromReminder? <==>
      ValidObjectId(id) && Target(entries, id).Some? && entries[Target(entries, id).value].isFromReminder
    ensures r.reply.WriteValidationFailed? <==>
      && ValidObjectId(id) && Target(entries, id).Some? && !entries[Target(entries, id).value].isFromReminder
      && (TrimmedRequired(entryType).None? || TrimmedRequired(activity).None?)
    ensures r.reply.Updated? ==>
      && ValidObjectId(id) && Target(entries, id).Some?
      && entryType.Some? && activity.Some?
      && var k := Target(entries, id).value;
      && !entries[k].isFromReminder
      && r.reply.entry == entries[k].(entryType := Trim(entryType.value), activity := Trim(activity.value))
      && ValidEntry(r.reply.entry)
      && r.entries == entries[k := r.reply.entry]
    ensures !r.reply.Deleted?
    ensures !r.reply.Updated? ==> r.entries == entries
  {
    if !ValidObjectId(id) then Step(entries, WriteInvalidId)
    else match Target(entries, id)
      case None => Step(entries, WriteNotFound)
      case Some(k) =>
        if entries[k].isFromReminder then Step(entries, FromReminder)
        else match (TrimmedRequired(entryType), TrimmedRequired(activity))
          case (Some(t), Some(a)) =>
            var e := entries[k].(entryType := t, activity := a);
            Step(entries[k := e], Updated(e))
          case _ => Step(entries, WriteValidationFailed)
  }

  function DeleteEntry(entries: seq<DiaryEntry>, id: string): (r: Step<WriteReply>)
    ensures r.reply.WriteInvalidId? <==> !ValidObjectId(id)
    ensures r.reply.WriteNotFound? <==> ValidObjectId(id) && Target(entries, id).None?
    ensures r.reply.FromReminder? <==>
      ValidObjectId(id) && Target(entries, id).Some? && entries[Target(entries, id).value].isFromReminder
    ensures r.reply.Deleted? ==>
      && ValidObjectId(id) && Target(entries, id).Some?
      && var k := Target(entries, id).value;
      && !entries[k].isFromReminder
      && r.entries == RemoveAt(entries, k)
    ensures !r.reply.Updated? && !r.reply.WriteValidationFailed?
    ensures !r.reply.Deleted? ==> r.entries == entries
  {
    if !ValidObjectId(id) then Step(entries, WriteInvalidId)
    else match Target(entries, id)
      case None => Step(entries, WriteNotFound)
      case Some(k) =>
        if entries[k].isFromReminder then Step(entries, FromReminder)
        else Step(RemoveAt(entries, k), Deleted)
  }

  // ---------------------------------------------------------------------------
  // Invariants over calls
  // ---------------------------------------------------------------------------

  /** One call of any diary handler that writes. */
  datatype DiaryCall =
    | CallCreate(req: CreateRequest, newId: Id, localTime: string, now: int)
    | CallUpdate(id: string, entryType: Option<string>, activity: Option<string>)
    | CallDelete(id: string)

  function Apply(entries: seq<DiaryEntry>, c: DiaryCall): seq<DiaryEntry> {
    match c
    case CallCreate(req, newId, localTime, now) => CreateEntry(entries, req, newId, localTime, now).entries
    case CallUpdate(id, t, a) => UpdateEntry(entries, id, t, a).entries
    case CallDelete(id) => DeleteEntry(entries, id).entries
  }

  function Run(entries: seq<DiaryEntry>, calls: seq<DiaryCall>): seq<DiaryEntry>
    decreases |calls|
  {
    if calls == [] then entries else Run(Apply(entries, calls[0]), calls[1..])
  }

  /** Appending an entry that is neither derived nor linked keeps every entry and every link unique. */
  lemma AppendKeepsLinks(entries: seq<DiaryEntry>, e: DiaryEntry)
    requires !e.isFromReminder && e.originalReminderId.None?
    ensures var r := entries + [e];
      && (forall x :: x in entries ==> x in r)
      && (forall x :: x in r && x.isFromReminder ==> x in entries)
      && (UniqueReminderLinks(entries) ==> UniqueReminderLinks(r))
  {
    var r := entries + [e];
    assert forall j :: 0 <= j < |entries| ==> r[j] == entries[j];
    forall x | x in r && x.isFromReminder ensures x in entries {
      var j :| 0 <= j < |r| && r[j] == x;
      assert j < |entries|;
    }
    if UniqueReminderLinks(entries) {
      forall i, j | 0 <= i < j < |r| && r[i].originalReminderId.Some?
        ensures r[i].originalReminderId != r[j].originalReminderId
      {
        if j < |entries| {
          assert r[i] == entries[i] && r[j] == entries[j];
        }
      }
    }
  }

  /** A created entry is never derived and never linked, so it cannot collide in the link index. */
  lemma CreateKeepsDerivedEntries(entries: seq<DiaryEntry>, req: CreateRequest, newId: Id, localTime: string, now: int)
    ensures var r := CreateEntry(entries, req, newId, localTime, now).entries;
      && (forall x :: x in entries ==> x in r)
      && (forall x :: x in r && x.isFromReminder ==> x in entries)
      && (UniqueReminderLinks(entries) ==> UniqueReminderLinks(r))
  {
    var s := CreateEntry(entries, req, newId, localTime, now);
    if s.reply.Created? {
      AppendKeepsLinks(entries, s.reply.entry);
    }
  }

  /** Replacing a non-derived entry by one with the same flag and link keeps derived entries and links in place. */
  lemma ReplaceKeepsLinks(entries: seq<DiaryEntry>, k: nat, e: DiaryEntry)
    requires k < |entries| && !entries[k].isFromReminder
    requires e.isFromReminder == entries[k].isFromReminder && e.originalReminderId == entries[k].originalReminderId
    ensures var r := entries[k := e];
      && (forall j :: 0 <= j < |entries| && entries[j].isFromReminder ==> r[j] == entries[j])
      && (forall j :: 0 <= j < |entries| ==> r[j].isFromReminder == entries[j].isFromReminder)
      && (forall j :: 0 <= j < |entries| ==> r[j].originalReminderId == entries[j].originalReminderId)
      && (UniqueReminderLinks(entries) ==> UniqueReminderLinks(r))
  {
    var r := entries[k := e];
    assert forall j :: 0 <= j < |entries| ==> r[j].originalReminderId == entries[j].originalReminderId;
    if UniqueReminderLinks(entries) {
      forall i, j | 0 <= i < j < |r| && r[i].originalReminderId.Some?
        ensures r[i].originalReminderId != r[j].originalReminderId
      {
        assert r[i].originalReminderId == entries[i].originalReminderId;
        assert r[j].originalReminderId == entries[j].originalReminderId;
      }
    }
  }

  /** An update rewrites only type and activity of a non-derived entry, position by position. */
  lemma UpdateKeepsDerivedEntries(entries: seq<DiaryEntry>, id: string, t: Option<string>, a: Option<string>)
    ensures var r := UpdateEntry(entries, id, t, a).entries;
      && |r| == |entries|
      && (forall j :: 0 <= j < |entries| && entries[j].isFromReminder ==> r[j] == entries[j])
      && (forall j :: 0 <= j < |entries| ==> r[j].isFromReminder == entries[j].isFromReminder)
      && (forall j :: 0 <= j < |entries| ==> r[j].originalReminderId == entries[j].originalReminderId)
      && (UniqueReminderLinks(entries) ==> UniqueReminderLinks(r))
  {
    var s := UpdateEntry(entries, id, t, a);
    if s.reply.Updated? {
      var k := Target(entries, id).value;
      ReplaceKeepsLinks(entries, k, s.reply.entry);
    }
  }

  /** A delete removes one non-derived entry; what remains keeps its links. */
  lemma DeleteKeepsDerivedEntries(entries: seq<DiaryEntry>, id: string)
    ensures var r := DeleteEntry(entries, id).entries;
      && (forall x :: x in entries && x.isFromReminder ==> x in r)
      && (forall x :: x in r ==> x in entries)
      && (UniqueReminderLinks(entries) ==> UniqueReminderLinks(r))
  {
    var s := DeleteEntry(entries, id);
    if s.reply.Deleted? {
      var k := Target(entries, id).value;
      var r := RemoveAt(entries, k);
      assert s.entries == r;
      forall x | x in entries && x.isFromReminder ensures x in r {
        RemoveAtMembers(entries, k, x);
      }
      forall x | x in r ensures x in entries {
        RemoveAtMembers(entries, k, x);
      }
      if UniqueReminderLinks(entries) {
        forall i, j | 0 <= i < j < |r| && r[i].originalReminderId.Some?
          ensures r[i].originalReminderId != r[j].originalReminderId
        {
          var i' := if i < k then i else i + 1;
          var j' := if j < k then j else j + 1;
          assert r[i] == entries[i'] && r[j] == entries[j'];
        }
      }
    }
  }

  /**
   No handler call changes or removes an entry derived from a reminder, and
   none disturbs the link index.
   */
  lemma ApplyKeepsDerivedEntries(entries: seq<DiaryEntry>, c: DiaryCall)
    ensures forall x :: x in entries && x.isFromReminder ==> x in Apply(entries, c)
    ensures UniqueReminderLinks(entries) ==> UniqueReminderLinks(Apply(entries, c))
  {
    match c
    case CallCreate(req, newId, localTime, now) => CreateKeepsDerivedEntries(entries, req, newId, localTime, now);
    case CallUpdate(id, t, a) =>
      UpdateKeepsDerivedEntries(entries, id, t, a);
      var r := Apply(entries, c);
      forall x | x in entries && x.isFromReminder ensures x in r {
        var j :| 0 <= j < |entries| && entries[j] == x;
        assert r[j] == x;
      }
    case CallDelete(id) => DeleteKeepsDerivedEntries(entries, id);
  }

  /** Over any sequence of calls, derived entries persist and the link index stays unique. */
  lemma {:induction false} RunKeepsDerivedEntries(entries: seq<DiaryEntry>, calls: seq<DiaryCall>)
    ensures forall x :: x in entries && x.isFromReminder ==> x in Run(entries, calls)
    ensures UniqueReminderLinks(entries) ==> UniqueReminderLinks(Run(entries, calls))
    decreases |calls|
  {
    if calls != [] {
      ApplyKeepsDerivedEntries(entries, calls[0]);
      RunKeepsDerivedEntries(Apply(entries, calls[0]), calls[1..]);
    }
  }
}
