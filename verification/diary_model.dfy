/**
 The diary entry document (`DiaryEntrySchema`, collection `diary_entries`):
 required paths, the trimming setters, the `isFromReminder` default and the
 sparse unique index on `originalReminderId`.
 */
module DiaryModel {
  import opened Common
  import opened Text

  /** `local_time` is the Vietnam-time string the default produced; `created_at` the save instant. */
  datatype DiaryEntry = DiaryEntry(
    id: Id,
    childId: Id,
    userId: Id,
    entryType: string,
    activity: string,
    isFromReminder: bool,
    originalReminderId: Option<Id>,
    localTime: string,
    createdAt: int)

  /** Both text paths are required, and the required check sees the trimmed value. */
  predicate ValidEntry(e: DiaryEntry) {
    e.entryType != "" && e.activity != ""
  }

  /**
   A text path as the `trim: true` setter stores it: `None` when the value is
   absent or blank, which the required validator then refuses.
   */
  function TrimmedRequired(v: Option<string>): (r: Option<string>)
    ensures r.None? <==> v.None? || IsBlank(v.value)
    ensures r.Some? ==> r.value == Trim(v.value) && r.value != ""
  {
    if v.None? then None
    else
      TrimEmptyIffBlank(v.value);
      var t := Trim(v.value);
      if t == "" then None else Some(t)
  }

  /**
   The sparse unique index: no two entries carry the same
   `originalReminderId`; entries without one are not indexed.
   */
  predicate UniqueReminderLinks(entries: seq<DiaryEntry>) {
    forall i, j :: 0 <= i < j < |entries| && entries[i].originalReminderId.Some? ==>
      entries[i].originalReminderId != entries[j].originalReminderId
  }

  function HasEntryId(id: Id): DiaryEntry -> bool {
    (e: DiaryEntry) => e.id == id
  }
}
