/**
 The reminder document (`ReminderSchema`): the type and repeat enums, the
 `custom_type` validator, defaults and required paths. Also the two fields of
 a child record that the ownership checks read.
 */
module ReminderModel {
  import opened Common
  import opened Text

  datatype ReminderType = Eat | Sleep | Bathe | Vaccine | Other

  function TypeName(t: ReminderType): string {
    match t
    case Eat => "eat"
    case Sleep => "sleep"
    case Bathe => "bathe"
    case Vaccine => "vaccine"
    case Other => "other"
  }

  /** The type enum: a string is accepted exactly when it names a type. */
  function ParseType(s: string): (r: Option<ReminderType>)
    ensures forall x: ReminderType :: r == Some(x) <==> TypeName(x) == s
  {
    if s == "eat" then Some(Eat)
    else if s == "sleep" then Some(Sleep)
    else if s == "bathe" then Some(Bathe)
    else if s == "vaccine" then Some(Vaccine)
    else if s == "other" then Some(Other)
    else None
  }

  datatype RepeatType = NoRepeat | Daily | Weekly | Monthly

  function RepeatName(t: RepeatType): string {
    match t
    case NoRepeat => "none"
    case Daily => "daily"
    case Weekly => "weekly"
    case Monthly => "monthly"
  }

  /** The repeat_type enum: a string is accepted exactly when it names a repeat kind. */
  function ParseRepeat(s: string): (r: Option<RepeatType>)
    ensures forall x: RepeatType :: r == Some(x) <==> RepeatName(x) == s
  {
    if s == "none" then Some(NoRepeat)
    else if s == "daily" then Some(Daily)
    else if s == "weekly" then Some(Weekly)
    else if s == "monthly" then Some(Monthly)
    else None
  }

  /**
   `reminder_date` is kept as the instant a Date cast produced. The two flags
   have defaults but no validator, so a `null` written to them is stored
   (`None`).
   */
  datatype Reminder = Reminder(
    id: Id,
    userId: Id,
    childId: Id,
    reminderType: ReminderType,
    customType: Option<string>,
    note: Option<string>,
    reminderDate: int,
    reminderTime: string,
    repeat: Option<bool>,
    repeatType: RepeatType,
    isCompleted: Option<bool>)

  /** The `custom_type` validator: an "other" reminder needs a custom type that is not blank after trimming. */
  predicate CustomTypeValid(t: ReminderType, custom: Option<string>) {
    t == Other ==> custom.Some? && Trim(custom.value) != ""
  }

  /** The validators a save runs: the custom type rule and a non-empty reminder_time. */
  predicate ValidReminder(r: Reminder) {
    CustomTypeValid(r.reminderType, r.customType) && r.reminderTime != ""
  }

  /** The validator fails exactly for an "other" reminder whose custom type is missing or whitespace only. */
  lemma CustomTypeValidIff(t: ReminderType, custom: Option<string>)
    ensures !CustomTypeValid(t, custom) <==> t == Other && (custom.None? || IsBlank(custom.value))
  {
    if custom.Some? {
      TrimEmptyIffBlank(custom.value);
    }
  }

  /** The paths of a child document that reminder ownership checks read. */
  datatype Child = Child(id: Id, userId: Id)

  /** `{ _id: childId, user_id: caller }` */
  function ChildOwnedBy(childId: Id, caller: Id): Child -> bool {
    (c: Child) => c.id == childId && c.userId == caller
  }

  /** `{ user_id: caller }` */
  function ReminderOwnedBy(caller: Id): Reminder -> bool {
    (r: Reminder) => r.userId == caller
  }

  /** `{ _id: id, user_id: caller }` */
  function OwnedReminder(id: Id, caller: Id): Reminder -> bool {
    (r: Reminder) => r.id == id && r.userId == caller
  }

  /** `{ child_id: childId, user_id: caller }` */
  function ChildReminderOwnedBy(childId: Id, caller: Id): Reminder -> bool {
    (r: Reminder) => r.childId == childId && r.userId == caller
  }
}
