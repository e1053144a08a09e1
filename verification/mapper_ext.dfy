/** Conversion between the domain `Reminder` and its persisted row
    `ReminderEntity` (`toEntity` / `toDomain`), and of a text into an
    outgoing message (`toOutgoingMessage`). The `isEternal` flag tells the
    two reminder variants apart; each row fills only its variant's field. */
module MapperExt {

  import opened Base
  import opened Domain

  datatype ReminderEntity = ReminderEntity(
    conversationId: QualifiedId,
    taskId: string,
    task: string,
    createdAt: Instant,
    scheduledAt: Option<Instant>,
    scheduledCron: Option<string>,
    isEternal: bool)

  /** The `IllegalStateException`s `toDomain` raises on a row missing its
      variant's field. */
  datatype EntityError = MissingCron | MissingScheduledAt

  /** Fields every reminder shares with its row. */
  predicate SameCommon(r: Reminder, e: ReminderEntity)
  {
    && r.conversationId == e.conversationId
    && r.taskId == e.taskId
    && r.task == e.task
    && r.createdAt == e.createdAt
  }

  /** `Reminder.toEntity()`: the field of the other variant stays null. */
  function ToEntity(r: Reminder): (e: ReminderEntity)
    ensures SameCommon(r, e)
    ensures e.isEternal <==> r.RecurringReminder?
    ensures r.RecurringReminder? ==> e.scheduledCron == Some(r.scheduledCron) && e.scheduledAt.None?
    ensures r.SingleReminder? ==> e.scheduledAt == Some(r.scheduledAt) && e.scheduledCron.None?
    ensures ToDomain(e) == Right(r)
  {
    match r
    case RecurringReminder(createdAt, taskId, conv, task, cron) =>
      ReminderEntity(conv, taskId, task, createdAt, None, Some(cron), true)
    case SingleReminder(createdAt, conv, taskId, task, at) =>
      ReminderEntity(conv, taskId, task, createdAt, Some(at), None, false)
  }

  /** `ReminderEntity.toDomain()`: fails exactly when the row's variant
      field is null; otherwise the reminder keeps the row's fields and
      ignores the other variant's field. */
  function ToDomain(e: ReminderEntity): (r: Either<EntityError, Reminder>)
    ensures r == Left(MissingCron) <==> e.isEternal && e.scheduledCron.None?
    ensures r == Left(MissingScheduledAt) <==> !e.isEternal && e.scheduledAt.None?
    ensures r.Right? ==> SameCommon(r.right, e)
    ensures r.Right? ==> (r.right.RecurringReminder? <==> e.isEternal)
    ensures r.Right? && e.isEternal ==> Some(r.right.scheduledCron) == e.scheduledCron
    ensures r.Right? && !e.isEternal ==> Some(r.right.scheduledAt) == e.scheduledAt
  {
    if e.isEternal then
      match e.scheduledCron
      case None => Left(MissingCron)
      case Some(cron) => Right(RecurringReminder(e.createdAt, e.taskId, e.conversationId, e.task, cron))
    else
      match e.scheduledAt
      case None => Left(MissingScheduledAt)
      case Some(at) => Right(SingleReminder(e.createdAt, e.conversationId, e.taskId, e.task, at))
  }

  /** A row as `toEntity` would write it: the other variant's field cleared.
      Loading a loadable row then storing it again gives back this row, so
      the round trip loses only the field `toDomain` never reads. */
  function Normalized(e: ReminderEntity): (n: ReminderEntity)
    ensures ToDomain(e).Right? ==> ToEntity(ToDomain(e).right) == n
    ensures ToDomain(n) == ToDomain(e)
  {
    if e.isEternal then e.(scheduledAt := None) else e.(scheduledCron := None)
  }

  /** Only the text kind of outgoing message is used here. */
  datatype OutgoingMessageType = Text

  datatype MessagePayload = TextPayload(text: string)

  datatype OutgoingMessage = OutgoingMessage(messageType: OutgoingMessageType, payload: MessagePayload)

  /** `String.toOutgoingMessage()`: a text-typed message carrying the string
      unchanged. */
  function ToOutgoingMessage(s: string): (m: OutgoingMessage)
    ensures m.messageType == Text && m.payload.text == s
  {
    OutgoingMessage(Text, TextPayload(s))
  }
}
