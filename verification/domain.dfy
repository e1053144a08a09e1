/** The reminder bot's value types: conversation ids, reminders, parsed
    commands and parser errors. Instants are milliseconds since the epoch. */
module Domain {

  import opened Base

  /** A conversation or user id: an id qualified by its domain (host),
      compared by full equality. */
  datatype QualifiedId = QualifiedId(id: string, domain: string)

  type Instant = int

  /** A one-shot reminder fires once at `scheduledAt`; a recurring one
      follows the cron expression `scheduledCron`. */
  datatype Reminder =
    | SingleReminder(createdAt: Instant, conversationId: QualifiedId, taskId: string,
                     task: string, scheduledAt: Instant)
    | RecurringReminder(createdAt: Instant, taskId: string, conversationId: QualifiedId,
                        task: string, scheduledCron: string)

  /** A parsed user intent. A delete carries the message id and sender of the
      clicked button when it comes from a button. */
  datatype Command =
    | LegacyHelp(conversationId: QualifiedId)
    | Help(conversationId: QualifiedId)
    | NewReminder(conversationId: QualifiedId, reminder: Reminder)
    | ListReminders(conversationId: QualifiedId)
    | DeleteReminder(conversationId: QualifiedId, reminderId: string,
                     referencedMessageId: Option<string>, senderId: Option<QualifiedId>)

  datatype ErrorType =
    | ParseError
    | InvalidReminderUsage
    | EmptyReminderTask
    | InvalidReminderId

  /** Why an event produced no command: ignorable, malformed input, or an
      unknown sub-command answered with a usage hint. */
  datatype BotError =
    | Skip
    | ReminderError(conversationId: QualifiedId, errorType: ErrorType)
    | Unknown(conversationId: QualifiedId, reason: string)
}
