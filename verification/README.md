# Remind App core in Dafny

This project models the core of the Wire "Remind App" chat bot. It covers:

- how an incoming chat event becomes a command (`EventMapper.fromEvent` and the `/remind` grammar);
- how the upcoming fire times of a reminder are computed (`Reminder.getNextSchedules`);
- how a command is carried out (`CommandHandler.onEvent`: help, creation, listing and deletion);
- how a reminder is stored and loaded (`toEntity` / `toDomain`).

Modules:

| module | file | models |
|---|---|---|
| `Base` | base.dfy | `Option` and `Either` |
| `Text` | text.dfy | the Kotlin string operations the parser relies on: the `\s+` split, `trim`, `trimStart`, `isBlank`, `startsWith`, `substringAfter`, `contains` |
| `Domain` | domain.dfy | `Reminder`, `Command`, `BotError`, `QualifiedId` |
| `Quotes` | quotes.dfy | `findAll` of the quoted-group regular expression `["“”]([^"“”]*)["“”]` |
| `EventMapper` | event_mapper.dfy | `EventMapper.kt` |
| `Schedule` | schedule.dfy | `Reminder.kt` |
| `MapperExt` | mapper_ext.dfy | `MapperExt.kt` |
| `CommandHandler` | command_handler.dfy | `CommandHandler.kt` |

Collaborators that the core calls but does not define become parameters:

- **`EventMapper.Parsers`:**
  - `UUID.fromString`, a partial function to the canonical text;
  - the natural-language schedule resolver `ReminderMapper.parseReminder`, modelled as yielding a reminder, returning an error, or throwing (see `EventMapper.ParseTo` under "## Left out").
- **`CommandHandler.Env`:**
  - the clock reading taken inside `getNextSchedules`;
  - `MAX_REMINDER_JOBS`;
  - the Quartz cron parser, modelled as a `CronRule` whose `nextAfter` is `getNextValidTimeAfter`;
  - `UUID.fromString`;
  - `Date.toString`, `Instant.toString` and `CronInterpreter.cronToText`.
- **`CommandHandler.Oracle`:**
  - says whether the call made at position `i` of the trace succeeds;
  - says which reminders the listing use case returns.

The handler is a pure function from a command to a `Run`. A `Run` is the ordered trace of calls to the outgoing-message repository and the use cases, plus an outcome:

- `Done`: `Right(Unit)`;
- `CallFailed(call)`: the `Left` of a failed call;
- `Caught(fault)`: an exception turned into a `Left` by `Either.catch`;
- `Escaped(fault)`: an exception thrown out of `onEvent`.

Inside `fromEvent`, an exception is `Mapping.Thrown`. The surrounding `runCatching … getOrElse` turns it into a `PARSE_ERROR`.

Two whitespace classes are distinguished:

- `Text.IsRegexSpace` is the `\s` of `java.util.regex`, which the `\s+` split uses.
- `Text.IsSpace` is Kotlin's `Char.isWhitespace` on the JVM, which `trim`, `trimStart` and `isBlank` use. It is wider.

This matters for `/remind` followed by a no-break space (U+00A0) and `list`. That character is not `\s`, so the first word is the whole text and the event is skipped.

A malformed cron expression makes reminder creation throw. The code comments that creating the confirmation "can fail if the cron is invalid" (CommandHandler.kt:82). But `getNextSchedules` is evaluated as the argument of `getCreatedMessage`, which is outside that function's `Either.catch` (CommandHandler.kt:83-87). The Quartz parse exception therefore escapes `onEvent` instead of being returned as a `Left`. `HandleNewReminder` models this as `Escaped(InvalidCron(..))` with no call made, so nothing is saved.

A similar escape exists in the deletion flow. `UUID.fromString(referencedMessageId)` runs only after the reminder was deleted (CommandHandler.kt:123). A non-UUID referenced message id therefore throws out of `onEvent` after the deletion has taken place. `ConfirmDeletion` and `DeleteListed` state this.

## Model

| member | source | states |
|---|---|---|
| Text.FirstWord | src/main/kotlin/com/wire/bots/application/EventMapper.kt:73-74 | `split("\\s+")[0]` is a prefix of the text, contains no `\s` character, and is followed by one unless it is the whole text |
| Text.TrimStart | src/main/kotlin/com/wire/bots/application/EventMapper.kt:79 | `trimStart` drops exactly the leading whitespace: the result is a suffix, everything dropped is whitespace, and the result does not start with whitespace |
| Text.Trim | src/main/kotlin/com/wire/bots/application/EventMapper.kt:157 | `trim` leaves a substring found right after the leading whitespace, with only whitespace after it and no whitespace at either end; the result is empty exactly when the text is blank |
| Text.TrimOfTrimmed | src/main/kotlin/com/wire/bots/application/EventMapper.kt:157 | a non-empty text with no whitespace at either end is its own trim |
| Text.TrimIdempotent | src/main/kotlin/com/wire/bots/application/EventMapper.kt:157 | trimming twice is the same as trimming once |
| Text.IndexOf | src/main/kotlin/com/wire/bots/application/EventMapper.kt:114 | finds the first occurrence of the delimiter: it occurs there, at no earlier position, and the result is `None` only when it occurs nowhere |
| Text.SubstringAfter | src/main/kotlin/com/wire/bots/application/EventMapper.kt:114 | after a leading delimiter, `substringAfter` is the rest of the text; when the delimiter is absent, it is the whole text |
| Text.TrimSuffix | src/main/kotlin/com/wire/bots/application/EventMapper.kt:157-158 | the trim of a suffix is blank exactly when the suffix is, and it occurs in the text right after the suffix's leading whitespace |
| Text.JoinContainsPart | src/main/kotlin/com/wire/bots/domain/event/handlers/CommandHandler.kt:161-163 | every element appears in its `joinToString` |
| Quotes.Groups | src/main/kotlin/com/wire/bots/application/EventMapper.kt:112-116 | the regular-expression groups never contain a quote character |
| Quotes.Decompose | src/main/kotlin/com/wire/bots/application/EventMapper.kt:112-116 | every text is spelled by well-formed matches and a leftover with at most one quote, and the extracted groups are exactly the groups of those matches |
| Quotes.GroupsOfMatch | src/main/kotlin/com/wire/bots/application/EventMapper.kt:112-116 | a match is the first group found, and scanning resumes right after its closing quote |
| Quotes.GroupsAfterFree | src/main/kotlin/com/wire/bots/application/EventMapper.kt:112-116 | unmatched text without quotes in front of a quote changes none of the extracted groups |
| Quotes.GroupsOfQuoted | src/main/kotlin/com/wire/bots/application/EventMapper.kt:112-116 | a text opening with a quoted group yields that group first, and the scan resumes after its closing quote |
| Quotes.GroupsOfSpelling | src/main/kotlin/com/wire/bots/application/EventMapper.kt:112-116 | the converse of `Decompose`: whatever matches and leftover spell a text, the extracted groups are theirs, so the scan is unique |
| EventMapper.ParseDelete | src/main/kotlin/com/wire/bots/application/EventMapper.kt:151-173 | after `delete`, a blank rest is `INVALID_REMINDER_ID`, and otherwise the command deletes exactly the trimmed rest; the id is non-empty with no whitespace at either end, and both refs pass through |
| EventMapper.DeleteOfKeyword | src/main/kotlin/com/wire/bots/application/EventMapper.kt:157-172 | for every text after `delete`: blank gives `INVALID_REMINDER_ID`, and otherwise the delete command carries that text trimmed |
| EventMapper.DeleteIdInText | src/main/kotlin/com/wire/bots/application/EventMapper.kt:157 | the trimmed rest after `delete`, which is the id `ParseDelete` keeps, occurs in the arguments right after `delete` and the whitespace following it, and is non-empty exactly when the rest is not blank |
| EventMapper.ParseTo | src/main/kotlin/com/wire/bots/application/EventMapper.kt:108-149 | the errors in source order: fewer than two groups, a blank task, a blank phrase; a success is a `NewReminder` that the resolver produced from the first two groups; an exception comes only from the resolver, either a crash or a non-`ReminderError` rejection; conversely, with two non-blank groups, the resolver's decision on the first two alone fixes the result: its reminder, its `ReminderError`, or an exception |
| EventMapper.ParseArgs | src/main/kotlin/com/wire/bots/application/EventMapper.kt:87-106 | trimmed `help` and `list` take priority over the `to` and `delete` prefixes; anything else gets the usage hint; the command keeps the conversation |
| EventMapper.PrefixesExclusive | src/main/kotlin/com/wire/bots/application/EventMapper.kt:96-99 | no argument text starts with both `to` and `delete`, so the order of those two tests does not matter |
| EventMapper.ParseCommand | src/main/kotlin/com/wire/bots/application/EventMapper.kt:66-85 | only the first word chooses: `/help` gives legacy help, `/remind` parses the trimmed rest, and anything else, including text starting with `\s`, is skipped |
| EventMapper.MapEvent | src/main/kotlin/com/wire/bots/application/EventMapper.kt:17-54 | every command produced belongs to the event's conversation |
| EventMapper.FromEvent | src/main/kotlin/com/wire/bots/application/EventMapper.kt:16-61 | a wrong payload class or a non-UUID user id gives `PARSE_ERROR`; a UUID button id deletes that id with both refs; any other button id is parsed as a command; text is parsed without refs; other event types are skipped; a command keeps the conversation |
| EventMapper.Finish | src/main/kotlin/com/wire/bots/application/EventMapper.kt:55-61 | a thrown exception becomes `PARSE_ERROR` for the event's conversation, and a returned value is kept |
| EventMapper.TwoQuotedGroups | src/main/kotlin/com/wire/bots/application/EventMapper.kt:112-116 | ` "task" "when"` yields exactly the groups task and when |
| EventMapper.RemindBranch | src/main/kotlin/com/wire/bots/application/EventMapper.kt:73-82 | `/remind` followed by one space and then a non-whitespace character parses the text after the space |
| EventMapper.ToBranch | src/main/kotlin/com/wire/bots/application/EventMapper.kt:96 | arguments `to …` go to `parseToCommand`, which scans the text after `to` |
| EventMapper.DeleteBranch | src/main/kotlin/com/wire/bots/application/EventMapper.kt:97-99 | arguments `delete …` go to `parseDeleteCommand` |
| EventMapper.QuotedCommandResolves | src/main/kotlin/com/wire/bots/application/EventMapper.kt:136-147 | for `/remind to "task" "when"` with a non-blank task and phrase, the resolver gets both texts verbatim and decides the outcome: a reminder, its `ReminderError`, or an exception |
| EventMapper.BlankTaskRefused | src/main/kotlin/com/wire/bots/application/EventMapper.kt:124-129 | a blank quoted task gives `EMPTY_REMINDER_TASK`, whatever the phrase is |
| EventMapper.DeleteCommandKeepsId | src/main/kotlin/com/wire/bots/application/EventMapper.kt:151-173 | `/remind delete <id>` deletes exactly `<id>` when the id has no whitespace at either end |
| Schedule.Iterate | src/main/kotlin/com/wire/bots/domain/reminder/Reminder.kt:39-45 | the `repeat(count)` loop yields `count` elements (none for a negative count), each the next valid time after the one before it |
| Schedule.NextSchedules | src/main/kotlin/com/wire/bots/domain/reminder/Reminder.kt:34-47 | a one-shot reminder yields exactly its instant, whatever the count; a recurring one fails exactly when the cron expression does not parse, and otherwise yields the chain from now |
| Schedule.ChainIncreasing | src/main/kotlin/com/wire/bots/domain/reminder/Reminder.kt:40-44 | when every next time is later than its argument, the schedules are strictly increasing, later than now, and distinct |
| Schedule.RecurringSchedulesIncrease | src/main/kotlin/com/wire/bots/domain/reminder/Reminder.kt:37-46 | the recurring schedules are strictly increasing, later than now, and duplicate-free |
| Schedule.ChainUnique | src/main/kotlin/com/wire/bots/domain/reminder/Reminder.kt:39-45 | any list in which each element is the successor of the one before it is the one the loop computes |
| MapperExt.ToEntity | src/main/kotlin/com/wire/bots/infrastructure/MapperExt.kt:9-30 | the row keeps the common fields, `isEternal` marks the recurring variant, only that variant's field is set, and loading the row gives back the reminder |
| MapperExt.ToDomain | src/main/kotlin/com/wire/bots/infrastructure/MapperExt.kt:32-53 | loading fails exactly when the row misses its variant's field; otherwise the reminder is of the variant `isEternal` names and keeps the row's fields |
| MapperExt.Normalized | src/main/kotlin/com/wire/bots/infrastructure/MapperExt.kt:9-53 | loading then storing a loadable row gives back the row with the unread field cleared, and clearing that field does not change what loads |
| MapperExt.ToOutgoingMessage | src/main/kotlin/com/wire/bots/infrastructure/MapperExt.kt:55-59 | a text-typed message that carries the string unchanged |
| CommandHandler.CreateButton | src/main/kotlin/com/wire/bots/domain/event/handlers/CommandHandler.kt:204-213 | a single button with the given text and id |
| CommandHandler.DeletedText | src/main/kotlin/com/wire/bots/domain/event/handlers/CommandHandler.kt:119 | the deletion confirmation names the task |
| CommandHandler.NotFoundText | src/main/kotlin/com/wire/bots/domain/event/handlers/CommandHandler.kt:136-137 | the not-found answer opens with the error mark ❌ and names the requested id |
| CommandHandler.ListLine | src/main/kotlin/com/wire/bots/domain/event/handlers/CommandHandler.kt:62-69 | a listing line names the task and, for a one-shot reminder, its instant or, for a recurring one, its cron text |
| CommandHandler.Cards | src/main/kotlin/com/wire/bots/domain/event/handlers/CommandHandler.kt:58-76 | one composite message per reminder, in order, in the conversation, carrying that reminder's line and a single `Delete` button keyed by its task id |
| CommandHandler.CreatedMessage | src/main/kotlin/com/wire/bots/domain/event/handlers/CommandHandler.kt:147-166 | the confirmation fails only for a one-shot reminder without schedules (`first()`); it names the task, the date of a one-shot reminder, and the count and every date of a recurring one |
| CommandHandler.HelpMentionsCommands | src/main/kotlin/com/wire/bots/domain/event/handlers/CommandHandler.kt:173-200 | the help text shows a creation, the listing and the deletion command |
| CommandHandler.Invoke | src/main/kotlin/com/wire/bots/domain/event/handlers/CommandHandler.kt:29-32 | a call succeeds exactly when the collaborator accepts it, and otherwise fails with itself |
| CommandHandler.Then | src/main/kotlin/com/wire/bots/domain/event/handlers/CommandHandler.kt:57 | `flatMap` after a success appends the second branch's calls and takes its result, keeping fail-fast order |
| CommandHandler.SendAll | src/main/kotlin/com/wire/bots/domain/event/handlers/CommandHandler.kt:58-76 | the `flatMap` fold sends a prefix of the messages, stops at the first failure, and sends all of them when every send succeeds |
| CommandHandler.ListNonEmpty | src/main/kotlin/com/wire/bots/domain/event/handlers/CommandHandler.kt:52-77 | the header comes first, then a prefix of the cards, which is all of them on success |
| CommandHandler.ListMessages | src/main/kotlin/com/wire/bots/domain/event/handlers/CommandHandler.kt:45-79 | the listing comes first; a failed listing stops everything; an empty conversation gets only the no-reminders message; otherwise the header and then the cards follow, in order |
| CommandHandler.HandleNewReminder | src/main/kotlin/com/wire/bots/domain/event/handlers/CommandHandler.kt:81-97 | a reminder is saved only when its schedules were computed; a malformed cron throws before any call, and nothing else throws; only after a successful save is the confirmation sent, in the command's conversation with the `Delete` button for the task, and its text is exactly the `getCreatedMessage` text for the computed schedules; the result is `Right(Unit)` exactly when the save and the send both succeed |
| CommandHandler.FindTask | src/main/kotlin/com/wire/bots/domain/event/handlers/CommandHandler.kt:116 | `find` returns the first reminder with the id, or none when no reminder has it |
| CommandHandler.ConfirmDeletion | src/main/kotlin/com/wire/bots/domain/event/handlers/CommandHandler.kt:119-133 | a text delete sends a confirmation; a button delete edits the clicked message and removes its buttons; a clicked id that is not a UUID throws with no call made |
| CommandHandler.DeleteListed | src/main/kotlin/com/wire/bots/domain/event/handlers/CommandHandler.kt:115-143 | the listing comes first; an unknown id gets one not-found message; otherwise the first reminder with the id is deleted as the second call and then confirmed, and the confirmation's result, including its escape on a non-UUID clicked message, is the result; no acknowledgement is sent here |
| CommandHandler.DeleteFlow | src/main/kotlin/com/wire/bots/domain/event/handlers/CommandHandler.kt:100-145 | only a button delete, which has both refs, is acknowledged, and only as the first call; a failed acknowledgement stops everything; after it the deletion runs exactly as for a text delete, except for the confirmation |
| CommandHandler.OnEvent | src/main/kotlin/com/wire/bots/domain/event/handlers/CommandHandler.kt:26-43 | each command runs its branch with fail-fast ordering, help texts are a single message, and no exception is ever caught into a `Left` |
| CommandHandler.DeleteTouchesOnlyRequested | src/main/kotlin/com/wire/bots/domain/event/handlers/CommandHandler.kt:114-143 | a delete removes at most one reminder, only one with the requested id, and none when no listed reminder has that id |

## Left out

- Transport and SDK glue (`ReminderEventHandler`, `MlsSdkClient`, the outgoing-message repository implementation), usage metrics, the Quartz job executor and application bootstrap are not part of this model. The handler sees them only as calls in the trace.
- The natural-language schedule resolver (`ReminderMapper.parseReminder`) is not part of this model. It is a parameter that returns a reminder, returns an error, or throws.
- `CronInterpreter.cronToText`, `Date.toString` and `Instant.toString` are opaque text functions. Listing and confirmation contracts state only that their output appears in the message.
- `UUID.fromString` is a partial function to an abstract canonical text. The UUID grammar is not modelled.
- `MAX_REMINDER_JOBS` and the clock are parameters of `Env`. Their values are not fixed here.
- Schedule.NextSchedules: Quartz `getNextValidTimeAfter` returning `null` (no later fire time) is not modelled. The rule is a total function, and the ordering lemmas assume each fire time is later than its argument.
- MapperExt.ToEntity: the `ReminderEntity` class is not part of this model. Its optional field that the constructor call leaves out is assumed to default to `null`.
- The outgoing-message repository interface in this revision does not declare `editCompositeMessage`, which the handler calls, and it types ids differently from the handler's call. The calls are modelled with the arguments the handler passes.
- The handler's test file belongs to another revision of the code, so it is not used as a source of properties.
- EventMapper.ParseDelete: the id is not checked to be a UUID. The code passes any non-blank text, and the model does the same.
- EventMapper.ParseTo: the code returns the resolver's `Either<BotError, Command>` as is (EventMapper.kt:139-146). The resolver is not part of this model, so it is assumed to build a `NewReminder` for the command's conversation. The model's resolver yields the reminder, and `ParseTo` wraps it. "A success is a `NewReminder`" and `MapEvent`'s "every command belongs to the event's conversation" rest on this assumption.
- CommandHandler.ListMessages: `CronInterpreter.cronToText` (CommandHandler.kt:65-67) runs outside any catch and is assumed never to throw. The text functions of `Env` are total, so `Done || CallFailed` does not cover an exception there. `Date.toString` inside `getCreatedMessage` is likewise assumed total.
- Schedule.NextSchedules: an instant is a whole number of milliseconds and is taken to equal `Date.from(scheduledAt)` (Reminder.kt:36). In the code that conversion truncates sub-millisecond precision and throws for instants outside `Date`'s range, and neither is modelled.
- Concurrency, time zones and the text rendering of dates are left out. They do not affect the branches modelled.
