/** The command dispatcher (`CommandHandler.onEvent`), as a pure function
    from a command to the ordered trace of collaborator calls it makes and
    its result.

    Collaborators (outgoing messages, the save, list and delete use cases)
    are not executed: an `Oracle` says whether the call made at a given
    position of the trace succeeds and which reminders the listing returns.
    Every step runs only after the previous one succeeded (Arrow's
    `flatMap`). Clock, cron parsing, UUID parsing and the text rendering of
    dates and cron expressions are passed in `Env`. */
module CommandHandler {

  import opened Base
  import opened Text
  import opened Domain
  import opened Schedule

  datatype Button = Button(text: string, id: string)

  /** One call to a collaborator. */
  datatype Call =
    | SendMessage(conversationId: QualifiedId, content: string)
    | SendComposite(conversationId: QualifiedId, content: string, buttons: seq<Button>)
    | EditComposite(replacingMessageId: string, conversationId: QualifiedId, content: string,
                    buttons: seq<Button>)
    | SendAck(conversationId: QualifiedId, sender: QualifiedId, referencedMessageId: string,
              buttonId: string)
    | ListInConversation(conversationId: QualifiedId)
    | SaveSchedule(reminder: Reminder)
    | DeleteUseCase(taskId: string, conversationId: QualifiedId)

  /** Exceptions raised by the handler itself. */
  datatype Fault = InvalidCron(expression: string) | NoSuchElement | InvalidUuid(text: string)

  /** `Done` and `CallFailed` are `Right(Unit)` and `Left`; a `Caught` fault
      is returned as a `Left` by `Either.catch`; an `Escaped` one is thrown
      out of `onEvent`. */
  datatype Outcome = Done | CallFailed(call: Call) | Caught(fault: Fault) | Escaped(fault: Fault)

  datatype Run = Run(calls: seq<Call>, outcome: Outcome)

  /** `accepts(i, c)`: the `i`-th call of the trace, `c`, succeeds.
      `stored(conv)`: the reminders the listing use case returns. */
  datatype Oracle = Oracle(accepts: (nat, Call) -> bool, stored: QualifiedId -> seq<Reminder>)

  /** `now` is the clock reading taken by `getNextSchedules`; `maxJobs` is
      `MAX_REMINDER_JOBS`; `uuid` is `UUID.fromString`; the three text
      functions are `Date.toString`, `Instant.toString` and
      `CronInterpreter.cronToText`. */
  datatype Env = Env(now: Instant, maxJobs: int, cron: string -> Option<CronRule>,
                     uuid: string -> Option<string>, dateText: Instant -> string,
                     instantText: Instant -> string, cronText: string -> string)

  const LEGACY_HELP: string :=
    "**Hi, I\\'m the Remind App.**\nPlease use my specific help command\n```\n/remind help\n```\n"

  const HELP_LINES: seq<string> := [
    "**Hi, I'm the Remind App.**",
    "**I can help you to create reminders for your conversations, or yourself.**",
    "1. You can create one time reminders, for example:",
    "```",
    "/remind to \"do something\" \"in 5 minutes\"",
    "/remind to \"do something\" \"today at 21:00\"",
    "/remind to \"do something\" \"18/09/2025 at 09:45\"",
    "/remind to \"do something\" \"next monday at 17:00\"",
    "```",
    "2. You can also create recurring reminders, for example:",
    "```",
    "/remind to \"Start the daily stand up\" \"every day at 10:00\"",
    "/remind to \"Start the weekly stand up\" \"every weekday at 10:00\"",
    "/remind to \"Start the weekly stand up\" \"every Monday at 10:00\"",
    "/remind to \"Start the weekly stand up\" \"every MON, Tue, Friday at 10:00\"",
    "```",
    "3. You can list all the active reminders in the conversation with the following command:",
    "```",
    "/remind list",
    "```",
    "4. You can delete a reminder with the following command:",
    "(Get the <reminderId> from the `/remind list` command)",
    "```",
    "/remind delete <reminderId>",
    "```"]

  /** `createHelpMessage()`: the raw string with its indentation trimmed. */
  const HELP: string := Join(HELP_LINES, "\n")

  const NO_REMINDERS: string := "There are no reminders yet in this conversation."

  const LIST_HEADER: string := "The reminders in this conversation:\n"

  /** `createButton(text, id)`: a single button. */
  function CreateButton(text: string, id: string): (bs: seq<Button>)
    ensures |bs| == 1 && bs[0].text == text && bs[0].id == id
  {
    [Button(text, id)]
  }

  /** The confirmation of a deletion names the task. */
  function DeletedText(task: string): (s: string)
    ensures Contains(s, task)
  {
    ContainsInfix("The reminder '", task, "' was deleted.");
    "The reminder '" + task + "' was deleted."
  }

  /** The answer to an unknown id is marked as an error and names the id. */
  function NotFoundText(id: string): (s: string)
    ensures |s| > 0 && s[0] == '\U{274C}'
    ensures Contains(s, id)
  {
    ContainsInfix("\U{274C} The reminder with id '", id, "' was not found.");
    "\U{274C} The reminder with id '" + id + "' was not found."
  }

  /** One line of the listing: the quoted task and when it fires (the
      instant of a one-shot reminder, the cron text of a recurring one). */
  function ListLine(r: Reminder, env: Env): (s: string)
    ensures Contains(s, r.task)
    ensures r.SingleReminder? ==> Contains(s, env.instantText(r.scheduledAt))
    ensures r.RecurringReminder? ==> Contains(s, env.cronText(r.scheduledCron))
  {
    var when := if r.SingleReminder? then env.instantText(r.scheduledAt) else env.cronText(r.scheduledCron);
    var s := "'" + r.task + "' at: " + when;
    ContainsInfix("'", r.task, "' at: " + when);
    assert s == "'" + r.task + ("' at: " + when);
    ContainsInfix("'" + r.task + "' at: ", when, []);
    assert s == "'" + r.task + "' at: " + when + [];
    s
  }

  /** The composite messages listing the reminders, one per reminder in
      order, each with a single delete button keyed by the reminder's id. */
  function Cards(conv: QualifiedId, rs: seq<Reminder>, env: Env): (cs: seq<Call>)
    ensures |cs| == |rs|
    ensures forall k :: 0 <= k < |cs| ==>
              && cs[k].SendComposite? && cs[k].conversationId == conv
              && cs[k].content == ListLine(rs[k], env)
              && cs[k].buttons == [Button("Delete", rs[k].taskId)]
  {
    seq(|rs|, k requires 0 <= k < |rs| => SendComposite(conv, ListLine(rs[k], env), CreateButton("Delete", rs[k].taskId)))
  }

  /** `getCreatedMessage`, inside `Either.catch`: `first()` of an empty list
      is the only thing that can throw, and only for a one-shot reminder. */
  function CreatedMessage(rns: ReminderNextSchedule, dateText: Instant -> string): (m: Either<Fault, string>)
    ensures m.Left? <==> rns.reminder.SingleReminder? && |rns.nextSchedules| == 0
    ensures m.Left? ==> m.left == NoSuchElement
    ensures m.Right? ==> Contains(m.right, rns.reminder.task)
    ensures m.Right? && rns.reminder.SingleReminder? ==>
              Contains(m.right, dateText(rns.nextSchedules[0]))
    ensures m.Right? && rns.reminder.RecurringReminder? ==>
              && Contains(m.right, NatText(|rns.nextSchedules|))
              && forall k :: 0 <= k < |rns.nextSchedules| ==>
                   Contains(m.right, "- " + dateText(rns.nextSchedules[k]))
  {
    var task := rns.reminder.task;
    var ns := rns.nextSchedules;
    match rns.reminder
    case SingleReminder(_, _, _, _, _) =>
      if |ns| == 0 then Left(NoSuchElement)
      else
        var parts := ["I will remind you to **'", task, "'** at:\n**", dateText(ns[0]), "**.\n"];
        JoinContainsPart(parts, "", 1);
        JoinContainsPart(parts, "", 3);
        Right(Concat(parts))
    case RecurringReminder(_, _, _, _, _) =>
      var lines := seq(|ns|, k requires 0 <= k < |ns| => "- " + dateText(ns[k]));
      var parts := ["I will periodically remind you to **'", task, "'**.\n", "\nThe next ",
                    NatText(|ns|), " schedules for the reminder is:\n", Join(lines, "\n")];
      JoinContainsPart(parts, "", 1);
      JoinContainsPart(parts, "", 4);
      JoinContainsPart(parts, "", 6);
      forall k | 0 <= k < |ns|
        ensures Contains(Concat(parts), "- " + dateText(ns[k]))
      {
        assert lines[k] == "- " + dateText(ns[k]);
        JoinContainsPart(lines, "\n", k);
        ContainsTrans(Concat(parts), parts[6], lines[k]);
      }
      Right(Concat(parts))
  }

  /** The help text shows a creation, the listing and the deletion command. */
  lemma HelpMentionsCommands(command: string)
    requires || command == "/remind to \"do something\" \"in 5 minutes\""
             || command == "/remind list"
             || command == "/remind delete <reminderId>"
    ensures Contains(HELP, command)
  {
    if command == "/remind list" {
      HelpShowsLine(18, command);
    } else if command == "/remind delete <reminderId>" {
      HelpShowsLine(23, command);
    } else {
      HelpShowsLine(4, command);
    }
  }

  lemma HelpShowsLine(k: nat, line: string)
    requires k < |HELP_LINES| && HELP_LINES[k] == line
    ensures Contains(HELP, line)
  {
    JoinContainsPart(HELP_LINES, "\n", k);
  }

  /** Calls `run.calls` are calls number `start`, `start + 1`, ... of the
      trace, and every one of them but a failing last one succeeded: a
      failure stops the branch and is the failure of the last call made. */
  predicate FailFastFrom(o: Oracle, start: nat, run: Run)
  {
    && (forall k :: 0 <= k < |run.calls| && !(run.outcome.CallFailed? && k == |run.calls| - 1) ==>
          o.accepts(start + k, run.calls[k]))
    && (run.outcome.CallFailed? ==>
          && |run.calls| > 0
          && run.calls[|run.calls| - 1] == run.outcome.call
          && !o.accepts(start + |run.calls| - 1, run.outcome.call))
  }

  predicate FailFast(o: Oracle, run: Run)
  {
    FailFastFrom(o, 0, run)
  }

  /** Make call `c` as call number `at` of the trace. */
  function Invoke(o: Oracle, at: nat, c: Call): (run: Run)
    ensures run.calls == [c]
    ensures run.outcome.Done? <==> o.accepts(at, c)
    ensures !run.outcome.Done? ==> run.outcome == CallFailed(c)
    ensures FailFastFrom(o, at, run)
  {
    Run([c], if o.accepts(at, c) then Done else CallFailed(c))
  }

  /** `a.flatMap { b }` once `a` succeeded: the calls of `b` follow those of
      `a`, and the result is that of `b`. */
  function Then(o: Oracle, start: nat, a: Run, b: Run): (run: Run)
    requires a.outcome.Done? && FailFastFrom(o, start, a) && FailFastFrom(o, start + |a.calls|, b)
    ensures run.calls == a.calls + b.calls && run.outcome == b.outcome
    ensures forall k :: |a.calls| <= k < |run.calls| ==> run.calls[k] == b.calls[k - |a.calls|]
    ensures FailFastFrom(o, start, run)
  {
    Run(a.calls + b.calls, b.outcome)
  }

  /** A fail-fast fold over `cs`, whose first call is call number `start`
      of the trace: the calls made are a prefix of `cs`, all of it when
      every call succeeded. */
  function SendAll(cs: seq<Call>, o: Oracle, start: nat): (run: Run)
    ensures run.calls <= cs
    ensures run.outcome.Done? || run.outcome.CallFailed?
    ensures FailFastFrom(o, start, run)
    ensures run.outcome.Done? ==> run.calls == cs
    decreases |cs|
  {
    if |cs| == 0 then Run([], Done)
    else
      var sent := Invoke(o, start, cs[0]);
      if !sent.outcome.Done? then sent
      else
        var rest := SendAll(cs[1..], o, start + 1);
        assert cs == [cs[0]] + cs[1..];
        Then(o, start, sent, rest)
  }

  /** The listing of a non-empty conversation, whose first send is call
      number `start`: a header, then the cards. */
  function ListNonEmpty(conv: QualifiedId, rs: seq<Reminder>, env: Env, o: Oracle, start: nat): (run: Run)
    ensures FailFastFrom(o, start, run)
    ensures run.outcome.Done? || run.outcome.CallFailed?
    ensures |run.calls| >= 1 && run.calls[0] == SendMessage(conv, LIST_HEADER)
    ensures run.calls[1..] <= Cards(conv, rs, env)
    ensures run.outcome.Done? ==> run.calls[1..] == Cards(conv, rs, env)
  {
    var header := Invoke(o, start, SendMessage(conv, LIST_HEADER));
    if !header.outcome.Done? then header
    else
      var cards := SendAll(Cards(conv, rs, env), o, start + 1);
      var run := Then(o, start, header, cards);
      assert run.calls[1..] == cards.calls;
      run
  }

  /** `getReminderListMessages`: the listing, then either the no-reminders
      message or the header followed by the cards, stopping at the first
      failed send. */
  function ListMessages(conv: QualifiedId, env: Env, o: Oracle): (run: Run)
    ensures FailFast(o, run)
    ensures run.outcome.Done? || run.outcome.CallFailed?
    ensures |run.calls| >= 1 && run.calls[0] == ListInConversation(conv)
    ensures !o.accepts(0, ListInConversation(conv)) ==>
              run == Run([ListInConversation(conv)], CallFailed(ListInConversation(conv)))
    ensures o.accepts(0, ListInConversation(conv)) && |o.stored(conv)| == 0 ==>
              run.calls == [ListInConversation(conv), SendMessage(conv, NO_REMINDERS)]
    ensures o.accepts(0, ListInConversation(conv)) && |o.stored(conv)| > 0 ==>
              && |run.calls| >= 2
              && run.calls[1] == SendMessage(conv, LIST_HEADER)
              && run.calls[2..] <= Cards(conv, o.stored(conv), env)
              && (run.outcome.Done? ==> run.calls[2..] == Cards(conv, o.stored(conv), env))
  {
    var fetched := Invoke(o, 0, ListInConversation(conv));
    if !fetched.outcome.Done? then fetched
    else
      var rs := o.stored(conv);
      if |rs| == 0 then Then(o, 0, fetched, Invoke(o, 1, SendMessage(conv, NO_REMINDERS)))
      else
        var listed := ListNonEmpty(conv, rs, env, o, 1);
        var run := Then(o, 0, fetched, listed);
        assert run.calls[1..] == listed.calls;
        assert run.calls[2..] == listed.calls[1..];
        run
  }

  /** `handleNewReminder`: the schedules and the confirmation are computed
      first; the reminder is saved only when that succeeded, and the
      confirmation is sent only once the save succeeded. A malformed cron
      expression throws out of the handler before anything is called. */
  function HandleNewReminder(conv: QualifiedId, r: Reminder, env: Env, o: Oracle): (run: Run)
    ensures FailFast(o, run)
    ensures !run.outcome.Caught?
    ensures NextSchedules(r, env.maxJobs, env.now, env.cron).Left? ==>
              run == Run([], Escaped(InvalidCron(r.scheduledCron)))
    ensures (exists k :: 0 <= k < |run.calls| && run.calls[k] == SaveSchedule(r)) ==>
              NextSchedules(r, env.maxJobs, env.now, env.cron).Right?
    ensures NextSchedules(r, env.maxJobs, env.now, env.cron).Right? ==>
              && 1 <= |run.calls| <= 2
              && run.calls[0] == SaveSchedule(r)
              && (o.accepts(0, SaveSchedule(r)) <==> |run.calls| == 2)
              && (run.outcome.Done? <==> |run.calls| == 2 && o.accepts(1, run.calls[1]))
    ensures run.outcome.Escaped? ==> NextSchedules(r, env.maxJobs, env.now, env.cron).Left?
    ensures |run.calls| == 2 ==>
              && run.calls[1].SendComposite?
              && run.calls[1].conversationId == conv
              && Contains(run.calls[1].content, r.task)
              && run.calls[1].buttons == CreateButton("Delete", r.taskId)
    ensures |run.calls| == 2 ==>
              && NextSchedules(r, env.maxJobs, env.now, env.cron).Right?
              && var m := CreatedMessage(ReminderNextSchedule(r, NextSchedules(r, env.maxJobs, env.now, env.cron).right),
                                         env.dateText);
                 m.Right? && run.calls[1].content == m.right
  {
    match NextSchedules(r, env.maxJobs, env.now, env.cron)
    case Left(MalformedCron(expression)) => Run([], Escaped(InvalidCron(expression)))
    case Right(ns) =>
      match CreatedMessage(ReminderNextSchedule(r, ns), env.dateText)
      case Left(f) => Run([], Caught(f))
      case Right(message) =>
        var saved := Invoke(o, 0, SaveSchedule(r));
        if !saved.outcome.Done? then saved
        else Then(o, 0, saved, Invoke(o, 1, SendComposite(conv, message, CreateButton("Delete", r.taskId))))
  }

  /** Position of the first reminder with the given task id, or `|rs|`
      (`reminders.find { it.taskId == id }`). */
  function FindTask(rs: seq<Reminder>, id: string): (k: nat)
    ensures k <= |rs|
    ensures forall j :: 0 <= j < k ==> rs[j].taskId != id
    ensures k < |rs| ==> rs[k].taskId == id
  {
    if |rs| == 0 || rs[0].taskId == id then 0 else 1 + FindTask(rs[1..], id)
  }

  /** A delete came from a button exactly when both refs are present. */
  predicate IsButtonAction(ref: Option<string>, sender: Option<QualifiedId>)
  {
    ref.Some? && sender.Some?
  }

  /** The confirmation of a deletion: a button-originated delete edits the
      clicked message, whose id is parsed as a UUID only at this point (and
      throws out of the handler when it is not one); a text delete sends a
      new message. `clicked` is the referenced message of a button action. */
  function ConfirmDeletion(conv: QualifiedId, task: string, clicked: Option<string>, env: Env, o: Oracle,
                           at: nat): (run: Run)
    ensures FailFastFrom(o, at, run)
    ensures clicked.None? ==> run.calls == [SendMessage(conv, DeletedText(task))]
    ensures clicked.Some? && env.uuid(clicked.value).Some? ==>
              run.calls == [EditComposite(env.uuid(clicked.value).value, conv, DeletedText(task), [])]
    ensures run.outcome.Escaped? <==> clicked.Some? && env.uuid(clicked.value).None?
    ensures run.outcome.Escaped? ==> run == Run([], Escaped(InvalidUuid(clicked.value)))
    ensures run.outcome.Done? || run.outcome.CallFailed? || run.outcome.Escaped?
  {
    match clicked
    case None => Invoke(o, at, SendMessage(conv, DeletedText(task)))
    case Some(ref) =>
      match env.uuid(ref)
      case None => Run([], Escaped(InvalidUuid(ref)))
      case Some(messageId) => Invoke(o, at, EditComposite(messageId, conv, DeletedText(task), []))
  }

  /** The part of `deleteReminder` after the acknowledgement, whose first
      call is call number `start`: list, find the first reminder with the
      id, delete it and confirm; an unknown id is answered with a single
      message naming it. */
  function DeleteListed(conv: QualifiedId, id: string, clicked: Option<string>, env: Env, o: Oracle,
                        start: nat): (run: Run)
    ensures FailFastFrom(o, start, run)
    ensures run.outcome.Done? || run.outcome.CallFailed? || run.outcome.Escaped?
    ensures |run.calls| >= 1 && run.calls[0] == ListInConversation(conv)
    ensures !o.accepts(start, ListInConversation(conv)) ==> |run.calls| == 1
    ensures o.accepts(start, ListInConversation(conv)) && FindTask(o.stored(conv), id) == |o.stored(conv)| ==>
              run.calls == [ListInConversation(conv), SendMessage(conv, NotFoundText(id))]
    ensures forall k :: 0 <= k < |run.calls| && run.calls[k].DeleteUseCase? ==>
              k == 1 && run.calls[k].taskId == id
    ensures forall k :: 0 <= k < |run.calls| ==> !run.calls[k].SendAck?
    ensures o.accepts(start, ListInConversation(conv)) && FindTask(o.stored(conv), id) < |o.stored(conv)| ==>
              var r := o.stored(conv)[FindTask(o.stored(conv), id)];
              && |run.calls| >= 2
              && run.calls[1] == DeleteUseCase(r.taskId, r.conversationId)
              && (!o.accepts(start + 1, run.calls[1]) ==> |run.calls| == 2)
              && (o.accepts(start + 1, run.calls[1]) ==>
                    var confirmed := ConfirmDeletion(conv, r.task, clicked, env, o, start + 2);
                    run.calls[2..] == confirmed.calls && run.outcome == confirmed.outcome)
    ensures run.outcome.Escaped? ==>
              && clicked.Some? && env.uuid(clicked.value).None?
              && run.outcome == Escaped(InvalidUuid(clicked.value))
              && |run.calls| == 2 && run.calls[1].DeleteUseCase?
  {
    var fetched := Invoke(o, start, ListInConversation(conv));
    if !fetched.outcome.Done? then fetched
    else
      var rs := o.stored(conv);
      var k := FindTask(rs, id);
      if k == |rs| then Then(o, start, fetched, Invoke(o, start + 1, SendMessage(conv, NotFoundText(id))))
      else
        var reminder := rs[k];
        var deleted := Then(o, start, fetched,
                            Invoke(o, start + 1, DeleteUseCase(reminder.taskId, reminder.conversationId)));
        if !deleted.outcome.Done? then deleted
        else
          Then(o, start, deleted, ConfirmDeletion(conv, reminder.task, clicked, env, o, start + 2))
  }

  /** `deleteReminder`: a button-originated delete (one carrying both the
      referenced message and the sender) is first acknowledged, and only
      then does the rest of the deletion run. */
  function DeleteFlow(conv: QualifiedId, id: string, ref: Option<string>, sender: Option<QualifiedId>,
                      env: Env, o: Oracle): (run: Run)
    ensures FailFast(o, run)
    ensures !run.outcome.Caught?
    ensures forall k :: 0 <= k < |run.calls| && run.calls[k].SendAck? ==> k == 0 && IsButtonAction(ref, sender)
    ensures IsButtonAction(ref, sender) ==>
              |run.calls| >= 1 && run.calls[0] == SendAck(conv, sender.value, ref.value, id)
    ensures IsButtonAction(ref, sender) && !o.accepts(0, run.calls[0]) ==>
              run == Run([run.calls[0]], CallFailed(run.calls[0]))
    ensures IsButtonAction(ref, sender) && o.accepts(0, run.calls[0]) ==>
              var rest := DeleteListed(conv, id, ref, env, o, 1);
              run.calls[1..] == rest.calls && run.outcome == rest.outcome
    ensures !IsButtonAction(ref, sender) ==> run == DeleteListed(conv, id, None, env, o, 0)
    ensures run.outcome.Escaped? ==> IsButtonAction(ref, sender) && env.uuid(ref.value).None?
  {
    if IsButtonAction(ref, sender) then
      var acked := Invoke(o, 0, SendAck(conv, sender.value, ref.value, id));
      if !acked.outcome.Done? then acked
      else
        var rest := DeleteListed(conv, id, ref, env, o, 1);
        var run := Then(o, 0, acked, rest);
        assert run.calls[1..] == rest.calls;
        run
    else DeleteListed(conv, id, None, env, o, 0)
  }

  /** `onEvent`: one branch per command. Help texts are a single message. */
  function OnEvent(cmd: Command, env: Env, o: Oracle): (run: Run)
    ensures FailFast(o, run)
    ensures cmd.Help? ==> run.calls == [SendMessage(cmd.conversationId, HELP)]
    ensures cmd.LegacyHelp? ==> run.calls == [SendMessage(cmd.conversationId, LEGACY_HELP)]
    ensures cmd.ListReminders? ==> run == ListMessages(cmd.conversationId, env, o)
    ensures cmd.NewReminder? ==> run == HandleNewReminder(cmd.conversationId, cmd.reminder, env, o)
    ensures cmd.DeleteReminder? ==>
              run == DeleteFlow(cmd.conversationId, cmd.reminderId, cmd.referencedMessageId,
                                cmd.senderId, env, o)
    ensures !run.outcome.Caught?
    ensures run.outcome.Escaped? ==> cmd.NewReminder? || cmd.DeleteReminder?
  {
    match cmd
    case LegacyHelp(conv) => Invoke(o, 0, SendMessage(conv, LEGACY_HELP))
    case Help(conv) => Invoke(o, 0, SendMessage(conv, HELP))
    case NewReminder(conv, reminder) => HandleNewReminder(conv, reminder, env, o)
    case ListReminders(conv) => ListMessages(conv, env, o)
    case DeleteReminder(conv, id, ref, sender) => DeleteFlow(conv, id, ref, sender, env, o)
  }

  /** A delete removes at most one reminder, only one with the requested id,
      and nothing at all when no listed reminder has that id. */
  lemma {:induction false} DeleteTouchesOnlyRequested(conv: QualifiedId, id: string, ref: Option<string>,
                                                      sender: Option<QualifiedId>, env: Env, o: Oracle)
    ensures var run := DeleteFlow(conv, id, ref, sender, env, o);
            && (forall k :: 0 <= k < |run.calls| && run.calls[k].DeleteUseCase? ==> run.calls[k].taskId == id)
            && (forall k, j :: 0 <= k < j < |run.calls| && run.calls[k].DeleteUseCase? ==>
                  !run.calls[j].DeleteUseCase?)
            && (FindTask(o.stored(conv), id) == |o.stored(conv)| ==>
                  forall k :: 0 <= k < |run.calls| ==> !run.calls[k].DeleteUseCase?)
  {
    var run := DeleteFlow(conv, id, ref, sender, env, o);
    if IsButtonAction(ref, sender) && o.accepts(0, run.calls[0]) {
      var rest := DeleteListed(conv, id, ref, env, o, 1);
      assert forall k :: 1 <= k < |run.calls| ==> run.calls[k] == rest.calls[k - 1];
    }
  }
}
