/** Mapping of inbound chat events to commands (`EventMapper.fromEvent`).

    A text event is parsed with the `/remind` grammar; a button click whose id
    is a UUID deletes that reminder, any other button id is parsed as text.
    Exceptions raised while mapping are modelled by `Mapping.Thrown` and end
    as a `PARSE_ERROR`. `UUID.fromString` and the natural-language schedule
    resolver (`ReminderMapper.parseReminder`) are collaborators passed in
    `Parsers`. */
module EventMapper {

  import opened Base
  import opened Text
  import opened Domain
  import Quotes

  datatype EventType = NewText | ButtonAction | OtherType(name: string)

  /** The concrete event object: a text message, a button click, or any
      other event class. */
  datatype Payload =
    | MessageBody(text: Option<string>)
    | ButtonBody(buttonId: Option<string>, referencedMessageId: Option<string>)
    | PlainBody

  datatype Event = Event(eventType: EventType, userId: Option<string>,
                         conversationId: QualifiedId, payload: Payload)

  /** What the schedule resolver does with a task and a schedule phrase:
      produce a reminder, return an error, or throw. */
  datatype Resolution = Resolved(reminder: Reminder) | Rejected(error: BotError) | Crashed

  /** `uuid(s)` is the canonical text of `UUID.fromString(s)`, or `None` when
      it throws. */
  datatype Parsers = Parsers(uuid: string -> Option<string>,
                             resolve: (QualifiedId, string, string) -> Resolution)

  /** Either a returned value or an exception in flight. */
  datatype Mapping = Returned(result: Either<BotError, Command>) | Thrown

  /** The usage hint of an unknown sub-command. */
  const COMMAND_HINT: string := Join([
    "Unknown command, valid options are:",
    "```",
    "/remind help",
    "/remind list",
    "/remind to \"what\" \"when\"",
    "/remind delete <reminderId>",
    "```"], "\n")

  function UsageError(conv: QualifiedId, t: ErrorType): Either<BotError, Command>
  {
    Left(ReminderError(conv, t))
  }

  /** The event's conversation id is the one of any command it yields. */
  predicate InConversation(m: Mapping, conv: QualifiedId)
  {
    m.Returned? && m.result.Right? ==> m.result.right.conversationId == conv
  }

  /** `parseDeleteCommand`: the id is what follows `delete`, trimmed. */
  function ParseDelete(conv: QualifiedId, args: string, ref: Option<string>,
                       sender: Option<QualifiedId>): (r: Either<BotError, Command>)
    ensures r.Left? ==> r == UsageError(conv, InvalidReminderId)
    ensures r.Right? ==> r.right.DeleteReminder?
                         && r == Right(DeleteReminder(conv, r.right.reminderId, ref, sender))
                         && Trimmed(r.right.reminderId)
    ensures StartsWith(args, "delete") ==>
              && (r.Left? <==> IsBlank(args[6..]))
              && (r.Right? ==> r.right.reminderId == Trim(args[6..]))
  {
    var after := SubstringAfter(args, "delete");
    var id := Trim(after);
    DeleteIdShape(args, after, id);
    TrimNonBlank(after);
    if IsBlank(id) then UsageError(conv, InvalidReminderId)
    else Right(DeleteReminder(conv, id, ref, sender))
  }

  /** The id `parseDeleteCommand` extracts from the text `after` the
      keyword, stated for `ParseDelete`. */
  lemma DeleteIdShape(args: string, after: string, id: string)
    requires StartsWith(args, "delete") ==> after == args[6..]
    requires id == Trim(after)
    ensures StartsWith(args, "delete") ==> id == Trim(args[6..]) && (IsBlank(id) <==> IsBlank(args[6..]))
  {
    if StartsWith(args, "delete") {
      TrimBlank(args[6..]);
    }
  }

  /** For every text after `delete`, the command carries exactly that text
      trimmed, and a blank text is refused. */
  lemma DeleteOfKeyword(conv: QualifiedId, tail: string, ref: Option<string>, sender: Option<QualifiedId>)
    ensures ParseDelete(conv, "delete" + tail, ref, sender) ==
            if IsBlank(tail) then UsageError(conv, InvalidReminderId)
            else Right(DeleteReminder(conv, Trim(tail), ref, sender))
  {
    var args := "delete" + tail;
    assert StartsWith(args, "delete") && args[6..] == tail;
  }

  /** The text `ParseDelete` keeps as the id, `Trim(args[6..])` by its
      contract, is found in the arguments right after `delete` and the
      whitespace following it, and is non-empty exactly when the rest is
      not blank. */
  lemma DeleteIdInText(args: string)
    requires StartsWith(args, "delete")
    ensures OccursAt(args, Trim(args[6..]), 6 + LeadingSpaces(args[6..]))
    ensures |Trim(args[6..])| > 0 <==> !IsBlank(args[6..])
  {
    var rest := args[6..];
    OccursInSuffix(args, 6, Trim(rest), LeadingSpaces(rest));
  }

  /** `parseToCommand`: validation of the quoted groups after `to`, in this
      order, before the schedule phrase is resolved. Groups past the second
      are ignored; the task and phrase are passed untrimmed. */
  function ParseTo(conv: QualifiedId, args: string,
                   resolve: (QualifiedId, string, string) -> Resolution): (r: Mapping)
    ensures var gs := Quotes.Groups(SubstringAfter(args, "to"));
            && (|gs| < 2 ==> r == Returned(UsageError(conv, InvalidReminderUsage)))
            && (|gs| >= 2 && IsBlank(gs[0]) ==> r == Returned(UsageError(conv, EmptyReminderTask)))
            && (|gs| >= 2 && !IsBlank(gs[0]) && IsBlank(gs[1]) ==>
                  r == Returned(UsageError(conv, InvalidReminderUsage)))
            && (r.Returned? && r.result.Right? ==>
                  |gs| >= 2 && !IsBlank(gs[0]) && !IsBlank(gs[1])
                  && r.result.right.NewReminder? && r.result.right.conversationId == conv
                  && resolve(conv, gs[0], gs[1]) == Resolved(r.result.right.reminder))
            && (r.Thrown? ==>
                  |gs| >= 2 && !IsBlank(gs[0]) && !IsBlank(gs[1])
                  && (resolve(conv, gs[0], gs[1]).Crashed?
                      || (resolve(conv, gs[0], gs[1]).Rejected?
                          && !resolve(conv, gs[0], gs[1]).error.ReminderError?)))
    ensures var gs := Quotes.Groups(SubstringAfter(args, "to"));
            |gs| >= 2 && !IsBlank(gs[0]) && !IsBlank(gs[1]) ==>
              match resolve(conv, gs[0], gs[1])
              case Resolved(reminder) => r == Returned(Right(NewReminder(conv, reminder)))
              case Rejected(e) => r == (if e.ReminderError? then Returned(Left(e)) else Thrown)
              case Crashed => r == Thrown
  {
    var gs := Quotes.Groups(SubstringAfter(args, "to"));
    if |gs| < 2 then Returned(UsageError(conv, InvalidReminderUsage))
    else if IsBlank(gs[0]) then Returned(UsageError(conv, EmptyReminderTask))
    else if IsBlank(gs[1]) then Returned(UsageError(conv, InvalidReminderUsage))
    else match resolve(conv, gs[0], gs[1])
      case Resolved(reminder) => Returned(Right(NewReminder(conv, reminder)))
      case Rejected(e) =>
        // a non-ReminderError is turned into an exception by `error(...)`
        if e.ReminderError? then Returned(Left(e)) else Thrown
      case Crashed => Thrown
  }

  /** `parseCommandArgs`: exact `help` and `list` (after trimming) are matched
      before the `to` and `delete` prefixes; anything else is answered with
      the usage hint. */
  function ParseArgs(conv: QualifiedId, args: string, ref: Option<string>,
                     sender: Option<QualifiedId>,
                     resolve: (QualifiedId, string, string) -> Resolution): (r: Mapping)
    ensures Trim(args) == "help" ==> r == Returned(Right(Help(conv)))
    ensures Trim(args) == "list" ==> r == Returned(Right(ListReminders(conv)))
    ensures Trim(args) != "help" && Trim(args) != "list" && StartsWith(args, "to") ==>
              r == ParseTo(conv, args, resolve)
    ensures Trim(args) != "help" && Trim(args) != "list" && StartsWith(args, "delete") ==>
              r == Returned(ParseDelete(conv, args, ref, sender))
    ensures Trim(args) != "help" && Trim(args) != "list"
            && !StartsWith(args, "to") && !StartsWith(args, "delete") ==>
              r == Returned(Left(Unknown(conv, COMMAND_HINT)))
    ensures InConversation(r, conv)
  {
    PrefixesExclusive(args);
    if Trim(args) == "help" then Returned(Right(Help(conv)))
    else if Trim(args) == "list" then Returned(Right(ListReminders(conv)))
    else if StartsWith(args, "to") then ParseTo(conv, args, resolve)
    else if StartsWith(args, "delete") then Returned(ParseDelete(conv, args, ref, sender))
    else Returned(Left(Unknown(conv, COMMAND_HINT)))
  }

  lemma PrefixesExclusive(args: string)
    ensures !(StartsWith(args, "to") && StartsWith(args, "delete"))
  {
    if StartsWith(args, "delete") {
      assert args[0] == args[..6][0] == 'd';
      assert args[..2][0] == 'd';
    }
  }

  /** `parseCommand`: only the first word (text before the first `\s` run)
      chooses the branch. */
  function ParseCommand(conv: QualifiedId, raw: string, ref: Option<string>,
                        sender: Option<QualifiedId>,
                        resolve: (QualifiedId, string, string) -> Resolution): (r: Mapping)
    ensures FirstWord(raw) == "/help" ==> r == Returned(Right(LegacyHelp(conv)))
    ensures FirstWord(raw) == "/remind" ==>
              r == ParseArgs(conv, TrimStart(raw[7..]), ref, sender, resolve)
    ensures FirstWord(raw) != "/help" && FirstWord(raw) != "/remind" ==> r == Returned(Left(Skip))
    ensures |raw| > 0 && IsRegexSpace(raw[0]) ==> r == Returned(Left(Skip))
    ensures InConversation(r, conv)
  {
    var word := FirstWord(raw);
    if word == "/help" then Returned(Right(LegacyHelp(conv)))
    else if word == "/remind" then
      ParseArgs(conv, TrimStart(SubstringAfter(raw, "/remind")), ref, sender, resolve)
    else Returned(Left(Skip))
  }

  /** The body of `fromEvent` inside its `runCatching`. */
  function MapEvent(ev: Event, p: Parsers): (r: Mapping)
    ensures InConversation(r, ev.conversationId)
  {
    match ev.eventType
    case NewText =>
      if !ev.payload.MessageBody? then Thrown
      else ParseCommand(ev.conversationId, ev.payload.text.GetOr(""), None, None, p.resolve)
    case ButtonAction =>
      if !ev.payload.ButtonBody? then Thrown
      else if ev.userId.Some? && p.uuid(ev.userId.value).None? then Thrown
      else
        var buttonId := ev.payload.buttonId.GetOr("");
        var sender := if ev.userId.Some? then Some(QualifiedId(p.uuid(ev.userId.value).value, ""))
                      else None;
        if p.uuid(buttonId).Some? then
          Returned(Right(DeleteReminder(ev.conversationId, buttonId,
                                        ev.payload.referencedMessageId, sender)))
        else
          ParseCommand(ev.conversationId, buttonId, ev.payload.referencedMessageId, sender, p.resolve)
    case OtherType(_) => Returned(Left(Skip))
  }

  /** The sender of a button click: its user id parsed as a UUID with an
      empty domain. */
  function SenderOf(ev: Event, p: Parsers): Option<QualifiedId>
  {
    if ev.userId.Some? && p.uuid(ev.userId.value).Some?
    then Some(QualifiedId(p.uuid(ev.userId.value).value, ""))
    else None
  }

  /** `fromEvent`: never throws; an exception becomes `PARSE_ERROR` for the
      event's conversation. */
  function FromEvent(ev: Event, p: Parsers): (r: Either<BotError, Command>)
    ensures ev.eventType.OtherType? ==> r == Left(Skip)
    ensures ev.eventType.NewText? && !ev.payload.MessageBody? ==>
              r == UsageError(ev.conversationId, ParseError)
    ensures ev.eventType.ButtonAction? && !ev.payload.ButtonBody? ==>
              r == UsageError(ev.conversationId, ParseError)
    ensures ev.eventType.ButtonAction? && ev.userId.Some? && p.uuid(ev.userId.value).None? ==>
              r == UsageError(ev.conversationId, ParseError)
    ensures ev.eventType.ButtonAction? && ev.payload.ButtonBody?
            && (ev.userId.None? || p.uuid(ev.userId.value).Some?)
            && p.uuid(ev.payload.buttonId.GetOr("")).Some? ==>
              r == Right(DeleteReminder(ev.conversationId, ev.payload.buttonId.GetOr(""),
                                        ev.payload.referencedMessageId, SenderOf(ev, p)))
    ensures ev.eventType.ButtonAction? && ev.payload.ButtonBody?
            && (ev.userId.None? || p.uuid(ev.userId.value).Some?)
            && p.uuid(ev.payload.buttonId.GetOr("")).None? ==>
              r == Finish(ev, ParseCommand(ev.conversationId, ev.payload.buttonId.GetOr(""),
                                           ev.payload.referencedMessageId, SenderOf(ev, p), p.resolve))
    ensures ev.eventType.NewText? && ev.payload.MessageBody? ==>
              r == Finish(ev, ParseCommand(ev.conversationId, ev.payload.text.GetOr(""),
                                           None, None, p.resolve))
    ensures r.Right? ==> r.right.conversationId == ev.conversationId
  {
    Finish(ev, MapEvent(ev, p))
  }

  /** `runCatching { ... }.getOrElse { PARSE_ERROR }`. */
  function Finish(ev: Event, m: Mapping): (r: Either<BotError, Command>)
    ensures m.Thrown? ==> r == UsageError(ev.conversationId, ParseError)
    ensures m.Returned? ==> r == m.result
  {
    match m
    case Thrown => UsageError(ev.conversationId, ParseError)
    case Returned(result) => result
  }

  /** The creation command as the help text writes it:
      `/remind to "<task>" "<when>"`. */
  function ToCommandText(task: string, when: string): string
  {
    "/remind" + [' '] + "to" + (Quoted(task) + Quoted(when))
  }

  /** The first word of `w` followed by a `\s` character is `w`. */
  lemma FirstWordBeforeSpace(w: string, s: string)
    requires forall i :: 0 <= i < |w| ==> !IsRegexSpace(w[i])
    requires |s| > 0 && IsRegexSpace(s[0])
    ensures FirstWord(w + s) == w
  {
    assert forall i :: 0 <= i < |w| ==> (w + s)[i] == w[i];
    assert (w + s)[|w|] == s[0];
    assert RegexSpaceIndex(w + s) == |w|;
  }

  /** ` "<text>"`: a space, then the text in straight quotes. */
  function Quoted(text: string): string
  {
    [' ', '"'] + text + ['"']
  }

  /** The quoted groups of ` "<task>" "<when>"` are the task and the phrase. */
  lemma TwoQuotedGroups(task: string, when: string)
    requires Quotes.QuoteFree(task) && Quotes.QuoteFree(when)
    ensures Quotes.Groups(Quoted(task) + Quoted(when)) == [task, when]
  {
    var m0 := Quotes.Match([' '], '"', task, '"');
    var m1 := Quotes.Match([' '], '"', when, '"');
    var ms := [m0, m1];
    assert Quotes.WellFormed(m0) && Quotes.WellFormed(m1);
    assert ms[1..] == [m1];
    assert Quotes.Spell([m1], []) == Quoted(when) by {
      assert [m1][1..] == [];
    }
    assert Quotes.Spell(ms, []) == Quoted(task) + Quoted(when);
    Quotes.GroupsOfSpelling(ms, []);
    assert Quotes.GroupTexts(ms) == [task, when];
  }

  /** `/remind` followed by one space selects the `/remind` branch with
      the text after that space as its arguments. */
  lemma RemindBranch(conv: QualifiedId, rest: string, ref: Option<string>, sender: Option<QualifiedId>,
                     resolve: (QualifiedId, string, string) -> Resolution)
    requires |rest| > 1 && rest[0] == ' ' && !IsSpace(rest[1])
    ensures ParseCommand(conv, "/remind" + rest, ref, sender, resolve) ==
            ParseArgs(conv, rest[1..], ref, sender, resolve)
  {
    var w := "/remind";
    assert forall i :: 0 <= i < |w| ==> !IsRegexSpace(w[i]);
    FirstWordBeforeSpace(w, rest);
    assert (w + rest)[7..] == rest;
    assert LeadingSpaces(rest) == 1;
  }

  /** Arguments starting with `to` and a space go to `parseToCommand`, with
      the text after `to`. */
  lemma ToBranch(conv: QualifiedId, tail: string, ref: Option<string>, sender: Option<QualifiedId>,
                 resolve: (QualifiedId, string, string) -> Resolution)
    requires |tail| > 0 && tail[0] == ' '
    ensures ParseArgs(conv, "to" + tail, ref, sender, resolve) == ParseTo(conv, "to" + tail, resolve)
    ensures SubstringAfter("to" + tail, "to") == tail
  {
    var args := "to" + tail;
    assert args[0] == 't';
    assert LeadingSpaces(args) == 0;
    assert Trim(args)[0] == 't';
    assert args[..2] == "to";
  }

  /** `/remind to "<task>" "<when>"` with quote-free texts reaches the
      validation of `parseToCommand` with exactly the two quoted texts. */
  lemma QuotedCommandGroups(conv: QualifiedId, task: string, when: string,
                            ref: Option<string>, sender: Option<QualifiedId>,
                            resolve: (QualifiedId, string, string) -> Resolution)
    requires Quotes.QuoteFree(task) && Quotes.QuoteFree(when)
    ensures var args := "to" + (Quoted(task) + Quoted(when));
            && ParseCommand(conv, ToCommandText(task, when), ref, sender, resolve) == ParseTo(conv, args, resolve)
            && Quotes.Groups(SubstringAfter(args, "to")) == [task, when]
  {
    var tail := Quoted(task) + Quoted(when);
    var rest := [' '] + ("to" + tail);
    assert ToCommandText(task, when) == "/remind" + rest;
    RemindBranch(conv, rest, ref, sender, resolve);
    assert rest[1..] == "to" + tail;
    ToBranch(conv, tail, ref, sender, resolve);
    TwoQuotedGroups(task, when);
  }

  /** A creation command with a non-blank task and phrase hands them to the
      schedule resolver verbatim and yields what it decides. */
  lemma QuotedCommandResolves(conv: QualifiedId, task: string, when: string,
                              ref: Option<string>, sender: Option<QualifiedId>,
                              resolve: (QualifiedId, string, string) -> Resolution)
    requires Quotes.QuoteFree(task) && Quotes.QuoteFree(when)
    requires !IsBlank(task) && !IsBlank(when)
    ensures var r := ParseCommand(conv, ToCommandText(task, when), ref, sender, resolve);
            match resolve(conv, task, when)
            case Resolved(reminder) => r == Returned(Right(NewReminder(conv, reminder)))
            case Rejected(e) => r == (if e.ReminderError? then Returned(Left(e)) else Thrown)
            case Crashed => r == Thrown
  {
    QuotedCommandGroups(conv, task, when, ref, sender, resolve);
  }

  /** A blank task is refused before the schedule phrase is looked at. */
  lemma BlankTaskRefused(conv: QualifiedId, task: string, when: string,
                         ref: Option<string>, sender: Option<QualifiedId>,
                         resolve: (QualifiedId, string, string) -> Resolution)
    requires Quotes.QuoteFree(task) && Quotes.QuoteFree(when)
    requires IsBlank(task)
    ensures ParseCommand(conv, ToCommandText(task, when), ref, sender, resolve) ==
            Returned(UsageError(conv, EmptyReminderTask))
  {
    QuotedCommandGroups(conv, task, when, ref, sender, resolve);
  }

  /** Leading whitespace before such a text is trimmed away. */
  lemma TrimmedAfterSpace(s: string)
    requires Trimmed(s)
    ensures Trim([' '] + s) == s
  {
    var t := [' '] + s;
    assert LeadingSpaces(t) == 1;
    var r := Trim(t);
    assert |t| - 1 < 1 + |r|;
    assert r == t[1..];
  }

  /** Arguments starting with `delete` and a space go to
      `parseDeleteCommand`, which reads the text after `delete`. */
  lemma DeleteBranch(conv: QualifiedId, tail: string, ref: Option<string>, sender: Option<QualifiedId>,
                     resolve: (QualifiedId, string, string) -> Resolution)
    requires |tail| > 0 && tail[0] == ' '
    ensures ParseArgs(conv, "delete" + tail, ref, sender, resolve) ==
            Returned(ParseDelete(conv, "delete" + tail, ref, sender))
    ensures SubstringAfter("delete" + tail, "delete") == tail
  {
    var args := "delete" + tail;
    assert args[0] == 'd';
    assert LeadingSpaces(args) == 0;
    assert Trim(args)[0] == 'd';
    assert args[..6] == "delete";
  }

  /** `/remind delete <id>` with an id that is not padded with whitespace
      deletes exactly that id; the refs are passed through. */
  lemma DeleteCommandKeepsId(conv: QualifiedId, id: string, ref: Option<string>, sender: Option<QualifiedId>,
                             resolve: (QualifiedId, string, string) -> Resolution)
    requires Trimmed(id)
    ensures ParseCommand(conv, "/remind" + [' '] + ("delete" + ([' '] + id)), ref, sender, resolve) ==
            Returned(Right(DeleteReminder(conv, id, ref, sender)))
  {
    var tail := [' '] + id;
    var args := "delete" + tail;
    assert "/remind" + [' '] + args == "/remind" + ([' '] + args);
    RemindBranch(conv, [' '] + args, ref, sender, resolve);
    assert ([' '] + args)[1..] == args;
    DeleteBranch(conv, tail, ref, sender, resolve);
    DeleteOfPaddedId(conv, id, ref, sender);
  }

  lemma DeleteOfPaddedId(conv: QualifiedId, id: string, ref: Option<string>, sender: Option<QualifiedId>)
    requires Trimmed(id)
    ensures ParseDelete(conv, "delete" + ([' '] + id), ref, sender) == Right(DeleteReminder(conv, id, ref, sender))
  {
    var tail := [' '] + id;
    var args := "delete" + tail;
    assert SubstringAfter(args, "delete") == tail by {
      assert args[..6] == "delete";
      assert args[6..] == tail;
    }
    TrimmedAfterSpace(id);
    assert !IsBlank(id);
  }
}
