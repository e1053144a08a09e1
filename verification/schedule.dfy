/** Upcoming firing instants of a reminder (`Reminder.getNextSchedules`).

    The cron expression parser (Quartz `CronExpression`) is a collaborator:
    it either rejects the expression or yields a rule whose `nextAfter(t)`
    is the next valid fire time after `t`. The current time is a parameter. */
module Schedule {

  import opened Base
  import opened Domain

  datatype CronRule = CronRule(nextAfter: Instant -> Instant)

  datatype ScheduleError = MalformedCron(expression: string)

  /** `ReminderNextSchedule`: a reminder with its computed instants. */
  datatype ReminderNextSchedule = ReminderNextSchedule(reminder: Reminder, nextSchedules: seq<Instant>)

  /** Every element is the successor of the one before it, the first being
      the successor of `start`. */
  predicate IsChain(next: Instant -> Instant, start: Instant, xs: seq<Instant>)
  {
    && (|xs| > 0 ==> xs[0] == next(start))
    && (forall i :: 1 <= i < |xs| ==> xs[i] == next(xs[i - 1]))
  }

  /** `repeat(count) { next = nextAfter(next); schedules.add(next) }`. */
  function Iterate(next: Instant -> Instant, cursor: Instant, count: int): (xs: seq<Instant>)
    ensures |xs| == if count <= 0 then 0 else count
    ensures IsChain(next, cursor, xs)
    decreases count
  {
    if count <= 0 then []
    else
      var n := next(cursor);
      var rest := Iterate(next, n, count - 1);
      assert forall i :: 1 <= i < 1 + |rest| ==> ([n] + rest)[i] == rest[i - 1];
      [n] + rest
  }

  /** `getNextSchedules(count)`, evaluated at instant `now`. A one-shot
      reminder yields its instant whatever `count` is; a recurring one parses
      its cron expression first and fails before producing anything when the
      expression is malformed. */
  function NextSchedules(r: Reminder, count: int, now: Instant,
                         parse: string -> Option<CronRule>): (res: Either<ScheduleError, seq<Instant>>)
    ensures r.SingleReminder? ==> res == Right([r.scheduledAt])
    ensures r.RecurringReminder? ==> (res.Left? <==> parse(r.scheduledCron).None?)
    ensures res.Left? ==> res.left == MalformedCron(r.scheduledCron)
    ensures r.RecurringReminder? && res.Right? ==>
              && |res.right| == (if count <= 0 then 0 else count)
              && IsChain(parse(r.scheduledCron).value.nextAfter, now, res.right)
  {
    match r
    case SingleReminder(_, _, _, _, at) => Right([at])
    case RecurringReminder(_, _, _, _, cron) =>
      match parse(cron)
      case None => Left(MalformedCron(cron))
      case Some(rule) => Right(Iterate(rule.nextAfter, now, count))
  }

  /** When each fire time is strictly later than its argument, a chain is
      strictly increasing, lies after its start, and has no duplicates. */
  lemma {:induction false} ChainIncreasing(next: Instant -> Instant, start: Instant, xs: seq<Instant>)
    requires forall t :: next(t) > t
    requires IsChain(next, start, xs)
    ensures forall i, j :: 0 <= i < j < |xs| ==> start < xs[i] < xs[j]
    ensures forall i, j :: 0 <= i < |xs| && 0 <= j < |xs| && i != j ==> xs[i] != xs[j]
    decreases |xs|
  {
    if |xs| > 0 {
      var init := xs[..|xs| - 1];
      assert forall i :: 0 <= i < |init| ==> init[i] == xs[i];
      ChainIncreasing(next, start, init);
      var last := |xs| - 1;
      if last > 0 {
        assert xs[last] == next(xs[last - 1]);
        assert xs[last - 1] < xs[last];
        assert forall i :: 0 <= i < last ==> start < xs[i] <= xs[last - 1];
      } else {
        assert xs[0] == next(start);
      }
    }
  }

  /** The recurring schedules of a reminder with a well-formed cron
      expression whose successor always advances are strictly increasing,
      later than `now`, and duplicate-free. */
  lemma RecurringSchedulesIncrease(r: Reminder, count: int, now: Instant,
                                   parse: string -> Option<CronRule>)
    requires r.RecurringReminder? && parse(r.scheduledCron).Some?
    requires forall t :: parse(r.scheduledCron).value.nextAfter(t) > t
    ensures var xs := NextSchedules(r, count, now, parse).right;
            && (forall i, j :: 0 <= i < j < |xs| ==> now < xs[i] < xs[j])
            && (forall i, j :: 0 <= i < |xs| && 0 <= j < |xs| && i != j ==> xs[i] != xs[j])
  {
    ChainIncreasing(parse(r.scheduledCron).value.nextAfter, now, NextSchedules(r, count, now, parse).right);
  }

  /** Conversely, a chain of `count` elements is exactly what the loop
      computes: `Iterate` is the only list with this shape. */
  lemma {:induction false} ChainUnique(next: Instant -> Instant, start: Instant, xs: seq<Instant>)
    requires IsChain(next, start, xs)
    ensures xs == Iterate(next, start, |xs|)
    decreases |xs|
  {
    if |xs| > 0 {
      var rest := xs[1..];
      assert forall i :: 1 <= i < |rest| ==> rest[i] == xs[i + 1];
      assert IsChain(next, xs[0], rest);
      ChainUnique(next, xs[0], rest);
      assert xs == [xs[0]] + rest;
    }
  }
}
