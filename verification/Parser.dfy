/** Schedules: validation, the next execution and its action (internal/scheduler/parser.go).
    Instants are nanoseconds; the clock is a parameter. */
module Parser {
  import opened Wrappers

  datatype Schedule = Schedule(
    kind: string, startTime: Option<int>, endTime: Option<int>, cronExpression: string, action: string)

  /** The cron library: which expressions it parses, and the instant it gives after another. */
  datatype Cron = Cron(parses: string -> bool, next: (string, int) -> int)

  datatype ScheduleError =
    | InvalidType | StartTimeRequired | EndNotAfterStart | CronNotAllowed | ActionNotAllowed
    | CronRequired | ActionRequired | InvalidAction | InvalidCron | StartNotAllowed | EndNotAllowed
    | NoActionNeeded

  function ValidateDateTime(s: Schedule): Option<ScheduleError> {
    if s.startTime == None then Some(StartTimeRequired)
    else if s.endTime.Some? && s.endTime.value <= s.startTime.value then Some(EndNotAfterStart)
    else if s.cronExpression != "" then Some(CronNotAllowed)
    else if s.action != "" then Some(ActionNotAllowed)
    else None
  }

  function ValidateCron(s: Schedule, cron: Cron): Option<ScheduleError> {
    if s.cronExpression == "" then Some(CronRequired)
    else if s.action == "" then Some(ActionRequired)
    else if s.action != "apply" && s.action != "remove" then Some(InvalidAction)
    else if !cron.parses(s.cronExpression) then Some(InvalidCron)
    else if s.startTime.Some? then Some(StartNotAllowed)
    else if s.endTime.Some? then Some(EndNotAllowed)
    else None
  }

  function ValidateSchedule(s: Schedule, cron: Cron): Option<ScheduleError> {
    if s.kind == "datetime" then ValidateDateTime(s)
    else if s.kind == "cron" then ValidateCron(s, cron)
    else Some(InvalidType)
  }

  /** The next execution: an instant, or none any more. */
  function CalculateNextExecution(
    s: Schedule, last: Option<int>, now: int, cron: Cron): Result<Option<int>, ScheduleError> {
    match ValidateSchedule(s, cron)
    case Some(e) => Err(e)
    case None =>
      if s.kind == "datetime" then
        if last == None && s.startTime.value > now then Ok(s.startTime)
        else if s.endTime.Some? && last == s.startTime && s.endTime.value > now then Ok(s.endTime)
        else Ok(None)
      else
        Ok(Some(cron.next(s.cronExpression, if last.Some? then last.value else now)))
  }

  /** The source calls it only after validation; without a start time it would dereference nil. */
  function GetExecutionAction(s: Schedule, last: Option<int>): Result<string, ScheduleError>
    requires s.kind == "datetime" ==> s.startTime.Some?
  {
    if s.kind == "datetime" then
      if last == None then Ok("apply")
      else if s.endTime.Some? && last == s.startTime then Ok("remove")
      else Err(NoActionNeeded)
    else if s.kind == "cron" then Ok(s.action)
    else Err(InvalidType)
  }

  /** Whenever there is a next execution there is an action for it, so scheduling a rule fails only if
      the schedule is invalid. */
  lemma NextExecutionHasAction(s: Schedule, last: Option<int>, now: int, cron: Cron)
    ensures CalculateNextExecution(s, last, now, cron).Err? <==> ValidateSchedule(s, cron).Some?
    ensures var next := CalculateNextExecution(s, last, now, cron);
      next.Ok? && next.value.Some? ==>
        && (s.kind == "datetime" ==> s.startTime.Some?)
        && GetExecutionAction(s, last).Ok? && GetExecutionAction(s, last).value in {"apply", "remove"}
  {
  }

  /** For a valid datetime schedule the next execution is apply at startTime or remove at endTime, each
      under exactly one condition. */
  lemma DateTimeNextExactly(s: Schedule, last: Option<int>, now: int, cron: Cron, t: int)
    requires s.kind == "datetime" && ValidateSchedule(s, cron) == None
    ensures CalculateNextExecution(s, last, now, cron) == Ok(Some(t)) && GetExecutionAction(s, last) == Ok("apply") <==>
      last == None && s.startTime == Some(t) && now < t
    ensures
      && CalculateNextExecution(s, last, now, cron) == Ok(Some(t))
      && GetExecutionAction(s, last) == Ok("remove")
      <==>
      last == s.startTime && s.endTime == Some(t) && now < t
  {
  }

  /** What a schedule must be: a start, and an end behind it if there is one; or an expression that parses, and an
      action. Nothing of the other kind is set. */
  predicate IsProper(s: Schedule, cron: Cron) {
    || (&& s.startTime.Some? && s == Schedule("datetime", s.startTime, s.endTime, "", "")
        && (s.endTime.Some? ==> s.startTime.value < s.endTime.value))
    || (&& s == Schedule("cron", None, None, s.cronExpression, s.action) && s.cronExpression != ""
        && s.action in {"apply", "remove"} && cron.parses(s.cronExpression))
  }

  lemma ValidExactly(s: Schedule, cron: Cron)
    ensures ValidateSchedule(s, cron) == None <==> IsProper(s, cron)
    ensures ValidateSchedule(s, cron) == Some(InvalidType) <==> s.kind != "datetime" && s.kind != "cron"
  {
    assert "datetime" != "cron";
  }

  /** Which defect of a datetime schedule is reported: the first in this order. */
  lemma DateTimeErrorsExactly(s: Schedule, cron: Cron)
    requires s.kind == "datetime"
    ensures var e := ValidateSchedule(s, cron);
      var ordered := s.startTime.Some? && (s.endTime.Some? ==> s.startTime.value < s.endTime.value);
      && (e == Some(StartTimeRequired) <==> s.startTime == None)
      && (e == Some(EndNotAfterStart) <==> s.startTime.Some? && !ordered)
      && (e == Some(CronNotAllowed) <==> ordered && s.cronExpression != "")
      && (e == Some(ActionNotAllowed) <==> ordered && s.cronExpression == "" && s.action != "")
  {
  }

  /** Which defect of a cron schedule is reported. */
  lemma CronErrorsExactly(s: Schedule, cron: Cron)
    requires s.kind == "cron"
    ensures var e := ValidateSchedule(s, cron);
      var complete := s.cronExpression != "" && s.action in {"apply", "remove"} && cron.parses(s.cronExpression);
      && (e == Some(CronRequired) <==> s.cronExpression == "")
      && (e == Some(ActionRequired) <==> s.cronExpression != "" && s.action == "")
      && (e == Some(InvalidAction) <==> s.cronExpression != "" && s.action !in {"", "apply", "remove"})
      && (e == Some(InvalidCron) <==>
            s.cronExpression != "" && s.action in {"apply", "remove"} && !cron.parses(s.cronExpression))
      && (e == Some(StartNotAllowed) <==> complete && s.startTime.Some?)
      && (e == Some(EndNotAllowed) <==> complete && s.startTime == None && s.endTime.Some?)
  {
  }

  /** A valid cron schedule always hands out its own action, at the expression's next instant: behind the recorded
      execution if there is one, and behind now otherwise. */
  lemma CronNextExactly(s: Schedule, last: Option<int>, now: int, cron: Cron)
    requires s.kind == "cron" && IsProper(s, cron)
    ensures Handed(s, last, now, cron) == Some(s.action)
    ensures last.Some? ==>
      CalculateNextExecution(s, last, now, cron) == Ok(Some(cron.next(s.cronExpression, last.value)))
    ensures last == None ==> CalculateNextExecution(s, last, now, cron) == Ok(Some(cron.next(s.cronExpression, now)))
  {
    ValidExactly(s, cron);
  }

  /* The life of a rule: scheduling it hands out an action, and an execution is recorded. */

  datatype LifeEvent = Ask(now: int) | Record(time: int)

  /** An action handed out, and the number of executions recorded before. */
  datatype HandOut = HandOut(phase: nat, action: string)

  datatype Life = Life(last: Option<int>, phase: nat, handed: seq<HandOut>)

  const NEWBORN := Life(None, 0, [])

  /** Executions are recorded at increasing times. */
  predicate MayHappen(life: Life, e: LifeEvent) {
    e.Record? && life.last.Some? ==> e.time > life.last.value
  }

  function Handed(s: Schedule, last: Option<int>, now: int, cron: Cron): Option<string> {
    match CalculateNextExecution(s, last, now, cron)
    case Ok(Some(_)) =>
      (match GetExecutionAction(s, last) case Ok(action) => Some(action) case Err(_) => None)
    case _ => None
  }

  function AfterLifeEvent(s: Schedule, cron: Cron, life: Life, e: LifeEvent): Life {
    match e
    case Ask(now) =>
      (match Handed(s, life.last, now, cron)
       case Some(action) => life.(handed := life.handed + [HandOut(life.phase, action)])
       case None => life)
    case Record(time) => life.(last := Some(time), phase := life.phase + 1)
  }

  ghost predicate Lives(s: Schedule, cron: Cron, life: Life, events: seq<LifeEvent>)
    decreases events
  {
    events == [] ||
    (MayHappen(life, events[0]) && Lives(s, cron, AfterLifeEvent(s, cron, life, events[0]), events[1..]))
  }

  function AfterLife(s: Schedule, cron: Cron, life: Life, events: seq<LifeEvent>): Life
    decreases events
  {
    if events == [] then life else AfterLife(s, cron, AfterLifeEvent(s, cron, life, events[0]), events[1..])
  }

  /** The actions handed out, one for each stretch between recorded executions. */
  function Actions(handed: seq<HandOut>): seq<string> {
    if handed == [] then []
    else
      var n := |handed| - 1;
      Actions(handed[..n]) + if n > 0 && handed[n - 1].phase == handed[n].phase then [] else [handed[n].action]
  }

  /** Applies come first, before anything is recorded; removes come all in the one stretch in which the
      recorded time is the start time. */
  ghost predicate GoodLife(s: Schedule, life: Life) {
    && (life.last == None <==> life.phase == 0)
    && (forall i | 0 <= i < |life.handed| :: var h := life.handed[i];
         && h.phase <= life.phase
         && h.action == (if h.phase == 0 then "apply" else "remove")
         && (h.phase == life.phase > 0 ==> life.last == s.startTime)
         && (0 < h.phase < life.phase ==> life.last.Some? && s.startTime.Some? && life.last.value > s.startTime.value))
    && (forall i, j | 0 <= i < j < |life.handed| ::
          life.handed[i].phase == 0 || life.handed[i].phase == life.handed[j].phase)
  }

  lemma LifeEventKeepsGood(s: Schedule, cron: Cron, life: Life, e: LifeEvent)
    requires s.kind == "datetime" && ValidateSchedule(s, cron) == None
    requires GoodLife(s, life) && MayHappen(life, e)
    ensures GoodLife(s, AfterLifeEvent(s, cron, life, e))
  {
  }

  lemma {:induction false} ActionsOfGood(handed: seq<HandOut>)
    requires forall i | 0 <= i < |handed| :: handed[i].action == if handed[i].phase == 0 then "apply" else "remove"
    requires forall i, j | 0 <= i < j < |handed| :: handed[i].phase == 0 || handed[i].phase == handed[j].phase
    ensures Actions(handed) ==
      if handed == [] then []
      else if handed[|handed| - 1].phase == 0 then ["apply"]
      else if handed[0].phase == 0 then ["apply", "remove"]
      else ["remove"]
  {
    if handed == [] {
    } else if |handed| == 1 {
      assert handed[..0] == [];
    } else {
      ActionsOfGood(handed[..|handed| - 1]);
    }
  }

  lemma RemoveFirstIsNoPrefix()
    ensures !(["remove"] <= ["apply", "remove"])
  {
    assert |"apply"| == 5 && |"remove"| == 6;
    assert ["remove"][0] != ["apply", "remove"][0];
  }

  /** The actions form a prefix of apply, remove unless the first of them is a remove. */
  lemma PrefixIfAppliedFirst(handed: seq<HandOut>)
    requires forall i | 0 <= i < |handed| :: handed[i].action == if handed[i].phase == 0 then "apply" else "remove"
    requires forall i, j | 0 <= i < j < |handed| :: handed[i].phase == 0 || handed[i].phase == handed[j].phase
    ensures Actions(handed) <= ["apply", "remove"] <==> handed == [] || handed[0].phase == 0
  {
    ActionsOfGood(handed);
    RemoveFirstIsNoPrefix();
  }

  lemma {:induction false} LifeStaysGood(s: Schedule, cron: Cron, life: Life, events: seq<LifeEvent>)
    requires s.kind == "datetime" && ValidateSchedule(s, cron) == None
    requires GoodLife(s, life) && Lives(s, cron, life, events)
    ensures GoodLife(s, AfterLife(s, cron, life, events))
    decreases events
  {
    if events == [] {
    } else {
      LifeEventKeepsGood(s, cron, life, events[0]);
      LifeStaysGood(s, cron, AfterLifeEvent(s, cron, life, events[0]), events[1..]);
    }
  }

  /** Executions are recorded only of tasks that were handed out. */
  ghost predicate OnlyExecuted(s: Schedule, cron: Cron, life: Life, events: seq<LifeEvent>)
    decreases events
  {
    events == [] ||
    ((events[0].Record? ==> life.handed != [])
      && OnlyExecuted(s, cron, AfterLifeEvent(s, cron, life, events[0]), events[1..]))
  }

  lemma {:induction false} FirstActionIsApply(s: Schedule, cron: Cron, life: Life, events: seq<LifeEvent>)
    requires GoodLife(s, life) && Lives(s, cron, life, events) && OnlyExecuted(s, cron, life, events)
    requires s.kind == "datetime" && ValidateSchedule(s, cron) == None
    requires if life.handed == [] then life.phase == 0 else life.handed[0].phase == 0
    ensures var after := AfterLife(s, cron, life, events);
      if after.handed == [] then after.phase == 0 else after.handed[0].phase == 0
    decreases events
  {
    if events == [] {
    } else {
      LifeEventKeepsGood(s, cron, life, events[0]);
      FirstActionIsApply(s, cron, AfterLifeEvent(s, cron, life, events[0]), events[1..]);
    }
  }

  /** Over the whole life of a datetime rule the actions handed out between recorded executions form a
      prefix of apply, remove; and nothing is handed out after a recorded time later than the start. */
  lemma ActionsFormPrefix(s: Schedule, cron: Cron, events: seq<LifeEvent>, now: int)
    requires s.kind == "datetime" && ValidateSchedule(s, cron) == None
    requires Lives(s, cron, NEWBORN, events) && OnlyExecuted(s, cron, NEWBORN, events)
    ensures var life := AfterLife(s, cron, NEWBORN, events);
      && Actions(life.handed) <= ["apply", "remove"]
      && (life.last.Some? && life.last.value > s.startTime.value ==> Handed(s, life.last, now, cron) == None)
  {
    LifeStaysGood(s, cron, NEWBORN, events);
    FirstActionIsApply(s, cron, NEWBORN, events);
    PrefixIfAppliedFirst(AfterLife(s, cron, NEWBORN, events).handed);
  }

  /* Without that discipline: a recorded time that no task of this rule is behind, such as a status that was
     written by hand. */

  lemma {:induction false} LifeInTwo(s: Schedule, cron: Cron, life: Life, events: seq<LifeEvent>, k: nat)
    requires k <= |events|
    ensures AfterLife(s, cron, life, events) == AfterLife(s, cron, AfterLife(s, cron, life, events[..k]), events[k..])
    decreases events
  {
    if k == 0 {
      assert events[..0] == [] && events[0..] == events;
    } else {
      assert events[..k][0] == events[0] && events[..k][1..] == events[1..][..k - 1]
        && events[k..] == events[1..][k - 1..];
      LifeInTwo(s, cron, AfterLifeEvent(s, cron, life, events[0]), events[1..], k - 1);
    }
  }

  lemma {:induction false} HandOutsStay(s: Schedule, cron: Cron, life: Life, events: seq<LifeEvent>)
    ensures life.handed <= AfterLife(s, cron, life, events).handed
    decreases events
  {
    if events == [] {
    } else {
      HandOutsStay(s, cron, AfterLifeEvent(s, cron, life, events[0]), events[1..]);
    }
  }

  /** The k-th event of a life is a query that is the first to get an action. */
  ghost predicate FirstHandOut(s: Schedule, cron: Cron, events: seq<LifeEvent>, k: nat) {
    && k < |events| && events[k].Ask?
    && var life := AfterLife(s, cron, NEWBORN, events[..k]);
       life.handed == [] && Handed(s, life.last, events[k].now, cron).Some?
  }

  lemma FirstHandOutStays(s: Schedule, cron: Cron, events: seq<LifeEvent>, k: nat)
    requires FirstHandOut(s, cron, events, k)
    ensures var life := AfterLife(s, cron, NEWBORN, events[..k]);
      var handed := AfterLife(s, cron, NEWBORN, events).handed;
      handed != [] && handed[0] == HandOut(life.phase, Handed(s, life.last, events[k].now, cron).value)
  {
    var life := AfterLife(s, cron, NEWBORN, events[..k]);
    LifeInTwo(s, cron, NEWBORN, events, k);
    assert events[k..][0] == events[k];
    HandOutsStay(s, cron, AfterLifeEvent(s, cron, life, events[k]), events[k..][1..]);
  }

  lemma {:induction false} FirstHandOutExists(s: Schedule, cron: Cron, events: seq<LifeEvent>)
    requires AfterLife(s, cron, NEWBORN, events).handed != []
    ensures exists k: nat :: FirstHandOut(s, cron, events, k)
    decreases |events|
  {
    if events == [] {
    } else {
      var n := |events| - 1;
      var front := events[..n];
      LifeInTwo(s, cron, NEWBORN, events, n);
      assert events[n..] == [events[n]] && events[n..][1..] == [];
      if AfterLife(s, cron, NEWBORN, front).handed == [] {
        assert FirstHandOut(s, cron, events, n);
      } else {
        FirstHandOutExists(s, cron, front);
        var k: nat :| FirstHandOut(s, cron, front, k);
        assert front[..k] == events[..k];
        assert FirstHandOut(s, cron, events, k);
      }
    }
  }

  /** Of all lives with increasing recorded times, the actions fail to form a prefix in exactly those in which
      the first query to get an action comes when the recorded time is the start time already. */
  lemma PrefixFailsExactly(s: Schedule, cron: Cron, events: seq<LifeEvent>)
    requires s.kind == "datetime" && ValidateSchedule(s, cron) == None && Lives(s, cron, NEWBORN, events)
    ensures !(Actions(AfterLife(s, cron, NEWBORN, events).handed) <= ["apply", "remove"]) <==>
      exists k: nat :: FirstHandOut(s, cron, events, k) && AfterLife(s, cron, NEWBORN, events[..k]).last == s.startTime
  {
    var life := AfterLife(s, cron, NEWBORN, events);
    LifeStaysGood(s, cron, NEWBORN, events);
    PrefixIfAppliedFirst(life.handed);
    forall k: nat | FirstHandOut(s, cron, events, k)
      ensures life.handed != []
        && (life.handed[0].phase > 0 <==> AfterLife(s, cron, NEWBORN, events[..k]).last == s.startTime)
    {
      FirstHandOutStays(s, cron, events, k);
      FirstPhase(s, cron, events, k);
    }
    if life.handed != [] {
      FirstHandOutExists(s, cron, events);
    }
  }

  lemma FirstPhase(s: Schedule, cron: Cron, events: seq<LifeEvent>, k: nat)
    requires s.kind == "datetime" && ValidateSchedule(s, cron) == None && Lives(s, cron, NEWBORN, events)
    requires FirstHandOut(s, cron, events, k)
    ensures var before := AfterLife(s, cron, NEWBORN, events[..k]); before.phase > 0 <==> before.last == s.startTime
  {
    LivesFront(s, cron, NEWBORN, events, k);
    LifeStaysGood(s, cron, NEWBORN, events[..k]);
  }

  lemma {:induction false} LivesFront(s: Schedule, cron: Cron, life: Life, events: seq<LifeEvent>, k: nat)
    requires Lives(s, cron, life, events) && k <= |events|
    ensures Lives(s, cron, life, events[..k])
    decreases events
  {
    if k == 0 {
    } else {
      assert events[..k][1..] == events[1..][..k - 1];
      LivesFront(s, cron, AfterLifeEvent(s, cron, life, events[0]), events[1..], k - 1);
    }
  }

  /** Such a life: a rule whose status names its start time before it was ever scheduled gets a remove and
      no apply. */
  lemma RemoveWithoutApply(start: int, end: int, now: int, cron: Cron)
    requires now < end && start < end
    ensures var s := Schedule("datetime", Some(start), Some(end), "", ""); var events := [Record(start), Ask(now)];
      && ValidateSchedule(s, cron) == None && Lives(s, cron, NEWBORN, events)
      && Actions(AfterLife(s, cron, NEWBORN, events).handed) == ["remove"]
  {
    var s, events := Schedule("datetime", Some(start), Some(end), "", ""), [Record(start), Ask(now)];
    var recorded := AfterLifeEvent(s, cron, NEWBORN, events[0]);
    assert events[1..] == [Ask(now)] && events[1..][1..] == [];
    assert Handed(s, Some(start), now, cron) == Some("remove");
    var asked := AfterLifeEvent(s, cron, recorded, events[1]);
    assert asked.handed == [HandOut(1, "remove")] && asked.handed[..0] == [];
    assert Lives(s, cron, asked, []) && Lives(s, cron, recorded, events[1..]);
    assert AfterLife(s, cron, recorded, events[1..]) == AfterLife(s, cron, asked, []) == asked;
  }

  /** Remove is handed out exactly when the recorded execution time equals the start time and the end is
      still ahead. */
  lemma RemoveNeedsTheExactStart(s: Schedule, cron: Cron, last: Option<int>, now: int)
    requires s.kind == "datetime" && ValidateSchedule(s, cron) == None
    ensures Handed(s, last, now, cron) == Some("remove") <==>
      last == s.startTime && s.endTime.Some? && now < s.endTime.value
  {
  }
}
