/** The time scheduler as a state machine: its task map, its bounded queue, one scheduler loop, and
    workers behind a semaphore, interleaved in any way (internal/scheduler/scheduler.go). One Start,
    no Stop. */
module SchedulerModel {
  import opened Wrappers
  import opened Parser
  import Groups
  import CacheModel

  const MINUTE := 60_000_000_000

  /** What a task carries from its rule, unchanged. */
  datatype Payload = Payload(
    annotations: map<string, string>, annotationGroups: seq<Groups.Group>, selector: CacheModel.Selector,
    targetResources: seq<string>, templateVariables: map<string, string>, conflictResolution: string)

  datatype Rule = Rule(
    namespace: string, name: string, schedule: Schedule, lastExecution: Option<int>, payload: Payload)

  datatype Task = Task(
    ruleID: string, ruleName: string, ruleNamespace: string, action: string, executeAt: int, payload: Payload)

  function RuleID(rule: Rule): string {
    rule.namespace + "/" + rule.name
  }

  /** The task that ScheduleRule makes of a rule at an instant, if there is a next execution. */
  function TaskFor(rule: Rule, now: int, cron: Cron): Option<Task> {
    match CalculateNextExecution(rule.schedule, rule.lastExecution, now, cron)
    case Ok(Some(at)) =>
      NextExecutionHasAction(rule.schedule, rule.lastExecution, now, cron);
      (match GetExecutionAction(rule.schedule, rule.lastExecution)
       case Ok(action) => Some(Task(RuleID(rule), rule.name, rule.namespace, action, at, rule.payload))
       case Err(_) => None)
    case _ => None
  }

  /** The task of a rule in terms of its schedule: a cron rule gets its own action at the expression's next
      instant, a datetime rule apply at its start before anything is recorded, and remove at its end once an
      execution at its start is. */
  predicate IsTaskOf(task: Task, rule: Rule, now: int, cron: Cron) {
    var s, last := rule.schedule, rule.lastExecution;
    && IsProper(s, cron)
    && task.ruleID == rule.namespace + "/" + rule.name
    && task.ruleName == rule.name && task.ruleNamespace == rule.namespace && task.payload == rule.payload
    && if s.kind == "cron" then
         && task.action == s.action
         && task.executeAt == cron.next(s.cronExpression, if last == None then now else last.value)
       else
         && now < task.executeAt
         && (|| (task.action == "apply" && last == None && s.startTime == Some(task.executeAt))
             || (task.action == "remove" && last == s.startTime && s.endTime == Some(task.executeAt)))
  }

  lemma TaskForExactly(rule: Rule, now: int, cron: Cron, task: Task)
    ensures TaskFor(rule, now, cron) == Some(task) <==> IsTaskOf(task, rule, now, cron)
  {
    ValidExactly(rule.schedule, cron);
  }

  type Tasks = map<string, Task>

  /** ScheduleRule on the task map: an invalid schedule changes nothing, a completed one drops the rule. */
  function AfterSchedule(tasks: Tasks, rule: Rule, now: int, cron: Cron): Tasks {
    if ValidateSchedule(rule.schedule, cron).Some? then tasks
    else
      match TaskFor(rule, now, cron)
      case Some(task) => tasks[RuleID(rule) := task]
      case None => tasks - {RuleID(rule)}
  }

  /** Ready to execute, with a minute's tolerance. */
  predicate Due(task: Task, now: int) {
    task.executeAt < now + MINUTE
  }

  /** The tasks that a tick collects, in some iteration order. */
  ghost predicate IsSnapshot(tasks: Tasks, now: int, snapshot: seq<Task>) {
    && (forall t | t in snapshot :: t.ruleID in tasks && tasks[t.ruleID] == t && Due(t, now))
    && (forall id | id in tasks && Due(tasks[id], now) :: tasks[id] in snapshot)
    && (forall i, j | 0 <= i < j < |snapshot| :: snapshot[i] != snapshot[j])
  }

  /** A collected task and the clock at the tick. */
  datatype Queued = Queued(task: Task, at: int)

  datatype Worker =
    | Idle
    | Holding(item: Queued)    // taken off the queue, waiting for the semaphore
    | Executing(item: Queued)  // token held, ExecuteTask not yet called
    | Executed(item: Queued)   // ExecuteTask returned
    | Deleted                  // map entry deleted, token not yet returned
    | Exited

  datatype Execution = Execution(item: Queued, startedAt: int)

  datatype Config = Config(queueCapacity: nat, maxConcurrency: nat, cron: Cron)

  datatype State = State(
    tasks: Tasks,
    pending: seq<Queued>,        // collected by the last tick, not yet offered to the queue
    queue: seq<Queued>,
    workers: seq<Worker>,
    tokens: nat,
    clock: int,
    cancelled: bool,
    // history
    installed: set<Task>,
    offered: seq<(Queued, bool)>, // each offer to the queue, and whether it was accepted
    taken: seq<Queued>,
    executed: seq<Execution>,
    abandoned: seq<Queued>)

  datatype Event =
    | ScheduleRule(rule: Rule)
    | UnscheduleRule(ruleID: string)
    | Tick(snapshot: seq<Task>)
    | Offer
    | Take(worker: nat)
    | Acquire(worker: nat)
    | Execute(worker: nat)
    | Delete(worker: nat)
    | Release(worker: nat)
    | Advance(clock: int)
    | Cancel
    | Abandon(worker: nat)
    | Exit(worker: nat)

  function Initial(c: Config, clock: int): State {
    State(map[], [], [], seq(c.maxConcurrency, _ => Idle), 0, clock, false, {}, [], [], [], [])
  }

  predicate Possible(s: State, e: Event, c: Config) {
    match e
    case ScheduleRule(_) => true
    case UnscheduleRule(_) => true
    case Tick(snapshot) => s.pending == []
    case Offer => s.pending != []
    case Take(w) => w < |s.workers| && s.workers[w].Idle? && s.queue != []
    case Acquire(w) => w < |s.workers| && s.workers[w].Holding? && s.tokens < c.maxConcurrency
    case Execute(w) => w < |s.workers| && s.workers[w].Executing?
    case Delete(w) => w < |s.workers| && s.workers[w].Executed?
    case Release(w) => w < |s.workers| && s.workers[w].Deleted? && s.tokens > 0
    case Advance(clock) => s.clock <= clock
    case Cancel => true
    case Abandon(w) => s.cancelled && w < |s.workers| && s.workers[w].Holding?
    case Exit(w) => s.cancelled && w < |s.workers| && s.workers[w].Idle?
  }

  /** A step of the state machine; a tick's snapshot may be any iteration order of what is due. */
  ghost predicate Enabled(s: State, e: Event, c: Config) {
    Possible(s, e, c) && (e.Tick? ==> IsSnapshot(s.tasks, s.clock, e.snapshot))
  }

  function Mark(snapshot: seq<Task>, now: int): seq<Queued> {
    seq(|snapshot|, i requires 0 <= i < |snapshot| => Queued(snapshot[i], now))
  }

  function After(s: State, e: Event, c: Config): State
    requires Possible(s, e, c)
  {
    match e
    case ScheduleRule(rule) =>
      s.(tasks := AfterSchedule(s.tasks, rule, s.clock, c.cron),
         installed := match TaskFor(rule, s.clock, c.cron) case Some(t) => s.installed + {t} case None => s.installed)
    case UnscheduleRule(id) => s.(tasks := s.tasks - {id})
    case Tick(snapshot) => s.(pending := Mark(snapshot, s.clock))
    case Offer =>
      var accepted := |s.queue| < c.queueCapacity;
      s.(pending := s.pending[1..],
         queue := if accepted then s.queue + [s.pending[0]] else s.queue,
         offered := s.offered + [(s.pending[0], accepted)])
    case Take(w) =>
      s.(queue := s.queue[1..], workers := s.workers[w := Holding(s.queue[0])], taken := s.taken + [s.queue[0]])
    case Acquire(w) => s.(tokens := s.tokens + 1, workers := s.workers[w := Executing(s.workers[w].item)])
    case Execute(w) =>
      s.(workers := s.workers[w := Executed(s.workers[w].item)],
         executed := s.executed + [Execution(s.workers[w].item, s.clock)])
    case Delete(w) => s.(tasks := s.tasks - {s.workers[w].item.task.ruleID}, workers := s.workers[w := Deleted])
    case Release(w) => s.(tokens := s.tokens - 1, workers := s.workers[w := Idle])
    case Advance(clock) => s.(clock := clock)
    case Cancel => s.(cancelled := true)
    case Abandon(w) => s.(workers := s.workers[w := Idle], abandoned := s.abandoned + [s.workers[w].item])
    case Exit(w) => s.(workers := s.workers[w := Exited])
  }

  ghost predicate Runs(s: State, events: seq<Event>, c: Config)
    decreases events
  {
    events == [] || (Enabled(s, events[0], c) && Runs(After(s, events[0], c), events[1..], c))
  }

  ghost function AfterRun(s: State, events: seq<Event>, c: Config): State
    requires Runs(s, events, c)
    decreases events
  {
    if events == [] then s else AfterRun(After(s, events[0], c), events[1..], c)
  }

  /* The semaphore. */

  predicate IsBusy(w: Worker) {
    w.Executing? || w.Executed? || w.Deleted?
  }

  function Count(workers: seq<Worker>, p: Worker -> bool): nat {
    if workers == [] then 0 else (if p(workers[0]) then 1 else 0) + Count(workers[1..], p)
  }

  lemma {:induction false} CountUpdate(workers: seq<Worker>, i: nat, w: Worker, p: Worker -> bool)
    requires i < |workers|
    ensures Count(workers[i := w], p) + (if p(workers[i]) then 1 else 0) == Count(workers, p) + (if p(w) then 1 else 0)
    ensures Count(workers, p) <= |workers|
    ensures !p(workers[i]) ==> Count(workers, p) < |workers|
  {
    if i == 0 {
      CountBound(workers[1..], p);
      assert workers[0 := w][1..] == workers[1..];
    } else {
      CountUpdate(workers[1..], i - 1, w, p);
      assert workers[i := w][1..] == workers[1..][i - 1 := w];
    }
  }

  lemma {:induction false} CountBound(workers: seq<Worker>, p: Worker -> bool)
    ensures Count(workers, p) <= |workers|
  {
    if workers == [] {
    } else {
      CountBound(workers[1..], p);
    }
  }

  lemma {:induction false} CountNone(workers: seq<Worker>, p: Worker -> bool)
    requires forall w | w in workers :: !p(w)
    ensures Count(workers, p) == 0
  {
    if workers == [] {
    } else {
      CountNone(workers[1..], p);
    }
  }

  /** The workers that have a task in hand, and have not executed it yet. */
  function HasInHand(item: Queued): Worker -> bool {
    (w: Worker) => (w.Holding? || w.Executing?) && w.item == item
  }

  function ItemsExecuted(executed: seq<Execution>): seq<Queued> {
    if executed == [] then [] else ItemsExecuted(executed[..|executed| - 1]) + [executed[|executed| - 1].item]
  }

  /* The invariant of every run. */

  /** A task that ScheduleRule installed, collected when it was due. */
  predicate Genuine(s: State, item: Queued) {
    item.task in s.installed && Due(item.task, item.at) && item.at <= s.clock
  }

  ghost predicate TasksAreInstalled(s: State) {
    forall id | id in s.tasks :: s.tasks[id].ruleID == id && s.tasks[id] in s.installed
  }

  ghost predicate AllGenuine(s: State) {
    && (forall item | item in s.pending :: Genuine(s, item))
    && (forall item | item in s.queue :: Genuine(s, item))
    && (forall w | w in s.workers && (w.Holding? || w.Executing? || w.Executed?) :: Genuine(s, w.item))
  }

  /** Nothing is executed that was not installed, or more than a minute early. */
  ghost predicate ExecutedGenuine(s: State) {
    forall x | x in s.executed ::
      && x.item.task in s.installed
      && x.item.task.executeAt < x.item.at + MINUTE <= x.startedAt + MINUTE
      && x.startedAt <= s.clock
  }

  function Accepted(offers: seq<(Queued, bool)>): seq<Queued> {
    if offers == [] then []
    else Accepted(offers[..|offers| - 1]) + if offers[|offers| - 1].1 then [offers[|offers| - 1].0] else []
  }

  /** A task was taken as often as it was executed, was abandoned, and is in hand. */
  ghost predicate TakenIsAccounted(s: State, item: Queued) {
    multiset(s.taken)[item] ==
      multiset(ItemsExecuted(s.executed))[item] + multiset(s.abandoned)[item] + Count(s.workers, HasInHand(item))
  }

  /** The queue is first in, first out, and loses nothing: what was accepted is what was taken, then
      what is still queued; and each task that was taken was executed, was abandoned, or is in hand. */
  ghost predicate NothingVanishes(s: State) {
    && Accepted(s.offered) == s.taken + s.queue
    && forall item :: TakenIsAccounted(s, item)
  }

  ghost predicate Bounded(s: State, c: Config) {
    && |s.workers| == c.maxConcurrency
    && |s.queue| <= c.queueCapacity
    && s.tokens == Count(s.workers, IsBusy)
  }

  ghost predicate Good(s: State, c: Config) {
    Bounded(s, c) && NothingVanishes(s) && TasksAreInstalled(s) && AllGenuine(s) && ExecutedGenuine(s)
  }

  lemma InitialIsGood(c: Config, clock: int)
    ensures Good(Initial(c, clock), c)
  {
    CountNone(Initial(c, clock).workers, IsBusy);
    forall item
      ensures TakenIsAccounted(Initial(c, clock), item)
    {
      CountNone(Initial(c, clock).workers, HasInHand(item));
    }
  }

  /** The worker that an event moves, and to where. */
  function Moved(s: State, e: Event, c: Config): Option<nat>
    requires Possible(s, e, c)
  {
    match e
    case Take(w) => Some(w)
    case Acquire(w) => Some(w)
    case Execute(w) => Some(w)
    case Delete(w) => Some(w)
    case Release(w) => Some(w)
    case Abandon(w) => Some(w)
    case Exit(w) => Some(w)
    case _ => None
  }

  lemma CountAfter(s: State, e: Event, c: Config, p: Worker -> bool)
    requires Possible(s, e, c)
    ensures var after := After(s, e, c);
      match Moved(s, e, c)
      case None => after.workers == s.workers
      case Some(w) =>
        && w < |s.workers| && |after.workers| == |s.workers| && after.workers == s.workers[w := after.workers[w]]
        && Count(after.workers, p) + (if p(s.workers[w]) then 1 else 0) ==
           Count(s.workers, p) + (if p(after.workers[w]) then 1 else 0)
  {
    match Moved(s, e, c)
    case None =>
    case Some(w) => CountUpdate(s.workers, w, After(s, e, c).workers[w], p);
  }

  lemma KeepsBounded(s: State, e: Event, c: Config)
    requires Bounded(s, c) && Possible(s, e, c)
    ensures Bounded(After(s, e, c), c)
  {
    CountAfter(s, e, c, IsBusy);
  }

  lemma AcceptedGrows(offers: seq<(Queued, bool)>, offer: (Queued, bool))
    ensures Accepted(offers + [offer]) == if offer.1 then Accepted(offers) + [offer.0] else Accepted(offers)
  {
    assert (offers + [offer])[..|offers|] == offers;
  }

  lemma LastMoves(taken: seq<Queued>, queue: seq<Queued>, item: Queued)
    ensures taken + queue + [item] == taken + (queue + [item])
  {
  }

  lemma FirstMoves(front: seq<Queued>, back: seq<Queued>)
    requires back != []
    ensures front + [back[0]] + back[1..] == front + back
  {
  }

  lemma KeepsQueueInOrder(s: State, e: Event, c: Config)
    requires Accepted(s.offered) == s.taken + s.queue && Possible(s, e, c)
    ensures var after := After(s, e, c); Accepted(after.offered) == after.taken + after.queue
  {
    if e.Offer? {
      AcceptedGrows(s.offered, (s.pending[0], |s.queue| < c.queueCapacity));
      LastMoves(s.taken, s.queue, s.pending[0]);
    } else if e.Take? {
      FirstMoves(s.taken, s.queue);
    }
  }

  lemma OneMore(items: seq<Queued>, more: Queued, item: Queued)
    ensures multiset(items + [more])[item] == multiset(items)[item] + if more == item then 1 else 0
  {
  }

  lemma TakeKeepsTaken(s: State, w: nat, c: Config, item: Queued)
    requires TakenIsAccounted(s, item) && Possible(s, Take(w), c)
    ensures TakenIsAccounted(After(s, Take(w), c), item)
  {
    CountUpdate(s.workers, w, Holding(s.queue[0]), HasInHand(item));
    OneMore(s.taken, s.queue[0], item);
  }

  lemma ExecuteKeepsTaken(s: State, w: nat, c: Config, item: Queued)
    requires TakenIsAccounted(s, item) && Possible(s, Execute(w), c)
    ensures TakenIsAccounted(After(s, Execute(w), c), item)
  {
    var after := After(s, Execute(w), c);
    CountUpdate(s.workers, w, Executed(s.workers[w].item), HasInHand(item));
    assert after.executed[..|after.executed| - 1] == s.executed;
    OneMore(ItemsExecuted(s.executed), s.workers[w].item, item);
  }

  lemma AbandonKeepsTaken(s: State, w: nat, c: Config, item: Queued)
    requires TakenIsAccounted(s, item) && Possible(s, Abandon(w), c)
    ensures TakenIsAccounted(After(s, Abandon(w), c), item)
  {
    CountUpdate(s.workers, w, Idle, HasInHand(item));
    OneMore(s.abandoned, s.workers[w].item, item);
  }

  lemma OtherKeepsTaken(s: State, e: Event, c: Config, item: Queued)
    requires TakenIsAccounted(s, item) && Possible(s, e, c) && !e.Take? && !e.Execute? && !e.Abandon?
    ensures TakenIsAccounted(After(s, e, c), item)
  {
    CountAfter(s, e, c, HasInHand(item));
    var after := After(s, e, c);
    assert after.taken == s.taken && after.executed == s.executed && after.abandoned == s.abandoned;
  }

  lemma KeepsTaken(s: State, e: Event, c: Config, item: Queued)
    requires TakenIsAccounted(s, item) && Possible(s, e, c)
    ensures TakenIsAccounted(After(s, e, c), item)
  {
    if e.Take? {
      TakeKeepsTaken(s, e.worker, c, item);
    } else if e.Execute? {
      ExecuteKeepsTaken(s, e.worker, c, item);
    } else if e.Abandon? {
      AbandonKeepsTaken(s, e.worker, c, item);
    } else {
      OtherKeepsTaken(s, e, c, item);
    }
  }

  lemma KeepsNothingVanishing(s: State, e: Event, c: Config)
    requires NothingVanishes(s) && Possible(s, e, c)
    ensures NothingVanishes(After(s, e, c))
  {
    KeepsQueueInOrder(s, e, c);
    forall item
      ensures TakenIsAccounted(After(s, e, c), item)
    {
      KeepsTaken(s, e, c, item);
    }
  }

  lemma TaskForIsOwn(rule: Rule, now: int, cron: Cron)
    ensures TaskFor(rule, now, cron).Some? ==> TaskFor(rule, now, cron).value.ruleID == RuleID(rule)
  {
  }

  lemma KeepsTasksInstalled(s: State, e: Event, c: Config)
    requires TasksAreInstalled(s) && Possible(s, e, c)
    ensures TasksAreInstalled(After(s, e, c)) && s.installed <= After(s, e, c).installed
  {
    if e.ScheduleRule? {
      TaskForIsOwn(e.rule, s.clock, c.cron);
    }
  }

  lemma GenuineStays(s: State, e: Event, c: Config, item: Queued)
    requires TasksAreInstalled(s) && Possible(s, e, c) && Genuine(s, item)
    ensures Genuine(After(s, e, c), item)
  {
    KeepsTasksInstalled(s, e, c);
    assert s.clock <= After(s, e, c).clock;
  }

  lemma KeepsPendingGenuine(s: State, e: Event, c: Config)
    requires TasksAreInstalled(s) && AllGenuine(s) && Enabled(s, e, c)
    ensures var after := After(s, e, c);
      && (forall item | item in after.pending :: Genuine(after, item))
      && forall item | item in after.queue :: Genuine(after, item)
  {
    var after := After(s, e, c);
    forall item | Genuine(s, item)
      ensures Genuine(after, item)
    {
      GenuineStays(s, e, c, item);
    }
    if e.Tick? {
      forall item | item in after.pending
        ensures Genuine(after, item)
      {
        var i :| 0 <= i < |e.snapshot| && item == Queued(e.snapshot[i], s.clock);
        assert e.snapshot[i] in e.snapshot;
      }
    }
  }

  lemma KeepsWorkersGenuine(s: State, e: Event, c: Config)
    requires TasksAreInstalled(s) && AllGenuine(s) && Possible(s, e, c)
    ensures var after := After(s, e, c);
      forall w | w in after.workers && (w.Holding? || w.Executing? || w.Executed?) :: Genuine(after, w.item)
  {
    var after := After(s, e, c);
    CountAfter(s, e, c, IsBusy);
    forall w | w in after.workers && (w.Holding? || w.Executing? || w.Executed?)
      ensures Genuine(after, w.item)
    {
      if w !in s.workers {
        assert Moved(s, e, c).Some?;
      }
      GenuineStays(s, e, c, w.item);
    }
  }

  lemma KeepsExecutedGenuine(s: State, e: Event, c: Config)
    requires TasksAreInstalled(s) && AllGenuine(s) && ExecutedGenuine(s) && Possible(s, e, c)
    ensures ExecutedGenuine(After(s, e, c))
  {
    KeepsTasksInstalled(s, e, c);
    assert s.clock <= After(s, e, c).clock;
    if e.Execute? {
      assert s.workers[e.worker] in s.workers;
    }
  }

  lemma KeepsGenuine(s: State, e: Event, c: Config)
    requires TasksAreInstalled(s) && AllGenuine(s) && ExecutedGenuine(s) && Enabled(s, e, c)
    ensures AllGenuine(After(s, e, c)) && ExecutedGenuine(After(s, e, c))
  {
    KeepsPendingGenuine(s, e, c);
    KeepsWorkersGenuine(s, e, c);
    KeepsExecutedGenuine(s, e, c);
  }

  lemma EventKeepsGood(s: State, e: Event, c: Config)
    requires Good(s, c) && Enabled(s, e, c)
    ensures Good(After(s, e, c), c)
  {
    KeepsBounded(s, e, c);
    KeepsNothingVanishing(s, e, c);
    KeepsTasksInstalled(s, e, c);
    KeepsGenuine(s, e, c);
  }

  lemma {:induction false} RunKeepsGood(s: State, events: seq<Event>, c: Config)
    requires Good(s, c) && Runs(s, events, c)
    ensures Good(AfterRun(s, events, c), c)
    decreases events
  {
    if events == [] {
    } else {
      EventKeepsGood(s, events[0], c);
      RunKeepsGood(After(s, events[0], c), events[1..], c);
    }
  }

  /** Every run of a scheduler that was started once keeps the whole invariant. */
  lemma EveryRunIsGood(c: Config, clock: int, events: seq<Event>)
    requires Runs(Initial(c, clock), events, c)
    ensures Good(AfterRun(Initial(c, clock), events, c), c)
  {
    InitialIsGood(c, clock);
    RunKeepsGood(Initial(c, clock), events, c);
  }

  /* Moments of a run. */

  lemma {:induction false} RunInTwo(s: State, events: seq<Event>, c: Config, k: nat)
    requires Runs(s, events, c) && k <= |events|
    ensures Runs(s, events[..k], c)
    ensures var middle := AfterRun(s, events[..k], c);
      Runs(middle, events[k..], c) && AfterRun(middle, events[k..], c) == AfterRun(s, events, c)
    decreases events
  {
    if k == 0 {
      assert events[..0] == [] && events[0..] == events;
    } else {
      assert events[..k][0] == events[0] && events[..k][1..] == events[1..][..k - 1]
        && events[k..] == events[1..][k - 1..];
      RunInTwo(After(s, events[0], c), events[1..], c, k - 1);
    }
  }

  /** The state after the first k events. */
  ghost function StateAt(s: State, events: seq<Event>, c: Config, k: nat): State
    requires Runs(s, events, c) && k <= |events|
  {
    RunInTwo(s, events, c, k);
    AfterRun(s, events[..k], c)
  }

  lemma NextState(s: State, events: seq<Event>, c: Config, k: nat)
    requires Runs(s, events, c) && k < |events|
    ensures Enabled(StateAt(s, events, c, k), events[k], c)
    ensures StateAt(s, events, c, k + 1) == After(StateAt(s, events, c, k), events[k], c)
  {
    RunInTwo(s, events, c, k + 1);
    RunInTwo(s, events[..k + 1], c, k);
    assert events[..k + 1][..k] == events[..k] && events[..k + 1][k..] == [events[k]];
  }

  /** The rule was scheduled as the i-th event, and this is the task that was made of it then. */
  ghost predicate ScheduledAt(s: State, events: seq<Event>, c: Config, i: nat, task: Task)
    requires Runs(s, events, c)
  {
    && i < |events| && events[i].ScheduleRule?
    && TaskFor(events[i].rule, StateAt(s, events, c, i).clock, c.cron) == Some(task)
  }

  /** The execution was started as the j-th event. */
  ghost predicate ExecutedAt(s: State, events: seq<Event>, c: Config, j: nat, x: Execution)
    requires Runs(s, events, c)
  {
    && j < |events| && events[j].Execute?
    && var before := StateAt(s, events, c, j); var w := events[j].worker;
       w < |before.workers| && before.workers[w].Executing? && x == Execution(before.workers[w].item, before.clock)
  }

  lemma {:induction false} InstalledWereScheduled(s: State, events: seq<Event>, c: Config, k: nat, task: Task)
    requires Runs(s, events, c) && k <= |events| && task in StateAt(s, events, c, k).installed && task !in s.installed
    ensures exists i: nat :: i < k && ScheduledAt(s, events, c, i, task)
  {
    assert events[..0] == [];
    if k == 0 {
    } else {
      NextState(s, events, c, k - 1);
      if task in StateAt(s, events, c, k - 1).installed {
        InstalledWereScheduled(s, events, c, k - 1, task);
      } else {
        assert ScheduledAt(s, events, c, k - 1, task);
      }
    }
  }

  lemma {:induction false} ExecutedWereStarted(s: State, events: seq<Event>, c: Config, k: nat, x: Execution)
    requires Runs(s, events, c) && k <= |events| && x in StateAt(s, events, c, k).executed && x !in s.executed
    ensures exists j: nat :: j < k && ExecutedAt(s, events, c, j, x)
  {
    assert events[..0] == [];
    if k == 0 {
    } else {
      NextState(s, events, c, k - 1);
      if x in StateAt(s, events, c, k - 1).executed {
        ExecutedWereStarted(s, events, c, k - 1, x);
      } else {
        assert ExecutedAt(s, events, c, k - 1, x);
      }
    }
  }

  /** No early and no invented execution, in terms of the run: each execution starts at some event of the run,
      less than a minute before its task's time at most, and its task is what the schedule of some rule asked
      for when the rule was scheduled, at an earlier event of the run, with the clock of that moment. */
  lemma NoEarlyOrInventedExecution(c: Config, clock: int, events: seq<Event>, x: Execution)
    requires Runs(Initial(c, clock), events, c) && x in AfterRun(Initial(c, clock), events, c).executed
    ensures x.item.task.executeAt < x.startedAt + 60_000_000_000
    ensures exists i: nat, j: nat ::
      && i < j && ExecutedAt(Initial(c, clock), events, c, j, x)
      && ScheduledAt(Initial(c, clock), events, c, i, x.item.task)
      && IsTaskOf(x.item.task, events[i].rule, StateAt(Initial(c, clock), events, c, i).clock, c.cron)
  {
    var s := Initial(c, clock);
    EveryRunIsGood(c, clock, events);
    assert events[..|events|] == events;
    ExecutedWereStarted(s, events, c, |events|, x);
    var j: nat :| j < |events| && ExecutedAt(s, events, c, j, x);
    RunInTwo(s, events, c, j);
    EveryRunIsGood(c, clock, events[..j]);
    var before := StateAt(s, events, c, j);
    assert before.workers[events[j].worker] in before.workers;
    InstalledWereScheduled(s, events, c, j, x.item.task);
    var i: nat :| i < j && ScheduledAt(s, events, c, i, x.item.task);
    TaskForExactly(events[i].rule, StateAt(s, events, c, i).clock, c.cron, x.item.task);
  }

  /** The semaphore never blocks: a worker that has taken a task always finds a free slot. */
  lemma AcquiringNeverWaits(s: State, c: Config, w: nat)
    requires Good(s, c) && w < |s.workers| && s.workers[w].Holding?
    ensures s.tokens < c.maxConcurrency && Possible(s, Acquire(w), c)
  {
    CountUpdate(s.workers, w, Idle, IsBusy);
  }

  /** A worker that is done always finds a token to return. */
  lemma ReleasingNeverWaits(s: State, c: Config, w: nat)
    requires Good(s, c) && w < |s.workers| && s.workers[w].Deleted?
    ensures s.tokens > 0 && Possible(s, Release(w), c)
  {
    CountUpdate(s.workers, w, Idle, IsBusy);
  }

  /** Nothing was abandoned and no worker has left, as long as nobody cancels. */
  predicate Staffed(s: State) {
    !s.cancelled ==> s.abandoned == [] && forall w | w in s.workers :: !w.Exited?
  }

  lemma EventKeepsStaffed(s: State, e: Event, c: Config)
    requires Staffed(s) && Possible(s, e, c)
    ensures Staffed(After(s, e, c))
  {
  }

  lemma {:induction false} RunKeepsStaffed(s: State, events: seq<Event>, c: Config)
    requires Staffed(s) && Runs(s, events, c)
    ensures Staffed(AfterRun(s, events, c))
    decreases events
  {
    if events == [] {
    } else {
      EventKeepsStaffed(s, events[0], c);
      RunKeepsStaffed(After(s, events[0], c), events[1..], c);
    }
  }

  /** Without cancellation every task that was taken off the queue was executed or is in a worker's hands, as often as
      it was taken, and all workers are there. */
  lemma UncancelledExecutesAll(c: Config, clock: int, events: seq<Event>, item: Queued)
    requires Runs(Initial(c, clock), events, c) && !AfterRun(Initial(c, clock), events, c).cancelled
    ensures var after := AfterRun(Initial(c, clock), events, c);
      && multiset(after.taken)[item] ==
        multiset(ItemsExecuted(after.executed))[item] + Count(after.workers, HasInHand(item))
      && |after.workers| == c.maxConcurrency && forall w | w in after.workers :: !w.Exited?
  {
    EveryRunIsGood(c, clock, events);
    RunKeepsStaffed(Initial(c, clock), events, c);
    assert TakenIsAccounted(AfterRun(Initial(c, clock), events, c), item);
  }

  /* The task map. */

  function EntryOf(tasks: Tasks, id: string): Option<Task> {
    if id in tasks then Some(tasks[id]) else None
  }

  /** The events that decide a rule's entry: scheduling it with a valid schedule, unscheduling it, and the end
      of an execution of a task with its ID. */
  predicate Decides(s: State, e: Event, id: string, c: Config) {
    match e
    case ScheduleRule(rule) => RuleID(rule) == id && ValidateSchedule(rule.schedule, c.cron) == None
    case UnscheduleRule(other) => other == id
    case Delete(w) => w < |s.workers| && s.workers[w].Executed? && s.workers[w].item.task.ruleID == id
    case _ => false
  }

  /** The entry that a deciding event leaves: the task made of the rule, or none. */
  function NewEntry(s: State, e: Event, c: Config): Option<Task> {
    match e
    case ScheduleRule(rule) => TaskFor(rule, s.clock, c.cron)
    case _ => None
  }

  /** An entry changes only by a deciding event, which decides it whatever it was; so the end of an execution
      drops whatever task the rule has by then. */
  lemma EntryChangesOnlyBy(s: State, e: Event, c: Config, id: string)
    requires Possible(s, e, c)
    ensures EntryOf(After(s, e, c).tasks, id) ==
      if Decides(s, e, id, c) then NewEntry(s, e, c) else EntryOf(s.tasks, id)
  {
    if e.ScheduleRule? {
      TaskForIsOwn(e.rule, s.clock, c.cron);
    }
  }

  /** No event of the run decides the rule's entry. */
  ghost predicate Undisturbed(s: State, events: seq<Event>, c: Config, id: string)
    requires Runs(s, events, c)
    decreases events
  {
    events == [] || (!Decides(s, events[0], id, c) && Undisturbed(After(s, events[0], c), events[1..], c, id))
  }

  /** The last event of the run to decide the rule's entry makes this task of it; only scheduling the rule
      does. */
  ghost predicate LastScheduled(s: State, events: seq<Event>, c: Config, id: string, task: Task)
    requires Runs(s, events, c)
    decreases events
  {
    && events != []
    && var next := After(s, events[0], c);
       || (Decides(s, events[0], id, c) && NewEntry(s, events[0], c) == Some(task)
         && Undisturbed(next, events[1..], c, id))
       || LastScheduled(next, events[1..], c, id, task)
  }

  /** A rule has a task at the end of a run if and only if it had it at the start and no event decided the
      entry, or the last event to decide it has scheduled the rule with that task. */
  lemma {:induction false} EntryDecidedExactly(s: State, events: seq<Event>, c: Config, id: string, task: Task)
    requires Runs(s, events, c)
    ensures EntryOf(AfterRun(s, events, c).tasks, id) == Some(task) <==>
      || (Undisturbed(s, events, c, id) && EntryOf(s.tasks, id) == Some(task))
      || LastScheduled(s, events, c, id, task)
    decreases events
  {
    if events == [] {
    } else {
      EntryChangesOnlyBy(s, events[0], c, id);
      EntryDecidedExactly(After(s, events[0], c), events[1..], c, id, task);
    }
  }

  lemma {:induction false} ClockNeverGoesBack(s: State, events: seq<Event>, c: Config)
    requires Runs(s, events, c)
    ensures s.clock <= AfterRun(s, events, c).clock
    decreases events
  {
    if events == [] {
    } else {
      ClockNeverGoesBack(After(s, events[0], c), events[1..], c);
    }
  }

  predicate NoTick(events: seq<Event>) {
    forall e | e in events :: !e.Tick?
  }

  function Items(offers: seq<(Queued, bool)>): seq<Queued> {
    seq(|offers|, i requires 0 <= i < |offers| => offers[i].0)
  }

  lemma ItemsOfParts(first: seq<(Queued, bool)>, rest: seq<(Queued, bool)>)
    ensures Items(first + rest) == Items(first) + Items(rest)
  {
  }

  /** What has been offered, with what is still pending behind it, changes with a tick alone. */
  lemma EventKeepsOffers(s: State, e: Event, c: Config)
    requires Possible(s, e, c) && !e.Tick?
    ensures var after := After(s, e, c);
      s.offered <= after.offered && Items(after.offered) + after.pending == Items(s.offered) + s.pending
  {
    if e.Offer? {
      var offer := (s.pending[0], |s.queue| < c.queueCapacity);
      ItemsOfParts(s.offered, [offer]);
      assert Items([offer]) == [s.pending[0]];
      FirstMoves(Items(s.offered), s.pending);
    }
  }

  lemma {:induction false} RunKeepsOffers(s: State, events: seq<Event>, c: Config)
    requires Runs(s, events, c) && NoTick(events)
    ensures var after := AfterRun(s, events, c);
      s.offered <= after.offered && Items(after.offered) + after.pending == Items(s.offered) + s.pending
    decreases events
  {
    if events == [] {
    } else {
      assert events[0] in events;
      EventKeepsOffers(s, events[0], c);
      RunKeepsOffers(After(s, events[0], c), events[1..], c);
    }
  }

  lemma SameFront(front: seq<Queued>, a: seq<Queued>, b: seq<Queued>)
    requires front + a == front + b
    ensures a == b
  {
    assert a == (front + a)[|front|..] && b == (front + b)[|front|..];
  }

  lemma PartsInOrder(front: seq<Queued>, middle: seq<Queued>, back: seq<Queued>)
    ensures front + middle + back == front + (middle + back)
  {
  }

  /** Between ticks, the offers made are exactly the front of what was pending, in order. */
  lemma PendingIsOffered(s: State, events: seq<Event>, c: Config)
    requires Runs(s, events, c) && NoTick(events)
    ensures var after := AfterRun(s, events, c);
      && s.offered <= after.offered
      && s.pending == Items(after.offered[|s.offered|..]) + after.pending
  {
    RunKeepsOffers(s, events, c);
    var after := AfterRun(s, events, c);
    var since := after.offered[|s.offered|..];
    assert after.offered == s.offered + since;
    ItemsOfParts(s.offered, since);
    PartsInOrder(Items(s.offered), Items(since), after.pending);
    SameFront(Items(s.offered), s.pending, Items(since) + after.pending);
  }

  /** Once the loop has worked off a tick, the offers since are those of the tick's snapshot. */
  lemma TickIsOffered(s: State, tick: Event, events: seq<Event>, c: Config, task: Task)
    requires tick.Tick? && Enabled(s, tick, c)
    requires var next := After(s, tick, c);
      Runs(next, events, c) && NoTick(events) && AfterRun(next, events, c).pending == []
    ensures var after := AfterRun(After(s, tick, c), events, c); var item := Queued(task, s.clock);
      (exists i :: |s.offered| <= i < |after.offered| && after.offered[i].0 == item) <==> task in tick.snapshot
  {
    var next := After(s, tick, c);
    var after := AfterRun(next, events, c);
    PendingIsOffered(next, events, c);
    var offers := after.offered[|s.offered|..];
    assert next.pending == Items(offers);
    assert forall j | 0 <= j < |offers| ::
      && Items(offers)[j] == offers[j].0 == after.offered[|s.offered| + j].0
      && next.pending[j] == Queued(tick.snapshot[j], s.clock);
    if task in tick.snapshot {
      var j :| 0 <= j < |tick.snapshot| && tick.snapshot[j] == task;
      assert after.offered[|s.offered| + j].0 == Queued(task, s.clock);
    }
    if i :| |s.offered| <= i < |after.offered| && after.offered[i].0 == Queued(task, s.clock) {
      assert offers[i - |s.offered|].0 == Queued(task, s.clock);
    }
  }

  /** A due task is not lost to a full queue. Once the loop has worked off a tick, each task whose time was less
      than a minute away at the tick has been offered; it was accepted, or it was dropped, and unless something
      decided the entry of its rule it is still there for the next tick. */
  lemma DueTaskIsNotLost(s: State, tick: Event, events: seq<Event>, c: Config, id: string)
    requires tick.Tick? && Enabled(s, tick, c) && id in s.tasks && s.tasks[id].executeAt < s.clock + 60_000_000_000
    requires var next := After(s, tick, c);
      Runs(next, events, c) && NoTick(events) && AfterRun(next, events, c).pending == []
    ensures var next := After(s, tick, c);
      var after := AfterRun(next, events, c);
      var item := Queued(s.tasks[id], s.clock);
      && (exists i :: |s.offered| <= i < |after.offered| && after.offered[i].0 == item)
      && (Undisturbed(next, events, c, id) ==> id in after.tasks && after.tasks[id] == s.tasks[id])
  {
    TickIsOffered(s, tick, events, c, s.tasks[id]);
    EntryDecidedExactly(After(s, tick, c), events, c, id, s.tasks[id]);
  }

  /** When a task is queued again: a task of one tick is offered at a later tick too if and only if in between
      nothing decided its rule's entry, or the last event to do so scheduled the rule with the same task. */
  lemma QueuedAgainExactly(
    s: State, tick: Event, events: seq<Event>, again: Event, rest: seq<Event>, c: Config, task: Task)
    requires TasksAreInstalled(s) && tick.Tick? && Enabled(s, tick, c) && task in tick.snapshot
    requires Runs(After(s, tick, c), events, c) && again.Tick?
      && Enabled(AfterRun(After(s, tick, c), events, c), again, c)
    requires var next := After(AfterRun(After(s, tick, c), events, c), again, c);
      Runs(next, rest, c) && NoTick(rest) && AfterRun(next, rest, c).pending == []
    ensures var between := After(s, tick, c); var later := AfterRun(between, events, c);
      var after := AfterRun(After(later, again, c), rest, c);
      (exists i :: |later.offered| <= i < |after.offered| && after.offered[i].0 == Queued(task, later.clock)) <==>
        || Undisturbed(between, events, c, task.ruleID)
        || LastScheduled(between, events, c, task.ruleID, task)
  {
    var between := After(s, tick, c);
    var later := AfterRun(between, events, c);
    TickIsOffered(later, again, rest, c, task);
    ClockNeverGoesBack(between, events, c);
    EntryDecidedExactly(between, events, c, task.ruleID, task);
    assert task in again.snapshot <==> EntryOf(later.tasks, task.ruleID) == Some(task);
  }

  /** When a replacement survives the end of an execution of its rule: if and only if the rule is scheduled
      with it after that. */
  lemma SurvivesExactly(s: State, w: nat, events: seq<Event>, c: Config, task: Task)
    requires Possible(s, Delete(w), c) && s.workers[w].item.task.ruleID == task.ruleID
    requires Runs(After(s, Delete(w), c), events, c)
    ensures var deleted := After(s, Delete(w), c);
      EntryOf(AfterRun(deleted, events, c).tasks, task.ruleID) == Some(task) <==>
        LastScheduled(deleted, events, c, task.ruleID, task)
  {
    EntryDecidedExactly(After(s, Delete(w), c), events, c, task.ruleID, task);
  }

  /* Both failures, in runs from the start. */

  /** Execution is not exactly-once: a task that two ticks find before it completes is queued twice. */
  lemma TwoTicksQueueTwice(s: State, c: Config, task: Task)
    requires s.tasks == map[task.ruleID := task] && Due(task, s.clock)
    requires s.pending == [] && s.queue == [] && c.queueCapacity >= 2
    ensures var run := [Tick([task]), Offer, Tick([task]), Offer];
      Runs(s, run, c) && AfterRun(s, run, c).queue == [Queued(task, s.clock), Queued(task, s.clock)]
  {
    var item := Queued(task, s.clock);
    var second := [Tick([task]), Offer];
    var s1 := After(s, Tick([task]), c);
    assert s1.pending == [item];
    var s2 := After(s1, Offer, c);
    assert s2.pending == [] && s2.queue == [item];
    var s3 := After(s2, Tick([task]), c);
    assert s3.pending == [item];
    var s4 := After(s3, Offer, c);
    RunStep(s4, Offer, [], s3, c);
    RunStep(s3, Tick([task]), [Offer], s2, c);
    RunStep(s2, Offer, second, s1, c);
    RunStep(s1, Tick([task]), [Offer] + second, s, c);
    assert [Tick([task]), Offer, Tick([task]), Offer] == [Tick([task])] + ([Offer] + second);
    assert second == [Tick([task])] + [Offer] && [Offer] == [Offer] + [];
  }

  /** A run is its first event and then the rest. */
  lemma RunStep(next: State, e: Event, rest: seq<Event>, s: State, c: Config)
    requires Enabled(s, e, c) && next == After(s, e, c) && Runs(next, rest, c)
    ensures Runs(s, [e] + rest, c) && AfterRun(s, [e] + rest, c) == AfterRun(next, rest, c)
  {
    assert ([e] + rest)[1..] == rest;
  }

  /** A task that replaces its rule's entry while the old one is executing is dropped with it, without
      ever having been offered to the queue. */
  lemma ReplacementIsDropped(s: State, c: Config, w: nat, rule: Rule, task: Task)
    requires w < |s.workers| && s.workers[w].Executing? && s.workers[w].item.task.ruleID == RuleID(rule)
    requires ValidateSchedule(rule.schedule, c.cron) == None && TaskFor(rule, s.clock, c.cron) == Some(task)
    ensures var run := [ScheduleRule(rule), Execute(w), Delete(w)];
      && Runs(s, run, c)
      && After(s, ScheduleRule(rule), c).tasks == s.tasks[RuleID(rule) := task]
      && AfterRun(s, run, c).tasks == s.tasks - {RuleID(rule)}
      && AfterRun(s, run, c).offered == s.offered && task in AfterRun(s, run, c).installed
  {
    var s1 := After(s, ScheduleRule(rule), c);
    var s2 := After(s1, Execute(w), c);
    var s3 := After(s2, Delete(w), c);
    RunStep(s3, Delete(w), [], s2, c);
    RunStep(s2, Execute(w), [Delete(w)], s1, c);
    RunStep(s1, ScheduleRule(rule), [Execute(w), Delete(w)], s, c);
    assert [ScheduleRule(rule), Execute(w), Delete(w)] == [ScheduleRule(rule)] + ([Execute(w)] + ([Delete(w)] + []));
    assert [Execute(w), Delete(w)] == [Execute(w)] + ([Delete(w)] + []) && [Delete(w)] == [Delete(w)] + [];
    assert s3.tasks == s.tasks - {RuleID(rule)};
  }

  /** A rule to be applied at an instant, and its task. */
  function ApplyAt(start: int, payload: Payload): Rule {
    Rule("ns", "r", Schedule("datetime", Some(start), None, "", ""), None, payload)
  }

  function TaskAt(start: int, payload: Payload): Task {
    Task(RuleID(ApplyAt(start, payload)), "r", "ns", "apply", start, payload)
  }

  lemma ApplyAtIsScheduled(start: int, payload: Payload, cron: Cron)
    requires start > 0
    ensures ValidateSchedule(ApplyAt(start, payload).schedule, cron) == None
    ensures TaskFor(ApplyAt(start, payload), 0, cron) == Some(TaskAt(start, payload))
  {
  }

  /** From the start of a scheduler: a task is queued twice before it is executed once. */
  lemma QueuedTwiceFromStart(c: Config, payload: Payload)
    requires c.queueCapacity >= 2
    ensures var task := TaskAt(1, payload); var item := Queued(task, 0);
      var run := [ScheduleRule(ApplyAt(1, payload))] + [Tick([task]), Offer, Tick([task]), Offer];
      Runs(Initial(c, 0), run, c) && AfterRun(Initial(c, 0), run, c).queue == [item, item]
  {
    var task := TaskAt(1, payload);
    ApplyAtIsScheduled(1, payload, c.cron);
    var s := After(Initial(c, 0), ScheduleRule(ApplyAt(1, payload)), c);
    TwoTicksQueueTwice(s, c, task);
    RunStep(s, ScheduleRule(ApplyAt(1, payload)), [Tick([task]), Offer, Tick([task]), Offer], Initial(c, 0), c);
  }

  /** The worker's events up to the start of an execution. */
  function UpToExecution(task: Task): seq<Event> {
    [Tick([task])] + ([Offer] + ([Take(0)] + ([Acquire(0)] + [])))
  }

  lemma ReachesExecution(s: State, c: Config, task: Task)
    requires s.tasks == map[task.ruleID := task] && Due(task, s.clock) && s.pending == [] && s.queue == []
    requires c.queueCapacity >= 1 && c.maxConcurrency >= 1 && s.tokens == 0 && |s.workers| > 0 && s.workers[0] == Idle
    ensures Runs(s, UpToExecution(task), c)
    ensures var after := AfterRun(s, UpToExecution(task), c);
      && after.tasks == s.tasks && after.clock == s.clock && |after.workers| > 0
      && after.offered == s.offered + [(Queued(task, s.clock), true)]
      && after.workers[0] == Executing(Queued(task, s.clock))
  {
    var item := Queued(task, s.clock);
    var s1 := After(s, Tick([task]), c);
    assert s1.pending == [item];
    var s2 := After(s1, Offer, c);
    assert s2.queue == [item];
    var s3 := After(s2, Take(0), c);
    var s4 := After(s3, Acquire(0), c);
    RunStep(s4, Acquire(0), [], s3, c);
    RunStep(s3, Take(0), [Acquire(0)] + [], s2, c);
    RunStep(s2, Offer, [Take(0)] + ([Acquire(0)] + []), s1, c);
    RunStep(s1, Tick([task]), [Offer] + ([Take(0)] + ([Acquire(0)] + [])), s, c);
  }

  lemma {:induction false} RunThenRun(s: State, first: seq<Event>, second: seq<Event>, c: Config)
    requires Runs(s, first, c) && Runs(AfterRun(s, first, c), second, c)
    ensures Runs(s, first + second, c) && AfterRun(s, first + second, c) == AfterRun(AfterRun(s, first, c), second, c)
    decreases first
  {
    if first == [] {
      assert first + second == second;
    } else {
      assert (first + second)[0] == first[0] && (first + second)[1..] == first[1..] + second;
      RunThenRun(After(s, first[0], c), first[1..], second, c);
    }
  }

  /** From the start of a scheduler: a rule that is scheduled anew while its task is executing has no task when
      the execution has ended, and its new task has never been offered. */
  lemma ReplacementDroppedFromStart(c: Config, payload: Payload)
    requires c.queueCapacity >= 1 && c.maxConcurrency >= 1
    ensures var task, other := TaskAt(1, payload), TaskAt(2, payload);
      var run := [ScheduleRule(ApplyAt(1, payload))]
        + (UpToExecution(task) + [ScheduleRule(ApplyAt(2, payload)), Execute(0), Delete(0)]);
      && Runs(Initial(c, 0), run, c)
      && var after := AfterRun(Initial(c, 0), run, c);
         other in after.installed && after.tasks == map[] && forall o | o in after.offered :: o.0.task != other
  {
    var task, other := TaskAt(1, payload), TaskAt(2, payload);
    var second := [ScheduleRule(ApplyAt(2, payload)), Execute(0), Delete(0)];
    ApplyAtIsScheduled(1, payload, c.cron);
    ApplyAtIsScheduled(2, payload, c.cron);
    var s := After(Initial(c, 0), ScheduleRule(ApplyAt(1, payload)), c);
    ReachesExecution(s, c, task);
    var executing := AfterRun(s, UpToExecution(task), c);
    ReplacementIsDropped(executing, c, 0, ApplyAt(2, payload), other);
    RunThenRun(s, UpToExecution(task), second, c);
    RunStep(s, ScheduleRule(ApplyAt(1, payload)), UpToExecution(task) + second, Initial(c, 0), c);
  }
}
