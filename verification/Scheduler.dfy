/** The time scheduler as an object that is updated in place (internal/scheduler/scheduler.go). Each
    method is one step of SchedulerModel, or a run of steps with nothing in between; what happens
    between the steps of a worker is up to the other methods. */
module Scheduler {
  import opened Wrappers
  import opened Parser
  import opened M = SchedulerModel

  datatype SchedulerError = InvalidSchedule(error: ScheduleError) | AlreadyStarted | RuleNotFound

  class TimeScheduler {
    var tasks: map<string, Task>
    var taskQueue: seq<Task>
    var workerSemaphore: nat
    var started: bool
    /** The scheduler loops and the workers that run. */
    var loops: nat
    var workers: nat
    const cron: Cron
    /** The state of the state machine, with its history. */
    ghost var state: State

    ghost function Settings(): Config {
      Config(1000, 10, cron)
    }

    constructor (cron: Cron, ghost clock: int)
      ensures Valid() && !started && loops == workers == 0 && state == Initial(Settings(), clock)
      ensures this.cron == cron
    {
      tasks, taskQueue, workerSemaphore, started, loops, workers := map[], [], 0, false, 0, 0;
      this.cron := cron;
      state := Initial(Config(1000, 10, cron), clock);
      new;
      InitialIsGood(Settings(), clock);
    }

    ghost predicate Valid()
      reads this
    {
      && tasks == state.tasks
      && workerSemaphore == state.tokens
      && |taskQueue| == |state.queue|
      && (forall i | 0 <= i < |taskQueue| :: taskQueue[i] == state.queue[i].task)
      && Good(state, Settings())
      && (if started then loops == 1 && workers == 10 else loops == workers == 0)
    }

    /** Time passes; only the ghost clock notices. */
    ghost method Wait(now: int)
      requires Valid() && state.clock <= now
      modifies this`state
      ensures Valid() && state == After(old(state), Advance(now), Settings())
    {
      EventKeepsGood(state, Advance(now), Settings());
      state := After(state, Advance(now), Settings());
    }

    lemma ScheduleIsExact(rule: Rule, now: int)
      ensures ValidateSchedule(rule.schedule, cron) == None <==> IsProper(rule.schedule, cron)
      ensures forall task :: TaskFor(rule, now, cron) == Some(task) <==> IsTaskOf(task, rule, now, cron)
    {
      ValidExactly(rule.schedule, cron);
      forall task {
        TaskForExactly(rule, now, cron, task);
      }
    }

    method ScheduleRule(rule: Rule, now: int) returns (result: Result<(), SchedulerError>)
      requires Valid() && state.clock == now
      modifies this`tasks, this`state
      ensures Valid() && state == After(old(state), M.ScheduleRule(rule), Settings())
      ensures result.Ok? <==> IsProper(rule.schedule, cron)
      ensures result.Err? ==>
        && tasks == old(tasks)
        && result.error.InvalidSchedule? && ValidateSchedule(rule.schedule, cron) == Some(result.error.error)
      ensures result.Ok? ==>
        var ruleID := rule.namespace + "/" + rule.name;
        && tasks - {ruleID} == old(tasks) - {ruleID}
        && forall task :: EntryOf(tasks, ruleID) == Some(task) <==> IsTaskOf(task, rule, now, cron)
    {
      ScheduleIsExact(rule, now);
      var event := M.ScheduleRule(rule);
      EventKeepsGood(state, event, Settings());
      NextExecutionHasAction(rule.schedule, rule.lastExecution, now, cron);
      var ruleID := RuleID(rule);
      var invalid := ValidateSchedule(rule.schedule, cron);
      if invalid.Some? {
        state := After(state, event, Settings());
        return Err(InvalidSchedule(invalid.value));
      }
      var next := CalculateNextExecution(rule.schedule, rule.lastExecution, now, cron);
      if next.value == None {
        tasks := tasks - {ruleID};
      } else {
        var action := GetExecutionAction(rule.schedule, rule.lastExecution);
        tasks := tasks[ruleID := Task(ruleID, rule.name, rule.namespace, action.value, next.value.value, rule.payload)];
      }
      state := After(state, event, Settings());
      return Ok(());
    }

    method UnscheduleRule(ruleID: string)
      requires Valid()
      modifies this`tasks, this`state
      ensures Valid() && state == After(old(state), M.UnscheduleRule(ruleID), Settings())
      ensures tasks == old(tasks) - {ruleID}
    {
      EventKeepsGood(state, M.UnscheduleRule(ruleID), Settings());
      tasks := tasks - {ruleID};
      state := After(state, M.UnscheduleRule(ruleID), Settings());
    }

    /** A start launches one loop and ten workers; a second start fails and launches nothing. */
    method Start() returns (result: Result<(), SchedulerError>)
      requires Valid()
      modifies this`started, this`loops, this`workers
      ensures Valid() && started && loops == 1 && workers == 10
      ensures result == if old(started) then Err(AlreadyStarted) else Ok(())
    {
      if started {
        return Err(AlreadyStarted);
      }
      started := true;
      loops := loops + 1;
      for i := 0 to 10
        invariant started && loops == 1 && workers == i
      {
        workers := workers + 1;
      }
      return Ok(());
    }

    method GetNextExecutionTime(ruleID: string) returns (result: Result<int, SchedulerError>)
      requires Valid()
      ensures result == if ruleID in state.tasks then Ok(state.tasks[ruleID].executeAt) else Err(RuleNotFound)
    {
      if ruleID !in tasks {
        return Err(RuleNotFound);
      }
      return Ok(tasks[ruleID].executeAt);
    }

    method GetScheduledTaskCount() returns (count: nat)
      requires Valid()
      ensures count == |state.tasks|
    {
      return |tasks|;
    }

    /** The tasks that are due, each once. */
    method DueTasks(now: int) returns (due: seq<Task>)
      requires Valid() && state.clock == now
      ensures IsSnapshot(state.tasks, now, due)
    {
      due := [];
      var rest := tasks.Keys;
      while rest != {}
        invariant rest <= tasks.Keys
        invariant forall t | t in due :: t.ruleID in tasks.Keys - rest && tasks[t.ruleID] == t && Due(t, now)
        invariant forall id | id in tasks.Keys - rest && Due(tasks[id], now) :: tasks[id] in due
        invariant forall i, j | 0 <= i < j < |due| :: due[i] != due[j]
      {
        var id :| id in rest;
        var task := tasks[id];
        assert task.ruleID == id;
        if Due(task, now) {
          assert task !in due;
          due := due + [task];
        }
        rest := rest - {id};
      }
    }

    /** A send that does not block: the queue's buffer takes the task, or the task is dropped. */
    method OfferTask(task: Task) returns (accepted: bool)
      requires Valid() && state.pending != [] && state.pending[0].task == task
      modifies this`taskQueue, this`state
      ensures Valid() && state == After(old(state), Offer, Settings())
      ensures accepted <==> |old(taskQueue)| < 1000
      ensures taskQueue == old(taskQueue) + if accepted then [task] else []
    {
      EventKeepsGood(state, Offer, Settings());
      accepted := |taskQueue| < 1000;
      if accepted {
        taskQueue := taskQueue + [task];
      }
      state := After(state, Offer, Settings());
    }

    /** One tick with nothing in between: as many of the due tasks as the queue has room for are queued,
        and no entry of the map is touched. */
    method CheckAndQueueTasks(now: int) returns (due: seq<Task>)
      requires Valid() && loops == 1 && state.clock == now && state.pending == []
      modifies this`taskQueue, this`state
      ensures Valid() && IsSnapshot(tasks, now, due) && state.pending == []
      ensures taskQueue == old(taskQueue) + due[..Room(|due|, |old(taskQueue)|)]
      ensures Items(state.offered) == Items(old(state.offered)) + Mark(due, now)
      ensures state.workers == old(state.workers) && state.executed == old(state.executed)
    {
      due := DueTasks(now);
      EventKeepsGood(state, Tick(due), Settings());
      state := After(state, Tick(due), Settings());
      OfferAll(due, now);
    }

    method OfferAll(due: seq<Task>, ghost now: int)
      requires Valid() && state.pending == Mark(due, now)
      modifies this`taskQueue, this`state
      ensures Valid() && tasks == old(tasks) && state.pending == []
      ensures taskQueue == old(taskQueue) + due[..Room(|due|, |old(taskQueue)|)]
      ensures Items(state.offered) == Items(old(state.offered)) + Mark(due, now)
      ensures state.workers == old(state.workers) && state.executed == old(state.executed)
    {
      for i := 0 to |due|
        invariant Valid() && tasks == old(tasks)
        invariant state.pending == Mark(due, now)[i..]
        invariant taskQueue == old(taskQueue) + due[..Room(i, |old(taskQueue)|)]
        invariant Items(state.offered) == Items(old(state.offered)) + Mark(due, now)[..i]
        invariant state.workers == old(state.workers) && state.executed == old(state.executed)
      {
        OfferNext(due, now, i);
        RoomGrows(due, i, |old(taskQueue)|);
      }
    }

    method OfferNext(due: seq<Task>, ghost now: int, i: nat)
      requires Valid() && i < |due| && state.pending == Mark(due, now)[i..]
      modifies this`taskQueue, this`state
      ensures Valid() && state.tasks == old(state.tasks) && state.clock == old(state.clock)
      ensures state.pending == Mark(due, now)[i + 1..]
      ensures taskQueue == old(taskQueue) + if |old(taskQueue)| < 1000 then [due[i]] else []
      ensures Items(state.offered) == Items(old(state.offered)) + [Mark(due, now)[i]]
      ensures state.workers == old(state.workers) && state.executed == old(state.executed)
    {
      var _ := OfferTask(due[i]);
    }

    /** A worker receives the oldest task. */
    method TakeTask(ghost w: nat) returns (task: Task)
      requires Valid() && w < workers && Possible(state, Take(w), Settings())
      modifies this`taskQueue, this`state
      ensures Valid() && state == After(old(state), Take(w), Settings())
      ensures old(taskQueue) == [task] + taskQueue && state.workers[w].item.task == task
    {
      EventKeepsGood(state, Take(w), Settings());
      task := taskQueue[0];
      taskQueue := taskQueue[1..];
      state := After(state, Take(w), Settings());
    }

    /** The slot is there: the send on the semaphore's channel, of capacity 10, never has to wait. */
    method AcquireSlot(ghost w: nat)
      requires Valid() && w < |state.workers| && state.workers[w].Holding?
      modifies this`workerSemaphore, this`state
      ensures Valid() && workerSemaphore == old(workerSemaphore) + 1 <= 10
      ensures Possible(old(state), Acquire(w), Settings()) && state == After(old(state), Acquire(w), Settings())
    {
      AcquiringNeverWaits(state, Settings(), w);
      EventKeepsGood(state, Acquire(w), Settings());
      workerSemaphore := workerSemaphore + 1;
      state := After(state, Acquire(w), Settings());
    }

    /** What is handed to the executor is what was taken off the queue. */
    method ExecuteTask(ghost w: nat, task: Task) returns (given: Task)
      requires Valid() && Possible(state, Execute(w), Settings()) && state.workers[w].item.task == task
      modifies this`state
      ensures Valid() && state == After(old(state), Execute(w), Settings())
      ensures given == task && given in state.installed && given.executeAt < state.clock + 60_000_000_000
    {
      EventKeepsGood(state, Execute(w), Settings());
      assert state.workers[w] in state.workers;
      state := After(state, Execute(w), Settings());
      return task;
    }

    method DeleteExecuted(ghost w: nat, task: Task)
      requires Valid() && Possible(state, M.Delete(w), Settings()) && state.workers[w].item.task == task
      modifies this`tasks, this`state
      ensures Valid() && state == After(old(state), M.Delete(w), Settings())
      ensures tasks == old(tasks) - {task.ruleID}
    {
      EventKeepsGood(state, M.Delete(w), Settings());
      tasks := tasks - {task.ruleID};
      state := After(state, M.Delete(w), Settings());
    }

    /** The slot of a worker that executes is never missing when it is given back. */
    method ReleaseSlot(ghost w: nat)
      requires Valid() && w < |state.workers| && state.workers[w].Deleted?
      modifies this`workerSemaphore, this`state
      ensures Valid() && workerSemaphore == old(workerSemaphore) - 1
      ensures Possible(old(state), Release(w), Settings()) && state == After(old(state), Release(w), Settings())
    {
      ReleasingNeverWaits(state, Settings(), w);
      EventKeepsGood(state, Release(w), Settings());
      workerSemaphore := workerSemaphore - 1;
      state := After(state, Release(w), Settings());
    }
  }

  lemma RoomGrows(due: seq<Task>, i: nat, queued: nat)
    requires i < |due| && queued <= 1000
    ensures due[..Room(i + 1, queued)] ==
      due[..Room(i, queued)] + if queued + Room(i, queued) < 1000 then [due[i]] else []
  {
  }

  /** How many of n tasks still fit behind those in the queue. */
  function Room(n: nat, queued: nat): nat {
    if queued >= 1000 then 0 else if queued + n <= 1000 then n else 1000 - queued
  }
}
