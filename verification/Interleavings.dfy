/**
 The ticket service one database statement or one lock section at a time, any number of
 handlers, schedulings and timer callbacks interleaved. Any of them may stop anywhere, and
 the process may crash and read its pending tickets again.
 */
module Interleavings {
  import opened Options
  import opened Tickets
  import opened Lifecycle

  /** What a goroutine does next. */
  datatype Task =
    | CheckCancel(id: Id, email: string)
    | Select(id: Id, status: Status, reason: string, who: string)
    | Update(id: Id, status: Status, reason: string, who: string)
    | Reread(id: Id, status: Status)
    | DropTimer(id: Id)
    | ArmCancel(t: Ticket)
    | ArmPlan(t: Ticket)
    | ArmInsert(id: Id, target: Status, delay: nat)
    | CallbackDelete(id: Id, target: Status)
    | CallbackUpdate(id: Id, target: Status)
    | CallbackReread(id: Id, target: Status)
    | Done

  /** A runtime timer; `armed` until it is stopped or has fired. */
  datatype Live = Live(id: Id, target: Status, fireAt: Instant, armed: bool)

  datatype Write = Write(id: Id, status: Status, at: Instant, who: string)

  /** `timers` maps a ticket to its entry in `live`; `log` and `inserted` only observe. */
  datatype World = World(
    db: map<Id, Ticket>, timers: map<Id, nat>, live: seq<Live>, tasks: seq<Task>, now: Instant,
    log: seq<Write>, inserted: map<Id, Ticket>)

  datatype Action =
    | Insert(t: Ticket)
    | StartCancel(id: Id, email: string)
    | StartAdmin(id: Id, status: Status, reason: string, who: string)
    | Advance(task: nat)
    | Stop(task: nat)
    | TimerFires(timer: nat)
    | Tick(d: nat)
    | Crash
    | Recover(order: seq<Id>)

  const START: World := World(map[], map[], [], [], 1, [], map[])

  predicate Enabled(w: World, a: Action) {
    match a
    case Insert(t) => t.id !in w.db && t.id !in w.inserted && t.status == Requested
    case Advance(i) => i < |w.tasks|
    case Stop(i) => i < |w.tasks|
    case TimerFires(k) => k < |w.live| && w.live[k].armed && w.now >= w.live[k].fireAt
    case Recover(order) => forall i :: 0 <= i < |order| ==> order[i] in Pending(w.db)
    case _ => true
  }

  function StopTimer(w: World, id: Id): World {
    if id !in w.timers then w
    else
      var k := w.timers[id];
      w.(timers := w.timers - {id},
         live := if k < |w.live| then w.live[k := w.live[k].(armed := false)] else w.live)
  }

  function WriteRow(w: World, t: Ticket): World {
    w.(db := w.db[t.id := t], log := w.log + [Write(t.id, t.status, w.now, t.updatedBy)])
  }

  /** The shared state after one statement of `task`, and the goroutine's next one. */
  function Execute(w: World, task: Task): (World, Task) {
    match task
    case CheckCancel(id, email) =>
      if id in w.db && w.db[id].email == email && w.db[id].status == Requested
      then (w, Select(id, Canceled, "Canceled by user", email)) else (w, Done)
    case Select(id, status, reason, who) =>
      if id in w.db && IsValidTransition(w.db[id].status, status)
      then (w, Update(id, status, reason, who)) else (w, Done)
    case Update(id, status, reason, who) =>
      if id !in w.db then (w, Done)
      else
        var t := w.db[id].(status := status, statusReason := reason, updatedBy := who, updatedAt := w.now);
        (WriteRow(w, t), Reread(id, status))
    case Reread(id, status) =>
      if id !in w.db then (w, Done)
      else if status == Approved then (w, ArmCancel(w.db[id]))
      else (w, DropTimer(id))
    case DropTimer(id) => (StopTimer(w, id), Done)
    case ArmCancel(t) => (StopTimer(w, t.id), ArmPlan(t))
    case ArmPlan(t) =>
      (match PlanOf(t)
       case NoPlan => (w, Done)
       case Plan(target, time) => (w, ArmInsert(t.id, target, Max(0, time - w.now))))
    case ArmInsert(id, target, delay) =>
      (w.(timers := w.timers[id := |w.live|], live := w.live + [Live(id, target, w.now + delay, true)]), Done)
    case CallbackDelete(id, target) => (w.(timers := w.timers - {id}), CallbackUpdate(id, target))
    case CallbackUpdate(id, target) =>
      if id !in w.db || w.db[id].status == target then (w, Done)
      else
        var t := w.db[id].(status := target, updatedBy := "system", updatedAt := w.now);
        (WriteRow(w, t), CallbackReread(id, target))
    case CallbackReread(id, target) =>
      if id in w.db && target == Active then (w, ArmCancel(w.db[id])) else (w, Done)
    case Done => (w, Done)
  }

  function Spawn(w: World, task: Task): World {
    w.(tasks := w.tasks + [task])
  }

  function Step(w: World, a: Action): World
    requires Enabled(w, a)
  {
    match a
    case Insert(t) => Spawn(WriteRow(w, t).(inserted := w.inserted[t.id := t]), ArmCancel(t))
    case StartCancel(id, email) => Spawn(w, CheckCancel(id, email))
    case StartAdmin(id, status, reason, who) =>
      if status.Approved? || status.Rejected? || status.Revoked? then Spawn(w, Select(id, status, reason, who)) else w
    case Advance(i) =>
      var (w', next) := Execute(w, w.tasks[i]);
      w'.(tasks := w.tasks[i := next])
    case Stop(i) => w.(tasks := w.tasks[i := Done])
    case TimerFires(k) =>
      Spawn(w.(live := w.live[k := w.live[k].(armed := false)]), CallbackDelete(w.live[k].id, w.live[k].target))
    case Tick(d) => w.(now := w.now + d)
    case Crash => w.(tasks := [], live := [], timers := map[])
    case Recover(order) =>
      w.(tasks := w.tasks + seq(|order|, i requires 0 <= i < |order| => ArmCancel(w.db[order[i]])))
  }

  predicate ValidRun(w: World, acts: seq<Action>)
    decreases acts
  {
    acts == [] || (Enabled(w, acts[0]) && ValidRun(Step(w, acts[0]), acts[1..]))
  }

  function Run(w: World, acts: seq<Action>): World
    requires ValidRun(w, acts)
    decreases acts
  {
    if acts == [] then w else Run(Step(w, acts[0]), acts[1..])
  }

  // ---------- what every interleaving keeps ----------

  /** One of the first `n` writes gave ticket `id` the status `s`. */
  ghost predicate Written(log: seq<Write>, n: int, id: Id, s: Status) {
    exists j :: 0 <= j < n <= |log| && log[j].id == id && log[j].status == s
  }

  /** What must already have been written, and what the clock must have passed, for a write. */
  ghost predicate Justified(log: seq<Write>, n: int, id: Id, s: Status, at: Instant, inserted: map<Id, Ticket>) {
    && id in inserted
    && match s
       case Requested => false
       case Active => at >= inserted[id].periodStart && Written(log, n, id, Approved)
       case Expired => at >= inserted[id].periodEnd
       case Revoked => Written(log, n, id, Approved)
       case _ => Written(log, n, id, Requested)
  }

  ghost predicate FirstWrite(log: seq<Write>, n: int, id: Id) {
    forall j :: 0 <= j < n && j < |log| ==> log[j].id != id
  }

  ghost predicate LogInv(log: seq<Write>, inserted: map<Id, Ticket>) {
    forall k :: 0 <= k < |log| ==>
      || (log[k].status == Requested && log[k].id in inserted && FirstWrite(log, k, log[k].id))
      || Justified(log, k, log[k].id, log[k].status, log[k].at, inserted)
  }

  /** A row or a copy of one read at some time: the request as inserted, in a status once written. */
  ghost predicate Copy(t: Ticket, log: seq<Write>, inserted: map<Id, Ticket>) {
    t.id in inserted && SameRequest(t, inserted[t.id]) && Written(log, |log|, t.id, t.status)
  }

  ghost predicate TimerTarget(id: Id, target: Status, at: Instant, log: seq<Write>, inserted: map<Id, Ticket>) {
    (target == Active || target == Expired) && Justified(log, |log|, id, target, at, inserted)
  }

  ghost predicate TaskInv(task: Task, log: seq<Write>, inserted: map<Id, Ticket>, now: Instant) {
    match task
    case Select(_, status, _, _) => status.Approved? || status.Rejected? || status.Revoked? || status.Canceled?
    case Update(id, status, _, _) =>
      && (status.Approved? || status.Rejected? || status.Revoked? || status.Canceled?)
      && Justified(log, |log|, id, status, now, inserted)
    case ArmCancel(t) => Copy(t, log, inserted)
    case ArmPlan(t) => Copy(t, log, inserted)
    case ArmInsert(id, target, delay) => TimerTarget(id, target, now + delay, log, inserted)
    case CallbackDelete(id, target) => TimerTarget(id, target, now, log, inserted)
    case CallbackUpdate(id, target) => TimerTarget(id, target, now, log, inserted)
    case _ => true
  }

  ghost predicate RowsInv(w: World) {
    && w.db.Keys == w.inserted.Keys
    && (forall id :: id in w.db ==> w.db[id].id == id && Copy(w.db[id], w.log, w.inserted))
  }

  ghost predicate TasksInv(w: World) {
    forall i :: 0 <= i < |w.tasks| ==> TaskInv(w.tasks[i], w.log, w.inserted, w.now)
  }

  ghost predicate LiveInv(w: World) {
    forall k :: 0 <= k < |w.live| ==> TimerTarget(w.live[k].id, w.live[k].target, w.live[k].fireAt, w.log, w.inserted)
  }

  ghost predicate Inv(w: World) {
    && LogInv(w.log, w.inserted)
    && RowsInv(w) && TasksInv(w) && LiveInv(w)
  }

  /** The log only grows, inserted tickets stay, and time does not go back. */
  ghost predicate Grows(w: World, w': World) {
    && w.log <= w'.log && w.now <= w'.now
    && (forall id :: id in w.inserted ==> id in w'.inserted && w'.inserted[id] == w.inserted[id])
  }

  lemma JustifiedGrows(w: World, w': World, id: Id, s: Status, at: Instant, at': Instant)
    requires Grows(w, w') && Justified(w.log, |w.log|, id, s, at, w.inserted) && at <= at'
    ensures Justified(w'.log, |w'.log|, id, s, at', w'.inserted)
  {
  }

  lemma TaskGrows(w: World, w': World, task: Task)
    requires Grows(w, w') && TaskInv(task, w.log, w.inserted, w.now)
    ensures TaskInv(task, w'.log, w'.inserted, w'.now)
  {
    match task
    case Update(id, status, _, _) => JustifiedGrows(w, w', id, status, w.now, w'.now);
    case ArmInsert(id, target, delay) => JustifiedGrows(w, w', id, target, w.now + delay, w'.now + delay);
    case CallbackDelete(id, target) => JustifiedGrows(w, w', id, target, w.now, w'.now);
    case CallbackUpdate(id, target) => JustifiedGrows(w, w', id, target, w.now, w'.now);
    case _ =>
  }

  lemma TasksGrow(w: World, w': World)
    requires Grows(w, w') && TasksInv(w) && w'.tasks == w.tasks
    ensures TasksInv(w')
  {
    forall i | 0 <= i < |w'.tasks|
      ensures TaskInv(w'.tasks[i], w'.log, w'.inserted, w'.now)
    {
      TaskGrows(w, w', w.tasks[i]);
    }
  }

  lemma LiveGrows(w: World, w': World)
    requires Grows(w, w') && LiveInv(w) && w'.live == w.live
    ensures LiveInv(w')
  {
    forall k | 0 <= k < |w'.live|
      ensures TimerTarget(w'.live[k].id, w'.live[k].target, w'.live[k].fireAt, w'.log, w'.inserted)
    {
      JustifiedGrows(w, w', w.live[k].id, w.live[k].target, w.live[k].fireAt, w.live[k].fireAt);
    }
  }

  lemma LogGrows(log: seq<Write>, e: Write, inserted: map<Id, Ticket>)
    requires LogInv(log, inserted)
    requires (e.status == Requested && e.id in inserted && FirstWrite(log, |log|, e.id))
          || Justified(log, |log|, e.id, e.status, e.at, inserted)
    ensures LogInv(log + [e], inserted)
  {
    var log' := log + [e];
    forall k | 0 <= k < |log'|
      ensures (log'[k].status == Requested && log'[k].id in inserted && FirstWrite(log', k, log'[k].id))
           || Justified(log', k, log'[k].id, log'[k].status, log'[k].at, inserted)
    {
      PrefixJustified(log, e, k, log'[k].id, log'[k].status, log'[k].at, inserted);
    }
  }

  lemma PrefixJustified(log: seq<Write>, e: Write, k: nat, id: Id, s: Status, at: Instant, inserted: map<Id, Ticket>)
    requires k <= |log|
    ensures Justified(log, k, id, s, at, inserted) ==> Justified(log + [e], k, id, s, at, inserted)
    ensures FirstWrite(log, k, id) ==> FirstWrite(log + [e], k, id)
  {
    forall x | Written(log, k, id, x)
      ensures Written(log + [e], k, id, x)
    {
      var j :| 0 <= j < k && log[j].id == id && log[j].status == x;
      assert (log + [e])[j] == log[j];
    }
  }

  /** Copies stay copies when the log grows. */
  lemma CopyGrows(w: World, w': World, t: Ticket)
    requires Grows(w, w') && Copy(t, w.log, w.inserted)
    ensures Copy(t, w'.log, w'.inserted)
  {
  }

  /** Writing a row gives rows that are copies, if the request is the inserted one. */
  lemma WriteKeepsRows(w: World, w': World, t: Ticket)
    requires RowsInv(w) && Grows(w, w')
    requires w'.db == w.db[t.id := t] && w'.inserted.Keys == w.inserted.Keys + {t.id}
    requires SameRequest(t, w'.inserted[t.id]) && w'.log == w.log + [Write(t.id, t.status, w.now, t.updatedBy)]
    ensures RowsInv(w')
  {
    assert w'.log[|w.log|] == Write(t.id, t.status, w.now, t.updatedBy);
    assert Written(w'.log, |w'.log|, t.id, t.status);
    forall id | id in w'.db
      ensures w'.db[id].id == id && Copy(w'.db[id], w'.log, w'.inserted)
    {
      if id != t.id {
        CopyGrows(w, w', w.db[id]);
      }
    }
  }

  lemma WriteKeepsInv(w: World, t: Ticket)
    requires Inv(w) && t.id in w.db && SameRequest(t, w.db[t.id])
    requires Justified(w.log, |w.log|, t.id, t.status, w.now, w.inserted)
    ensures Inv(WriteRow(w, t)) && Grows(w, WriteRow(w, t))
  {
    var w' := WriteRow(w, t);
    assert Copy(w.db[t.id], w.log, w.inserted);
    WriteKeepsRows(w, w', t);
    GrowsKeepsRest(w, w');
    LogGrows(w.log, Write(t.id, t.status, w.now, t.updatedBy), w.inserted);
  }

  lemma GrowsKeepsRest(w: World, w': World)
    requires Grows(w, w') && TasksInv(w) && LiveInv(w) && w'.tasks == w.tasks && w'.live == w.live
    ensures TasksInv(w') && LiveInv(w')
  {
    TasksGrow(w, w');
    LiveGrows(w, w');
  }

  /** A status that has been written has been justified, so an active ticket was approved before. */
  lemma WrittenJustifies(w: World, id: Id, from: Status, to: Status)
    requires Inv(w) && id in w.inserted && Written(w.log, |w.log|, id, from) && IsValidTransition(from, to)
    requires !to.Active? && !to.Expired?
    ensures Justified(w.log, |w.log|, id, to, w.now, w.inserted)
  {
    if from == Active {
      var j :| 0 <= j < |w.log| && w.log[j].id == id && w.log[j].status == from;
      assert Justified(w.log, j, id, Active, w.log[j].at, w.inserted);
    }
  }

  lemma StopKeepsInv(w: World, id: Id)
    requires Inv(w)
    ensures Inv(StopTimer(w, id)) && Grows(w, StopTimer(w, id))
  {
    TasksGrow(w, StopTimer(w, id));
  }

  /** A goroutine's statement leaves the invariant, and its next statement is in order. */
  ghost predicate Carries(w: World, task: Task) {
    var (w', next) := Execute(w, task);
    Inv(w') && Grows(w, w') && w'.tasks == w.tasks && TaskInv(next, w'.log, w'.inserted, w'.now)
  }

  lemma SelectCarries(w: World, task: Task)
    requires Inv(w) && task.Select? && TaskInv(task, w.log, w.inserted, w.now)
    ensures Carries(w, task)
  {
    var id := task.id;
    if id in w.db && IsValidTransition(w.db[id].status, task.status) {
      WrittenJustifies(w, id, w.db[id].status, task.status);
    }
  }

  lemma UpdateCarries(w: World, task: Task)
    requires Inv(w) && task.Update? && TaskInv(task, w.log, w.inserted, w.now)
    ensures Carries(w, task)
  {
    var id := task.id;
    if id in w.db {
      WriteKeepsInv(w, w.db[id].(status := task.status, statusReason := task.reason, updatedBy := task.who, updatedAt := w.now));
    }
  }

  lemma CallbackCarries(w: World, task: Task)
    requires Inv(w) && task.CallbackUpdate? && TaskInv(task, w.log, w.inserted, w.now)
    ensures Carries(w, task)
  {
    var id := task.id;
    if id in w.db && w.db[id].status != task.target {
      WriteKeepsInv(w, w.db[id].(status := task.target, updatedBy := "system", updatedAt := w.now));
    }
  }

  lemma ReadCarries(w: World, task: Task)
    requires Inv(w) && (task.CheckCancel? || task.Reread? || task.CallbackReread? || task.ArmPlan? || task.Done?)
    requires TaskInv(task, w.log, w.inserted, w.now)
    ensures Carries(w, task)
  {
    if task.ArmPlan? {
      PlanCarries(w, task.t);
    } else if (task.Reread? || task.CallbackReread?) && task.id in w.db {
      assert Copy(w.db[task.id], w.log, w.inserted);
    }
    assert Execute(w, task).0 == w;
  }

  lemma PlanCarries(w: World, t: Ticket)
    requires Copy(t, w.log, w.inserted)
    ensures TaskInv(Execute(w, ArmPlan(t)).1, w.log, w.inserted, w.now)
  {
  }

  lemma StopCarries(w: World, task: Task)
    requires Inv(w) && (task.DropTimer? || task.ArmCancel?)
    requires TaskInv(task, w.log, w.inserted, w.now)
    ensures Carries(w, task)
  {
    StopKeepsInv(w, if task.DropTimer? then task.id else task.t.id);
  }

  lemma CallbackDeleteCarries(w: World, task: Task)
    requires Inv(w) && task.CallbackDelete? && TaskInv(task, w.log, w.inserted, w.now)
    ensures Carries(w, task)
  {
    var w' := Execute(w, task).0;
    assert RowsInv(w') && TasksInv(w') && LiveInv(w');
  }

  lemma ArmInsertCarries(w: World, task: Task)
    requires Inv(w) && task.ArmInsert? && TaskInv(task, w.log, w.inserted, w.now)
    ensures Carries(w, task)
  {
    var w' := Execute(w, task).0;
    assert LiveInv(w');
    assert RowsInv(w') && TasksInv(w');
  }

  lemma ExecuteCarries(w: World, task: Task)
    requires Inv(w) && TaskInv(task, w.log, w.inserted, w.now)
    ensures Carries(w, task)
  {
    if task.Select? {
      SelectCarries(w, task);
    } else if task.Update? {
      UpdateCarries(w, task);
    } else if task.CallbackUpdate? {
      CallbackCarries(w, task);
    } else if task.DropTimer? || task.ArmCancel? {
      StopCarries(w, task);
    } else if task.CallbackDelete? {
      CallbackDeleteCarries(w, task);
    } else if task.ArmInsert? {
      ArmInsertCarries(w, task);
    } else {
      ReadCarries(w, task);
    }
  }

  lemma AdvanceKeepsInv(w: World, i: nat)
    requires Inv(w) && i < |w.tasks|
    ensures Inv(Step(w, Advance(i)))
  {
    ExecuteCarries(w, w.tasks[i]);
  }

  lemma InsertKeepsLog(w: World, t: Ticket)
    requires LogInv(w.log, w.inserted) && t.id !in w.inserted && t.status == Requested
    ensures LogInv(w.log + [Write(t.id, Requested, w.now, t.updatedBy)], w.inserted[t.id := t])
  {
    var inserted := w.inserted[t.id := t];
    forall k | 0 <= k < |w.log|
      ensures w.log[k].id != t.id
    {
      assert w.log[k].id in w.inserted;
    }
    LogGrows(w.log, Write(t.id, Requested, w.now, t.updatedBy), inserted);
  }

  lemma InsertKeepsInv(w: World, t: Ticket)
    requires Inv(w) && Enabled(w, Insert(t))
    ensures Inv(Step(w, Insert(t)))
  {
    var w' := WriteRow(w, t).(inserted := w.inserted[t.id := t]);
    InsertKeepsLog(w, t);
    WriteKeepsRows(w, w', t);
    TasksGrow(w, w');
    LiveGrows(w, w');
    assert Copy(w'.db[t.id], w'.log, w'.inserted);
    SpawnKeepsInv(w', ArmCancel(t));
  }

  lemma SpawnKeepsInv(w: World, task: Task)
    requires Inv(w) && TaskInv(task, w.log, w.inserted, w.now)
    ensures Inv(Spawn(w, task))
  {
  }

  lemma FiresKeepsInv(w: World, k: nat)
    requires Inv(w) && Enabled(w, TimerFires(k))
    ensures Inv(Step(w, TimerFires(k)))
  {
    var l := w.live[k];
    var w' := w.(live := w.live[k := l.(armed := false)]);
    assert TimerTarget(l.id, l.target, l.fireAt, w.log, w.inserted);
    assert Inv(w');
    SpawnKeepsInv(w', CallbackDelete(l.id, l.target));
  }

  lemma StepKeepsInv(w: World, a: Action)
    requires Inv(w) && Enabled(w, a)
    ensures Inv(Step(w, a))
  {
    match a
    case Insert(t) => InsertKeepsInv(w, t);
    case StartCancel(id, email) => SpawnKeepsInv(w, CheckCancel(id, email));
    case StartAdmin(id, status, reason, who) =>
      if status.Approved? || status.Rejected? || status.Revoked? {
        SpawnKeepsInv(w, Select(id, status, reason, who));
      }
    case Advance(i) => AdvanceKeepsInv(w, i);
    case Stop(i) =>
    case TimerFires(k) => FiresKeepsInv(w, k);
    case Tick(d) => TasksGrow(w, Step(w, a));
    case Crash =>
    case Recover(order) => RecoverKeepsInv(w, order);
  }

  lemma RecoverKeepsInv(w: World, order: seq<Id>)
    requires Inv(w) && Enabled(w, Recover(order))
    ensures Inv(Step(w, Recover(order)))
  {
    var w' := Step(w, Recover(order));
    forall i | 0 <= i < |w'.tasks|
      ensures TaskInv(w'.tasks[i], w.log, w.inserted, w.now)
    {
      if i >= |w.tasks| {
        assert order[i - |w.tasks|] in Pending(w.db);
        assert w'.tasks[i] == ArmCancel(w.db[order[i - |w.tasks|]]);
      }
    }
  }

  ghost predicate Reachable(w: World) {
    exists acts :: ValidRun(START, acts) && Run(START, acts) == w
  }

  lemma {:induction false} RunKeepsInv(w: World, acts: seq<Action>)
    requires Inv(w) && ValidRun(w, acts)
    ensures Inv(Run(w, acts))
    decreases acts
  {
    if acts != [] {
      StepKeepsInv(w, acts[0]);
      RunKeepsInv(Step(w, acts[0]), acts[1..]);
    }
  }

  lemma ReachableInv(w: World)
    requires Reachable(w)
    ensures Inv(w)
  {
    var acts :| ValidRun(START, acts) && Run(START, acts) == w;
    RunKeepsInv(START, acts);
  }

  /**
   In every interleaving, each write was justified when it was made: see Justified for what
   each status needs; `requested` is only ever a ticket's first write.
   */
  lemma WritesAreJustified(w: World, k: nat)
    requires Reachable(w) && k < |w.log|
    ensures var e := w.log[k];
            if e.status == Requested then e.id in w.inserted && FirstWrite(w.log, k, e.id)
            else Justified(w.log, k, e.id, e.status, e.at, w.inserted)
  {
    ReachableInv(w);
  }

  /** In every interleaving, a row keeps its request and shows a status that was written for it. */
  lemma RowsKeepTheirRequest(w: World, id: Id)
    requires Reachable(w) && id in w.db
    ensures id in w.inserted && SameRequest(w.db[id], w.inserted[id])
    ensures Written(w.log, |w.log|, id, w.db[id].status)
  {
    ReachableInv(w);
    assert Copy(w.db[id], w.log, w.inserted);
  }
}
