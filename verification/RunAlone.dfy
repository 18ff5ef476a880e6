/**
 The statement-by-statement service and the one-step handlers are one: a goroutine that runs
 without interruption has the effect of its Lifecycle function.
 */
module RunAlone {
  import opened Options
  import opened Tickets
  import opened Lifecycle
  import opened Interleavings

  /** How many statements a goroutine has left at most. */
  function Left(task: Task): nat {
    match task
    case CheckCancel(_, _) => 8
    case Select(_, _, _, _) => 7
    case Update(_, _, _, _) => 6
    case CallbackDelete(_, _) => 6
    case Reread(_, _) => 5
    case CallbackUpdate(_, _) => 5
    case CallbackReread(_, _) => 4
    case ArmCancel(_) => 3
    case DropTimer(_) => 1
    case ArmPlan(_) => 2
    case ArmInsert(_, _, _) => 1
    case Done => 0
  }

  /** Runs a goroutine to its end. */
  function Finish(w: World, task: Task): World
    decreases Left(task)
  {
    if task.Done? then w else Finish(Execute(w, task).0, Execute(w, task).1)
  }

  lemma ExecuteIgnoresTasks(w: World, task: Task, tasks: seq<Task>)
    ensures Execute(w.(tasks := tasks), task) == (Execute(w, task).0.(tasks := tasks), Execute(w, task).1)
  {
  }

  /** Finishing is a run: the goroutine's turns, one after the other. */
  lemma {:induction false} FinishIsRun(w: World, i: nat) returns (acts: seq<Action>)
    requires i < |w.tasks|
    ensures ValidRun(w, acts) && Run(w, acts) == Finish(w, w.tasks[i]).(tasks := w.tasks[i := Done])
    ensures forall k :: 0 <= k < |acts| ==> acts[k] == Advance(i)
    decreases Left(w.tasks[i])
  {
    var task := w.tasks[i];
    if task.Done? {
      acts := [];
      assert w.tasks[i := Done] == w.tasks;
    } else {
      var w' := Step(w, Advance(i));
      acts := FinishIsRun(w', i);
      FinishIgnoresTasks(Execute(w, task).0, Execute(w, task).1, w'.tasks);
      assert w'.tasks[i := Done] == w.tasks[i := Done];
      assert ([Advance(i)] + acts)[1..] == acts;
      acts := [Advance(i)] + acts;
    }
  }

  lemma {:induction false} FinishIgnoresTasks(w: World, task: Task, tasks: seq<Task>)
    ensures Finish(w.(tasks := tasks), task) == Finish(w, task).(tasks := tasks)
    decreases Left(task)
  {
    if !task.Done? {
      ExecuteIgnoresTasks(w, task, tasks);
      FinishIgnoresTasks(Execute(w, task).0, Execute(w, task).1, tasks);
    }
  }

  /** A goroutine that stops has finished with what it has done; time passes for all. */
  lemma StopIsEnd(w: World, i: nat, d: nat)
    requires i < |w.tasks|
    ensures Step(w, Stop(i)) == w.(tasks := w.tasks[i := Done])
    ensures Step(w, Tick(d)) == w.(now := w.now + d)
  {
  }

  // ---------- tables and timers in step ----------

  /** One table, and the armed runtime timers are exactly the map's. */
  ghost predicate Mirrors(w: World, s: Sys) {
    && w.db == s.db && w.timers.Keys == s.timers.Keys
    && (forall id :: id in s.timers ==>
          w.timers[id] < |w.live| &&
          w.live[w.timers[id]] == Live(id, s.timers[id].target, s.timers[id].armedAt + s.timers[id].delay, true))
    && (forall k :: 0 <= k < |w.live| && w.live[k].armed ==> w.live[k].id in w.timers && w.timers[w.live[k].id] == k)
  }

  lemma StopMirrors(w: World, s: Sys, id: Id)
    requires Mirrors(w, s)
    ensures Mirrors(StopTimer(w, id), s.(timers := s.timers - {id})) && StopTimer(w, id).now == w.now
  {
    var w' := StopTimer(w, id);
    if id in w.timers {
      forall k | 0 <= k < |w'.live| && w'.live[k].armed
        ensures w'.live[k].id in w'.timers && w'.timers[w'.live[k].id] == k
      {
        assert w'.live[k] == w.live[k];
      }
    }
  }

  lemma InsertMirrors(w: World, s: Sys, id: Id, target: Status, delay: nat)
    requires Mirrors(w, s) && id !in s.timers
    ensures Mirrors(Execute(w, ArmInsert(id, target, delay)).0, s.(timers := s.timers[id := Timer(target, w.now, delay)]))
  {
    var w' := Execute(w, ArmInsert(id, target, delay)).0;
    forall k | 0 <= k < |w'.live| && w'.live[k].armed
      ensures w'.live[k].id in w'.timers && w'.timers[w'.live[k].id] == k
    {
      assert k < |w.live| ==> w'.live[k] == w.live[k];
    }
  }

  lemma WriteMirrors(w: World, s: Sys, t: Ticket)
    requires Mirrors(w, s)
    ensures Mirrors(WriteRow(w, t), s.(db := s.db[t.id := t]))
  {
  }

  // ---------- each goroutine, alone ----------

  lemma DropAlone(w: World, s: Sys, id: Id)
    requires Mirrors(w, s)
    ensures Mirrors(Finish(w, DropTimer(id)), s.(timers := s.timers - {id}))
  {
    StopMirrors(w, s, id);
    assert Finish(w, DropTimer(id)) == StopTimer(w, id);
  }

  lemma SetAlone(w: World, s: Sys, id: Id, target: Status, delay: nat)
    requires Mirrors(w, s) && id !in s.timers
    ensures Mirrors(Finish(w, ArmInsert(id, target, delay)), s.(timers := s.timers[id := Timer(target, w.now, delay)]))
    ensures Finish(w, ArmInsert(id, target, delay)).now == w.now
  {
    InsertMirrors(w, s, id, target, delay);
    var w' := Execute(w, ArmInsert(id, target, delay)).0;
    assert Finish(w, ArmInsert(id, target, delay)) == Finish(w', Done) == w';
  }

  lemma PlanAlone(w: World, s: Sys, t: Ticket)
    requires Mirrors(w, s) && t.id !in s.timers
    ensures Mirrors(Finish(w, ArmPlan(t)), s.(timers := Lifecycle.Schedule(s.timers, t, w.now)))
    ensures Finish(w, ArmPlan(t)).now == w.now
  {
    if PlanOf(t).Plan? {
      var target, delay := PlanOf(t).target, Max(0, PlanOf(t).time - w.now);
      SetAlone(w, s, t.id, target, delay);
      assert Execute(w, ArmPlan(t)) == (w, ArmInsert(t.id, target, delay));
    } else {
      assert Execute(w, ArmPlan(t)) == (w, Done);
      assert s.timers - {t.id} == s.timers;
    }
  }

  lemma ScheduleAfterCancel(timers: map<Id, Timer>, t: Ticket, now: Instant)
    ensures Lifecycle.Schedule(timers - {t.id}, t, now) == Lifecycle.Schedule(timers, t, now)
  {
  }

  /** Schedule. */
  lemma ArmAlone(w: World, s: Sys, t: Ticket)
    requires Mirrors(w, s)
    ensures Mirrors(Finish(w, ArmCancel(t)), s.(timers := Lifecycle.Schedule(s.timers, t, w.now)))
    ensures Finish(w, ArmCancel(t)).now == w.now
  {
    StopMirrors(w, s, t.id);
    PlanAlone(StopTimer(w, t.id), s.(timers := s.timers - {t.id}), t);
    ScheduleAfterCancel(s.timers, t, w.now);
    assert Execute(w, ArmCancel(t)) == (StopTimer(w, t.id), ArmPlan(t));
  }

  /** A request: the insert, then Schedule. */
  lemma RequestAlone(w: World, s: Sys, t: Ticket)
    requires Mirrors(w, s) && Enabled(w, Insert(t))
    ensures var w' := Step(w, Insert(t));
            && w'.tasks == w.tasks + [ArmCancel(t)]
            && Mirrors(Finish(w', ArmCancel(t)), s.(db := s.db[t.id := t], timers := Lifecycle.Schedule(s.timers, t, w.now)))
  {
    WriteMirrors(w, s, t);
    var w' := Step(w, Insert(t));
    assert Mirrors(w', s.(db := s.db[t.id := t]));
    ArmAlone(w', s.(db := s.db[t.id := t]), t);
  }

  lemma UpdateAlone(w: World, s: Sys, id: Id, status: Status, reason: string, who: string)
    requires Mirrors(w, s) && id in s.db && s.db[id].id == id
    ensures var t := s.db[id].(status := status, statusReason := reason, updatedBy := who, updatedAt := w.now);
            Mirrors(Finish(w, Update(id, status, reason, who)),
                    Sys(s.db[id := t],
                        if status == Approved then Lifecycle.Schedule(s.timers, t, w.now) else s.timers - {id}, s.calls))
  {
    var t := s.db[id].(status := status, statusReason := reason, updatedBy := who, updatedAt := w.now);
    var w1, s1 := WriteRow(w, t), s.(db := s.db[id := t]);
    WriteMirrors(w, s, t);
    assert Finish(w, Update(id, status, reason, who)) == Finish(w1, Reread(id, status));
    if status == Approved {
      assert Finish(w1, Reread(id, status)) == Finish(w1, ArmCancel(t));
      ArmAlone(w1, s1, t);
    } else {
      assert Finish(w1, Reread(id, status)) == Finish(w1, DropTimer(id));
      DropAlone(w1, s1, id);
    }
  }

  lemma AdminWrites(s: Sys, id: Id, status: Status, reason: string, who: string, now: Instant)
    requires id.text != "" && id in s.db && s.db[id].id == id && IsValidTransition(s.db[id].status, status)
    requires status == Approved || status == Rejected || status == Revoked
    ensures var t := s.db[id].(status := status, statusReason := reason, updatedBy := who, updatedAt := now);
            HandleAdminUpdate(s, id, status, reason, who, now, true, true).0 ==
            Sys(s.db[id := t], if status == Approved then Lifecycle.Schedule(s.timers, t, now) else s.timers - {id},
                s.calls + [Call(id, status)])
  {
  }

  /** An administrator's update. */
  lemma AdminAlone(w: World, s: Sys, id: Id, status: Status, reason: string, who: string)
    requires Mirrors(w, s) && id.text != "" && (id in s.db ==> s.db[id].id == id)
    requires status == Approved || status == Rejected || status == Revoked
    ensures var task := Select(id, status, reason, who);
            && Step(w, StartAdmin(id, status, reason, who)) == Spawn(w, task)
            && Mirrors(Finish(w, task), HandleAdminUpdate(s, id, status, reason, who, w.now, true, true).0)
  {
    var task := Select(id, status, reason, who);
    if id in s.db && IsValidTransition(s.db[id].status, status) {
      assert Execute(w, task) == (w, Update(id, status, reason, who));
      UpdateAlone(w, s, id, status, reason, who);
      AdminWrites(s, id, status, reason, who, w.now);
    } else {
      assert Execute(w, task) == (w, Done) && Finish(w, Done) == w;
    }
  }

  /** A user's cancellation. */
  lemma CancelAlone(w: World, s: Sys, id: Id, email: string)
    requires Mirrors(w, s) && id.text != "" && (id in s.db ==> s.db[id].id == id)
    ensures Step(w, StartCancel(id, email)) == Spawn(w, CheckCancel(id, email))
    ensures Mirrors(Finish(w, CheckCancel(id, email)), HandleCancel(s, Some(email), id, id, w.now, true, true, true).0)
  {
    if id in s.db && s.db[id].email == email && s.db[id].status == Requested {
      var task := Select(id, Canceled, "Canceled by user", email);
      assert Execute(w, CheckCancel(id, email)) == (w, task);
      assert Execute(w, task) == (w, Update(id, Canceled, "Canceled by user", email));
      UpdateAlone(w, s, id, Canceled, "Canceled by user", email);
    } else {
      assert Execute(w, CheckCancel(id, email)) == (w, Done) && Finish(w, Done) == w;
    }
  }

  lemma RereadAlone(w: World, s: Sys, id: Id, target: Status)
    requires Mirrors(w, s) && id !in s.timers && id in s.db && s.db[id].id == id
    ensures Mirrors(Finish(w, CallbackReread(id, target)),
                    if target == Active then s.(timers := Lifecycle.Schedule(s.timers, s.db[id], w.now)) else s)
  {
    if target == Active {
      assert Execute(w, CallbackReread(id, target)) == (w, ArmCancel(s.db[id]));
      ArmAlone(w, s, s.db[id]);
    } else {
      assert Execute(w, CallbackReread(id, target)) == (w, Done) && Finish(w, Done) == w;
    }
  }

  lemma ChangeAlone(w: World, s: Sys, id: Id, target: Status)
    requires Mirrors(w, s) && id !in s.timers && id in s.db && s.db[id].id == id && s.db[id].status != target
    ensures var t := s.db[id].(status := target, updatedBy := "system", updatedAt := w.now);
            Mirrors(Finish(w, CallbackUpdate(id, target)),
                    s.(db := s.db[id := t], timers := if target == Active then Lifecycle.Schedule(s.timers, t, w.now) else s.timers))
  {
    var t := s.db[id].(status := target, updatedBy := "system", updatedAt := w.now);
    WriteMirrors(w, s, t);
    assert Execute(w, CallbackUpdate(id, target)) == (WriteRow(w, t), CallbackReread(id, target));
    RereadAlone(WriteRow(w, t), s.(db := s.db[id := t]), id, target);
  }

  lemma WriteBackAlone(w: World, s: Sys, id: Id, target: Status)
    requires Mirrors(w, s) && id !in s.timers && (id in s.db ==> s.db[id].id == id)
    ensures Mirrors(Finish(w, CallbackUpdate(id, target)), ExecuteTransition(s, id, target, w.now, true, true))
  {
    assert s.timers - {id} == s.timers;
    if id in s.db && s.db[id].status != target {
      ChangeAlone(w, s, id, target);
      var t := s.db[id].(status := target, updatedBy := "system", updatedAt := w.now);
      assert ExecuteTransition(s, id, target, w.now, true, true) ==
        Sys(s.db[id := t], if target == Active then Lifecycle.Schedule(s.timers, t, w.now) else s.timers, s.calls + [Call(id, target)]);
    } else {
      assert Execute(w, CallbackUpdate(id, target)) == (w, Done) && Finish(w, Done) == w;
    }
  }

  /** Firing takes the armed timer, and the callback's first statement the map entry. */
  lemma FiredMirrors(w: World, s: Sys, id: Id) returns (w1: World)
    requires Mirrors(w, s) && id in s.timers && Due(s.timers[id], w.now)
    ensures Enabled(w, TimerFires(w.timers[id]))
    ensures var w' := Step(w, TimerFires(w.timers[id]));
            var target := s.timers[id].target;
            && w'.tasks == w.tasks + [CallbackDelete(id, target)]
            && Finish(w', CallbackDelete(id, target)) == Finish(w1, CallbackUpdate(id, target))
    ensures Mirrors(w1, s.(timers := s.timers - {id})) && w1.now == w.now
  {
    StopMirrors(w, s, id);
    w1 := Execute(Step(w, TimerFires(w.timers[id])), CallbackDelete(id, s.timers[id].target)).0;
  }

  lemma TransitionAfterDelete(s: Sys, id: Id, target: Status, now: Instant)
    ensures ExecuteTransition(s.(timers := s.timers - {id}), id, target, now, true, true) ==
            ExecuteTransition(s, id, target, now, true, true)
  {
    assert s.timers - {id} - {id} == s.timers - {id};
  }

  /** A timer that fires, and its callback. */
  lemma CallbackAlone(w: World, s: Sys, id: Id)
    requires Mirrors(w, s) && id in s.timers && Due(s.timers[id], w.now) && (id in s.db ==> s.db[id].id == id)
    ensures var target := s.timers[id].target;
            && Enabled(w, TimerFires(w.timers[id]))
            && var w' := Step(w, TimerFires(w.timers[id]));
               && w'.tasks == w.tasks + [CallbackDelete(id, target)]
               && Mirrors(Finish(w', CallbackDelete(id, target)), ExecuteTransition(s, id, target, w.now, true, true))
  {
    var w1 := FiredMirrors(w, s, id);
    WriteBackAlone(w1, s.(timers := s.timers - {id}), id, s.timers[id].target);
    TransitionAfterDelete(s, id, s.timers[id].target, w.now);
  }

  // ---------- recovery, alone ----------

  /** Schedulings one after the other. */
  function FinishAll(w: World, tickets: seq<Ticket>): World
    decreases tickets
  {
    if tickets == [] then w else FinishAll(Finish(w, ArmCancel(tickets[0])), tickets[1..])
  }

  function ScheduleAll(timers: map<Id, Timer>, tickets: seq<Ticket>, now: Instant): map<Id, Timer>
    decreases tickets
  {
    if tickets == [] then timers else ScheduleAll(Lifecycle.Schedule(timers, tickets[0], now), tickets[1..], now)
  }

  lemma {:induction false} SchedulingsAlone(w: World, s: Sys, tickets: seq<Ticket>)
    requires Mirrors(w, s)
    ensures Mirrors(FinishAll(w, tickets), s.(timers := ScheduleAll(s.timers, tickets, w.now)))
    decreases tickets
  {
    if tickets == [] {
      assert s.(timers := s.timers) == s;
    } else {
      ArmAlone(w, s, tickets[0]);
      SchedulingsAlone(Finish(w, ArmCancel(tickets[0])), s.(timers := Lifecycle.Schedule(s.timers, tickets[0], w.now)), tickets[1..]);
    }
  }

  /** The tickets with a timer, each with the one it calls for. */
  ghost predicate TimersOfRows(timers: map<Id, Timer>, ids: set<Id>, db: map<Id, Ticket>, now: Instant) {
    && timers.Keys == ids && ids <= db.Keys
    && forall id :: id in ids ==>
         PlanOf(db[id]).Plan? && timers[id] == Timer(PlanOf(db[id]).target, now, Max(0, PlanOf(db[id]).time - now))
  }

  lemma {:induction false} ScheduleAllRows(timers: map<Id, Timer>, ids: set<Id>, order: seq<Id>, db: map<Id, Ticket>, now: Instant)
    requires TimersOfRows(timers, ids, db, now) && forall id :: id in db ==> db[id].id == id
    requires forall i :: 0 <= i < |order| ==> order[i] in Pending(db)
    ensures TimersOfRows(ScheduleAll(timers, Rows(db, order), now), ids + (set id | id in order), db, now)
    decreases order
  {
    if order == [] {
      assert ids + (set id | id in order) == ids;
    } else {
      assert order[0] in Pending(db);
      assert Rows(db, order)[0] == db[order[0]] && Rows(db, order)[1..] == Rows(db, order[1..]);
      ScheduleAllRows(Lifecycle.Schedule(timers, db[order[0]], now), ids + {order[0]}, order[1..], db, now);
      assert ids + {order[0]} + (set id | id in order[1..]) == ids + (set id | id in order);
    }
  }

  function Rows(db: map<Id, Ticket>, order: seq<Id>): seq<Ticket>
    requires forall i :: 0 <= i < |order| ==> order[i] in Pending(db)
  {
    seq(|order|, i requires 0 <= i < |order| => assert order[i] in Pending(db); db[order[i]])
  }

  lemma OrderIsPending(db: map<Id, Ticket>, order: seq<Id>)
    requires forall i :: 0 <= i < |order| ==> order[i] in Pending(db)
    requires forall id :: id in Pending(db) ==> id in order
    ensures (set id | id in order) == Pending(db)
  {
    forall id | id in order
      ensures id in Pending(db)
    {
      var i :| 0 <= i < |order| && order[i] == id;
    }
  }

  /** The crash leaves the table; recovery starts one scheduling a ticket. */
  lemma RecoveryStarts(w: World, s: Sys, order: seq<Id>)
    requires w.db == s.db && Enabled(w, Recover(order))
    ensures var w' := Step(Step(w, Crash), Recover(order));
            && Mirrors(w', s.(timers := map[])) && w'.now == w.now
            && |w'.tasks| == |order| && (forall i :: 0 <= i < |order| ==> w'.tasks[i] == ArmCancel(Rows(s.db, order)[i]))
  {
  }

  lemma SchedulingsRebuild(w: World, s: Sys, order: seq<Id>)
    requires Mirrors(w, s.(timers := map[])) && forall id :: id in s.db ==> s.db[id].id == id
    requires forall i :: 0 <= i < |order| ==> order[i] in Pending(s.db)
    requires forall id :: id in Pending(s.db) ==> id in order
    ensures exists timers :: TimersOfRows(timers, Pending(s.db), s.db, w.now)
                             && Mirrors(FinishAll(w, Rows(s.db, order)), s.(timers := timers))
  {
    SchedulingsAlone(w, s.(timers := map[]), Rows(s.db, order));
    ScheduleAllRows(map[], {}, order, s.db, w.now);
    OrderIsPending(s.db, order);
    assert {} + (set id | id in order) == Pending(s.db);
  }

  /** After a crash, the pending tickets read in any order and scheduled one by one have just the timers they call for. */
  lemma RecoveryAlone(w: World, s: Sys, order: seq<Id>)
    requires w.db == s.db && forall id :: id in s.db ==> s.db[id].id == id
    requires Enabled(w, Recover(order)) && (forall id :: id in Pending(s.db) ==> id in order)
    ensures var w' := Step(Step(w, Crash), Recover(order));
            exists timers :: TimersOfRows(timers, Pending(s.db), s.db, w.now)
                             && Mirrors(FinishAll(w', Rows(s.db, order)), s.(timers := timers))
  {
    RecoveryStarts(w, s, order);
    SchedulingsRebuild(Step(Step(w, Crash), Recover(order)), s, order);
  }
}
