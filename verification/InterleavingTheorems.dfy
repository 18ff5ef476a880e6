/**
 Who may write what in every interleaving, when a terminal status survives every interleaving,
 and a run in which it does not.
 */
module InterleavingTheorems {
  import opened Options
  import opened Tickets
  import opened Lifecycle
  import opened Interleavings

  // ---------- who writes ----------

  /** Only the requester cancels, and only the scheduler activates and expires. */
  predicate RightAuthor(e: Write, inserted: map<Id, Ticket>) {
    match e.status
    case Canceled => e.id in inserted && e.who == inserted[e.id].email
    case Active => e.who == "system"
    case Expired => e.who == "system"
    case _ => true
  }

  /** A cancellation under way is its requester's. */
  predicate RightTask(task: Task, inserted: map<Id, Ticket>) {
    match task
    case Select(id, Canceled, _, who) => id in inserted && who == inserted[id].email
    case Update(id, Canceled, _, who) => id in inserted && who == inserted[id].email
    case _ => true
  }

  ghost predicate RightAuthors(w: World) {
    && (forall k :: 0 <= k < |w.log| ==> RightAuthor(w.log[k], w.inserted))
    && (forall i :: 0 <= i < |w.tasks| ==> RightTask(w.tasks[i], w.inserted))
  }

  ghost predicate EmailsKept(w: World) {
    forall id :: id in w.db ==> id in w.inserted && w.db[id].id == id && w.db[id].email == w.inserted[id].email
  }

  /** Users and administrators never write what the scheduler writes, nor it what they write. */
  predicate RightKind(task: Task) {
    match task
    case Select(_, status, _, _) => !status.Active? && !status.Expired?
    case Update(_, status, _, _) => !status.Active? && !status.Expired?
    case CallbackUpdate(_, target) => target.Active? || target.Expired?
    case _ => true
  }

  /** What one statement adds to the log is rightly authored, and so is what comes next. */
  lemma ExecuteKeepsAuthors(w: World, task: Task)
    requires EmailsKept(w) && RightKind(task) && RightTask(task, w.inserted)
    ensures var (w', next) := Execute(w, task);
            && w'.tasks == w.tasks && w'.inserted == w.inserted && RightTask(next, w.inserted)
            && (w'.log == w.log || exists e :: RightAuthor(e, w.inserted) && w'.log == w.log + [e])
  {
  }

  lemma AdvanceKeepsAuthors(w: World, i: nat)
    requires EmailsKept(w) && RightAuthors(w) && i < |w.tasks| && RightKind(w.tasks[i])
    ensures RightAuthors(Step(w, Advance(i)))
  {
    ExecuteKeepsAuthors(w, w.tasks[i]);
  }

  lemma InsertKeepsAuthors(w: World, t: Ticket)
    requires RightAuthors(w) && Enabled(w, Insert(t))
    ensures RightAuthors(Step(w, Insert(t)))
  {
  }

  lemma InvKinds(w: World)
    requires Inv(w)
    ensures EmailsKept(w) && forall i :: 0 <= i < |w.tasks| ==> RightKind(w.tasks[i])
  {
    forall i | 0 <= i < |w.tasks|
      ensures RightKind(w.tasks[i])
    {
      assert TaskInv(w.tasks[i], w.log, w.inserted, w.now);
    }
  }

  lemma StepKeepsAuthors(w: World, a: Action)
    requires Inv(w) && RightAuthors(w) && Enabled(w, a)
    ensures RightAuthors(Step(w, a))
  {
    InvKinds(w);
    match a
    case Advance(i) => AdvanceKeepsAuthors(w, i);
    case Insert(t) => InsertKeepsAuthors(w, t);
    case _ =>
  }

  lemma {:induction false} RunKeepsAuthors(w: World, acts: seq<Action>)
    requires Inv(w) && RightAuthors(w) && ValidRun(w, acts)
    ensures RightAuthors(Run(w, acts))
    decreases acts
  {
    if acts != [] {
      StepKeepsInv(w, acts[0]);
      StepKeepsAuthors(w, acts[0]);
      RunKeepsAuthors(Step(w, acts[0]), acts[1..]);
    }
  }

  /** In every interleaving `canceled` is written by the ticket's requester, `active` and `expired` by the scheduler. */
  lemma WritersAreRight(w: World, k: nat)
    requires Reachable(w) && k < |w.log|
    ensures RightAuthor(w.log[k], w.inserted)
  {
    var acts :| ValidRun(START, acts) && Run(START, acts) == w;
    RunKeepsAuthors(START, acts);
  }

  // ---------- when a terminal status survives ----------

  predicate PlansOther(t: Ticket, id: Id, s: Status) {
    t.id == id && PlanOf(t).Plan? && PlanOf(t).target != s
  }

  /** A goroutine on its way to writing another status than `s` for ticket `id`. */
  predicate Threat(task: Task, id: Id, s: Status) {
    match task
    case Update(i, status, _, _) => i == id && status != s
    case ArmCancel(t) => PlansOther(t, id, s)
    case ArmPlan(t) => PlansOther(t, id, s)
    case ArmInsert(i, target, _) => i == id && target != s
    case CallbackDelete(i, target) => i == id && target != s
    case CallbackUpdate(i, target) => i == id && target != s
    case _ => false
  }

  predicate TimerThreat(l: Live, id: Id, s: Status) {
    l.armed && l.id == id && l.target != s
  }

  ghost predicate Threatened(w: World, id: Id, s: Status) {
    || (exists i :: 0 <= i < |w.tasks| && Threat(w.tasks[i], id, s))
    || (exists k :: 0 <= k < |w.live| && TimerThreat(w.live[k], id, s))
  }

  predicate Shows(w: World, id: Id, s: Status) {
    id in w.db && w.db[id].status == s
  }

  ghost predicate RowsNamed(w: World) {
    forall id :: id in w.db ==> w.db[id].id == id
  }

  lemma StopSafe(w: World, x: Id, id: Id, s: Status)
    requires Shows(w, id, s) && !Threatened(w, id, s)
    ensures Shows(StopTimer(w, x), id, s) && !Threatened(StopTimer(w, x), id, s)
  {
    var w' := StopTimer(w, x);
    assert forall k :: 0 <= k < |w'.live| && TimerThreat(w'.live[k], id, s) ==> TimerThreat(w.live[k], id, s);
  }

  lemma SetSafe(w: World, task: Task, id: Id, s: Status)
    requires Shows(w, id, s) && !Threatened(w, id, s) && task.ArmInsert? && !Threat(task, id, s)
    ensures var (w', next) := Execute(w, task);
            Shows(w', id, s) && !Threatened(w', id, s) && !Threat(next, id, s)
  {
    var w' := Execute(w, task).0;
    forall k | 0 <= k < |w'.live|
      ensures !TimerThreat(w'.live[k], id, s)
    {
      assert k < |w.live| ==> w'.live[k] == w.live[k];
    }
  }

  lemma WriteSafe(w: World, task: Task, id: Id, s: Status)
    requires RowsNamed(w) && Shows(w, id, s) && !Threatened(w, id, s) && !Threat(task, id, s)
    requires task.Update? || task.CallbackUpdate?
    ensures var (w', next) := Execute(w, task);
            Shows(w', id, s) && !Threatened(w', id, s) && !Threat(next, id, s)
  {
  }

  /** A statement that is no threat makes none. */
  lemma ExecuteSafe(w: World, task: Task, id: Id, s: Status)
    requires RowsNamed(w) && Shows(w, id, s) && !Threatened(w, id, s) && Terminal(s) && !Threat(task, id, s)
    ensures var (w', next) := Execute(w, task);
            Shows(w', id, s) && !Threatened(w', id, s) && w'.tasks == w.tasks && !Threat(next, id, s)
  {
    if task.ArmInsert? {
      SetSafe(w, task, id, s);
    } else if task.DropTimer? {
      StopSafe(w, task.id, id, s);
    } else if task.ArmCancel? {
      StopSafe(w, task.t.id, id, s);
    } else if task.Update? || task.CallbackUpdate? {
      WriteSafe(w, task, id, s);
    }
  }

  lemma SpawnSafe(w: World, task: Task, id: Id, s: Status)
    requires Shows(w, id, s) && !Threatened(w, id, s) && !Threat(task, id, s)
    ensures Shows(Spawn(w, task), id, s) && !Threatened(Spawn(w, task), id, s)
  {
  }

  lemma AdvanceSafe(w: World, i: nat, id: Id, s: Status)
    requires RowsNamed(w) && Shows(w, id, s) && !Threatened(w, id, s) && Terminal(s) && i < |w.tasks|
    ensures Shows(Step(w, Advance(i)), id, s) && !Threatened(Step(w, Advance(i)), id, s)
  {
    ExecuteSafe(w, w.tasks[i], id, s);
  }

  lemma FiresSafe(w: World, k: nat, id: Id, s: Status)
    requires Shows(w, id, s) && !Threatened(w, id, s) && Enabled(w, TimerFires(k))
    ensures Shows(Step(w, TimerFires(k)), id, s) && !Threatened(Step(w, TimerFires(k)), id, s)
  {
    assert !TimerThreat(w.live[k], id, s);
    var w' := w.(live := w.live[k := w.live[k].(armed := false)]);
    assert forall j :: 0 <= j < |w'.live| && TimerThreat(w'.live[j], id, s) ==> TimerThreat(w.live[j], id, s);
    SpawnSafe(w', CallbackDelete(w.live[k].id, w.live[k].target), id, s);
  }

  lemma RecoverSafe(w: World, order: seq<Id>, id: Id, s: Status)
    requires RowsNamed(w) && Shows(w, id, s) && !Threatened(w, id, s) && Terminal(s) && Enabled(w, Recover(order))
    ensures Shows(Step(w, Recover(order)), id, s) && !Threatened(Step(w, Recover(order)), id, s)
  {
    var w' := Step(w, Recover(order));
    forall i | 0 <= i < |w'.tasks|
      ensures !Threat(w'.tasks[i], id, s)
    {
      if i >= |w.tasks| {
        assert order[i - |w.tasks|] in Pending(w.db);
        assert w'.tasks[i] == ArmCancel(w.db[order[i - |w.tasks|]]);
      }
    }
  }

  lemma StepSafe(w: World, a: Action, id: Id, s: Status)
    requires RowsNamed(w) && Shows(w, id, s) && !Threatened(w, id, s) && Terminal(s) && Enabled(w, a)
    ensures Shows(Step(w, a), id, s) && !Threatened(Step(w, a), id, s)
  {
    match a
    case Insert(t) => SpawnSafe(WriteRow(w, t).(inserted := w.inserted[t.id := t]), ArmCancel(t), id, s);
    case StartCancel(i, email) => SpawnSafe(w, CheckCancel(i, email), id, s);
    case StartAdmin(i, status, reason, who) => SpawnSafe(w, Select(i, status, reason, who), id, s);
    case Advance(i) => AdvanceSafe(w, i, id, s);
    case TimerFires(k) => FiresSafe(w, k, id, s);
    case Recover(order) => RecoverSafe(w, order, id, s);
    case _ =>
  }

  lemma {:induction false} RunSafe(w: World, acts: seq<Action>, id: Id, s: Status)
    requires Inv(w) && Shows(w, id, s) && !Threatened(w, id, s) && Terminal(s) && ValidRun(w, acts)
    ensures Shows(Run(w, acts), id, s)
    decreases acts
  {
    if acts != [] {
      StepKeepsInv(w, acts[0]);
      StepSafe(w, acts[0], id, s);
      RunSafe(Step(w, acts[0]), acts[1..], id, s);
    }
  }

  /** Every continuation leaves the row's status as it is. */
  ghost predicate Survives(w: World, id: Id, s: Status) {
    forall acts :: ValidRun(w, acts) ==> Shows(Run(w, acts), id, s)
  }

  lemma UnthreatenedSurvives(w: World, id: Id, s: Status)
    requires Inv(w) && Shows(w, id, s) && !Threatened(w, id, s) && Terminal(s)
    ensures Survives(w, id, s)
  {
    forall acts | ValidRun(w, acts)
      ensures Shows(Run(w, acts), id, s)
    {
      RunSafe(w, acts, id, s);
    }
  }

  lemma OverwrittenNow(w: World, id: Id, s: Status)
    requires !Shows(w, id, s)
    ensures !Survives(w, id, s)
  {
    assert ValidRun(w, []) && Run(w, []) == w;
  }

  lemma OverwrittenLater(w: World, a: Action, id: Id, s: Status)
    requires Enabled(w, a) && !Survives(Step(w, a), id, s)
    ensures !Survives(w, id, s)
  {
    var acts :| ValidRun(Step(w, a), acts) && !Shows(Run(Step(w, a), acts), id, s);
    assert ([a] + acts)[1..] == acts;
    assert ValidRun(w, [a] + acts) && Run(w, [a] + acts) == Run(Step(w, a), acts);
  }

  lemma WriteBreaks(w: World, i: nat, id: Id, s: Status)
    requires RowsNamed(w) && Shows(w, id, s) && i < |w.tasks| && Threat(w.tasks[i], id, s)
    requires w.tasks[i].Update? || w.tasks[i].CallbackUpdate?
    ensures !Survives(w, id, s)
  {
    OverwrittenNow(Step(w, Advance(i)), id, s);
    OverwrittenLater(w, Advance(i), id, s);
  }

  lemma CallbackBreaks(w: World, i: nat, id: Id, s: Status)
    requires RowsNamed(w) && Shows(w, id, s) && i < |w.tasks| && Threat(w.tasks[i], id, s) && w.tasks[i].CallbackDelete?
    ensures !Survives(w, id, s)
  {
    WriteBreaks(Step(w, Advance(i)), i, id, s);
    OverwrittenLater(w, Advance(i), id, s);
  }

  lemma TimerBreaks(w: World, k: nat, id: Id, s: Status)
    requires RowsNamed(w) && Shows(w, id, s) && k < |w.live| && TimerThreat(w.live[k], id, s)
    ensures !Survives(w, id, s)
  {
    var tick := Tick(Max(0, w.live[k].fireAt - w.now));
    var w1 := Step(w, tick);
    var w2 := Step(w1, TimerFires(k));
    assert w2.tasks[|w.tasks|] == CallbackDelete(id, w.live[k].target);
    CallbackBreaks(w2, |w.tasks|, id, s);
    OverwrittenLater(w1, TimerFires(k), id, s);
    OverwrittenLater(w, tick, id, s);
  }

  lemma InsertBreaks(w: World, i: nat, id: Id, s: Status)
    requires RowsNamed(w) && Shows(w, id, s) && i < |w.tasks| && Threat(w.tasks[i], id, s) && w.tasks[i].ArmInsert?
    ensures !Survives(w, id, s)
  {
    TimerBreaks(Step(w, Advance(i)), |w.live|, id, s);
    OverwrittenLater(w, Advance(i), id, s);
  }

  lemma PlanBreaks(w: World, i: nat, id: Id, s: Status)
    requires RowsNamed(w) && Shows(w, id, s) && i < |w.tasks| && Threat(w.tasks[i], id, s) && w.tasks[i].ArmPlan?
    ensures !Survives(w, id, s)
  {
    InsertBreaks(Step(w, Advance(i)), i, id, s);
    OverwrittenLater(w, Advance(i), id, s);
  }

  lemma ThreatBreaks(w: World, i: nat, id: Id, s: Status)
    requires RowsNamed(w) && Shows(w, id, s) && i < |w.tasks| && Threat(w.tasks[i], id, s)
    ensures !Survives(w, id, s)
  {
    match w.tasks[i]
    case ArmCancel(_) =>
      PlanBreaks(Step(w, Advance(i)), i, id, s);
      OverwrittenLater(w, Advance(i), id, s);
    case ArmPlan(_) => PlanBreaks(w, i, id, s);
    case ArmInsert(_, _, _) => InsertBreaks(w, i, id, s);
    case CallbackDelete(_, _) => CallbackBreaks(w, i, id, s);
    case _ => WriteBreaks(w, i, id, s);
  }

  lemma ThreatenedBreaks(w: World, id: Id, s: Status)
    requires RowsNamed(w) && Shows(w, id, s) && Threatened(w, id, s)
    ensures !Survives(w, id, s)
  {
    if i :| 0 <= i < |w.tasks| && Threat(w.tasks[i], id, s) {
      ThreatBreaks(w, i, id, s);
    } else {
      var k :| 0 <= k < |w.live| && TimerThreat(w.live[k], id, s);
      TimerBreaks(w, k, id, s);
    }
  }

  /**
   A terminal status survives every continuation iff no goroutine is on its way to writing, and
   no timer is set for, another one.
   */
  lemma TerminalSurvivesIff(w: World, id: Id)
    requires Inv(w) && id in w.db && Terminal(w.db[id].status)
    ensures Survives(w, id, w.db[id].status) <==> !Threatened(w, id, w.db[id].status)
  {
    var s := w.db[id].status;
    if Threatened(w, id, s) {
      InvKinds(w);
      ThreatenedBreaks(w, id, s);
    } else {
      UnthreatenedSurvives(w, id, s);
    }
  }

  /** So after a crash every terminal status stays, whatever was under way. */
  lemma CrashSettles(w: World, id: Id)
    requires Inv(w) && id in w.db && Terminal(w.db[id].status)
    ensures Survives(Step(w, Crash), id, w.db[id].status)
  {
    StepKeepsInv(w, Crash);
    TerminalSurvivesIff(Step(w, Crash), id);
  }

  // ---------- what interleaving costs ----------

  lemma {:induction false} RunSnoc(w: World, acts: seq<Action>, a: Action)
    requires ValidRun(w, acts) && Enabled(Run(w, acts), a)
    ensures ValidRun(w, acts + [a]) && Run(w, acts + [a]) == Step(Run(w, acts), a)
    decreases acts
  {
    if acts == [] {
      assert acts + [a] == [a];
    } else {
      RunSnoc(Step(w, acts[0]), acts[1..], a);
      assert (acts + [a])[1..] == acts[1..] + [a];
    }
  }

  lemma ReachableStep(w: World, a: Action)
    requires Reachable(w) && Enabled(w, a)
    ensures Reachable(Step(w, a))
  {
    var acts :| ValidRun(START, acts) && Run(START, acts) == w;
    RunSnoc(START, acts, a);
  }

  lemma Take(w: World, a: Action) returns (w': World)
    requires Reachable(w) && Enabled(w, a)
    ensures w' == Step(w, a) && Reachable(w')
  {
    ReachableStep(w, a);
    w' := Step(w, a);
  }

  /** A new ticket whose timer is about to be planned. */
  lemma TicketInserted(t: Ticket) returns (w: World)
    requires t.status == Requested
    ensures Reachable(w) && w.db == map[t.id := t] && w.now == 1 && w.tasks == [ArmPlan(t)] && w.live == []
  {
    assert ValidRun(START, []) && Run(START, []) == START;
    w := Take(START, Insert(t));
    assert w.tasks == [ArmCancel(t)] && w.live == [];
    w := Take(w, Advance(0));
  }

  /** A new ticket, its expiry timer set, and nothing else going on. */
  lemma TicketRequested(t: Ticket) returns (w: World)
    requires t.status == Requested && t.periodEnd >= 1
    ensures Reachable(w) && w.db == map[t.id := t] && w.now == 1
    ensures w.tasks == [Done] && w.live == [Live(t.id, Expired, t.periodEnd, true)]
  {
    w := TicketInserted(t);
    w := Take(w, Advance(0));
    assert w.tasks == [ArmInsert(t.id, Expired, t.periodEnd - 1)] && w.live == [];
    w := Take(w, Advance(0));
  }

  /** An approval has read `requested` and not yet written. */
  lemma Approving(t: Ticket) returns (w: World)
    requires t.status == Requested && t.periodEnd >= 1
    ensures Reachable(w) && w.db == map[t.id := t] && w.now == 1
    ensures w.tasks == [Done, Update(t.id, Approved, "", "admin")]
    ensures w.live == [Live(t.id, Expired, t.periodEnd, true)]
  {
    w := TicketRequested(t);
    w := Take(w, StartAdmin(t.id, Approved, "", "admin"));
    assert w.tasks == [Done, Select(t.id, Approved, "", "admin")];
    w := Take(w, Advance(1));
  }

  /** The expiry timer has fired in between. */
  lemma FiredMeanwhile(t: Ticket) returns (w: World)
    requires t.status == Requested && t.periodEnd >= 1
    ensures Reachable(w) && w.db == map[t.id := t]
    ensures w.tasks == [Done, Update(t.id, Approved, "", "admin"), CallbackDelete(t.id, Expired)]
  {
    w := Approving(t);
    w := Take(w, Tick(t.periodEnd));
    w := Take(w, TimerFires(0));
  }

  /** And its callback has written. */
  lemma ExpiredMeanwhile(t: Ticket) returns (w: World)
    requires t.status == Requested && t.periodEnd >= 1
    ensures Reachable(w) && t.id in w.db && w.db[t.id].status == Expired && w.db[t.id].id == t.id
    ensures |w.tasks| == 3 && w.tasks[1] == Update(t.id, Approved, "", "admin")
  {
    w := FiredMeanwhile(t);
    w := Take(w, Advance(2));
    assert w.tasks == [Done, Update(t.id, Approved, "", "admin"), CallbackUpdate(t.id, Expired)];
    w := Take(w, Advance(2));
  }

  /**
   Absorption, which serial runs have, does not survive interleaving: an approval that read
   `requested` before the expiry callback ran overwrites `expired`.
   */
  lemma ExpiredCanBeOverwritten(t: Ticket) returns (w: World, a: Action)
    requires t.status == Requested && t.periodEnd >= 1
    ensures Reachable(w) && Enabled(w, a)
    ensures t.id in w.db && w.db[t.id].status == Expired
    ensures t.id in Step(w, a).db && Step(w, a).db[t.id].status == Approved
  {
    w := ExpiredMeanwhile(t);
    a := Advance(1);
  }
}
