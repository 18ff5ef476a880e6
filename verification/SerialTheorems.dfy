/** What holds in every serial run of the ticket service. */
module SerialTheorems {
  import opened Options
  import opened Tickets
  import opened Validation
  import opened Lifecycle
  import opened SerialRuns
  import opened Texts

  ghost predicate Reachable(w: World) {
    exists es :: ValidRun(START, es) && Run(START, es) == w
  }

  lemma ReachableInv(w: World)
    requires Reachable(w)
    ensures Inv(w)
  {
    var es :| ValidRun(START, es) && Run(START, es) == w;
    StartInv();
    RunKeepsInv(START, es);
  }

  // ---------- status is a function of the last decision and the clock ----------

  function ClockStatus(d: Decision, t: Ticket, now: Instant): Status {
    match d
    case Undecided => if now < t.periodEnd then Requested else Expired
    case Decided(Approved) =>
      if now < t.periodStart then Approved else if now < t.periodEnd then Active else Expired
    case Decided(s) => s
  }

  /** Time has reached the transition this row is waiting for. */
  predicate Overdue(t: Ticket, now: Instant) {
    PlanOf(t).Plan? && now >= PlanOf(t).time
  }

  /** A row differs from the clock function only while it is overdue, and is overdue only while its timer is due or lost. */
  lemma StatusFollowsClock(w: World, id: Id)
    requires Reachable(w) && id in w.sys.db
    ensures id in w.decisions
    ensures w.sys.db[id].status == ClockStatus(w.decisions[id], w.sys.db[id], w.now) <==> !Overdue(w.sys.db[id], w.now)
    ensures id !in w.lost ==> (Overdue(w.sys.db[id], w.now) <==> id in w.sys.timers && Due(w.sys.timers[id], w.now))
  {
    ReachableInv(w);
    assert ViewInv(ViewOf(w, id), id, w.now);
  }

  /** With no timer due and none lost, every status is the clock function's value. */
  lemma QuiescentStatuses(w: World)
    requires Reachable(w) && w.lost == {}
    requires forall id :: id in w.sys.timers ==> !Due(w.sys.timers[id], w.now)
    ensures forall id :: id in w.sys.db ==>
      id in w.decisions && w.sys.db[id].status == ClockStatus(w.decisions[id], w.sys.db[id], w.now)
  {
    forall id | id in w.sys.db
      ensures id in w.decisions && w.sys.db[id].status == ClockStatus(w.decisions[id], w.sys.db[id], w.now)
    {
      StatusFollowsClock(w, id);
    }
  }

  // ---------- timers are a function of the table ----------

  lemma TimersMatchTable(w: World)
    requires Reachable(w)
    ensures w.sys.timers.Keys == Pending(w.sys.db) - w.lost
    ensures w.sys.timers.Keys == Pending(w.sys.db) <==> w.lost == {}
    ensures forall id :: id in w.sys.timers ==> w.sys.timers[id].target == PlanOf(w.sys.db[id]).target
    ensures forall id, later :: id in w.sys.timers && later >= w.now ==>
      (Due(w.sys.timers[id], later) <==> later >= PlanOf(w.sys.db[id]).time)
  {
    ReachableInv(w);
    TimersOf(w);
  }

  /**
   An accepted cancellation takes the ticket's timer away iff the path spells the id as the row
   does. A timer left behind, once due, overwrites `canceled` with `expired`.
   */
  lemma CancelNeedsCanonicalId(w: World, who: string, pathId: Id, id: Id)
    requires Reachable(w) && id !in w.lost
    requires HandleCancel(w.sys, Some(who), pathId, id, w.now, true, true, true).1 == OK
    ensures var s := HandleCancel(w.sys, Some(who), pathId, id, w.now, true, true, true).0;
            && s.db[id].status == Canceled
            && (id !in s.timers <==> pathId == id)
            && (pathId != id ==> Overwrites(s, id, Expired, s.db[id].periodEnd, w.now))
  {
    ReachableInv(w);
    assert ViewInv(ViewOf(w, id), id, w.now);
  }

  /** A timer is left that from `time` on will give the ticket the status `target`, whatever its status is. */
  ghost predicate Overwrites(s: Sys, id: Id, target: Status, time: Instant, now: Instant) {
    && id in s.db && id in s.timers && s.timers[id].target == target
    && forall later :: later >= now ==>
         (Due(s.timers[id], later) <==> later >= time)
         && id in ExecuteTransition(s, id, target, later, true, true).db
         && ExecuteTransition(s, id, target, later, true, true).db[id].status == target
  }

  /**
   A cancellation whose row cannot be read back is written but refused: nobody is told, and the
   timer stays to overwrite it.
   */
  lemma UnreadCancellation(w: World, who: string, id: Id)
    requires Reachable(w) && id !in w.lost
    requires HandleCancel(w.sys, Some(who), id, id, w.now, true, true, true).1 == OK
    ensures var (s, reply) := HandleCancel(w.sys, Some(who), id, id, w.now, true, true, false);
            && reply == ServerError && s.calls == w.sys.calls
            && id in s.db && s.db[id].status == Canceled
            && Overwrites(s, id, Expired, s.db[id].periodEnd, w.now)
  {
    ReachableInv(w);
    assert ViewInv(ViewOf(w, id), id, w.now);
  }

  /**
   An administrator's change whose row cannot be read back is written but refused, and nobody is
   told; the timer for the status before it stays and overwrites it at that status's time. So an
   approval never activates its ticket, and a revocation before period_start is undone then.
   */
  lemma UnreadAdminUpdate(w: World, id: Id, target: Status, reason: string, who: string)
    requires Reachable(w) && id !in w.lost
    requires HandleAdminUpdate(w.sys, id, target, reason, who, w.now, true, true).1 == OK
    ensures var (s, reply) := HandleAdminUpdate(w.sys, id, target, reason, who, w.now, true, false);
            && reply == BadRequest && s.calls == w.sys.calls
            && id in s.db && s.db[id].status == target
            && id in w.sys.db && PlanOf(w.sys.db[id]).Plan?
            && Overwrites(s, id, PlanOf(w.sys.db[id]).target, PlanOf(w.sys.db[id]).time, w.now)
  {
    ReachableInv(w);
    assert ViewInv(ViewOf(w, id), id, w.now);
  }

  lemma UnreadRevocation(w: World, id: Id, reason: string, who: string)
    requires Reachable(w) && id !in w.lost && id in w.sys.db && w.sys.db[id].status == Approved && id.text != ""
    ensures var (s, reply) := HandleAdminUpdate(w.sys, id, Revoked, reason, who, w.now, true, false);
            && reply == BadRequest && s.calls == w.sys.calls
            && id in s.db && s.db[id].status == Revoked
            && Overwrites(s, id, Active, s.db[id].periodStart, w.now)
  {
    ReachableInv(w);
    UnreadAdminUpdate(w, id, Revoked, reason, who);
  }

  /** What was asked for, by whom, is what is stored. */
  predicate Stored(t: Ticket, user: User, req: CreateRequest, id: Id, number: string, now: Instant) {
    && t.id == id && t.ticketNumber == number
    && t.email == user.email && t.displayName == user.displayName && t.team == user.team
    && t.workflowID == req.workflowID && t.description == req.description
    && Some(t.periodStart) == req.periodStart && Some(t.periodEnd) == req.periodEnd
    && t.status == Requested && t.statusReason == "" && t.updatedBy == "" && t.createdAt == t.updatedAt == now
    && multiset(SplitAt(t.accessType, ',')) == multiset(req.accessType) && EditsFirst(SplitAt(t.accessType, ','))
  }

  lemma NewIsStored(user: User, req: CreateRequest, maxDuration: Duration, id: Id, number: string, now: Instant)
    requires Acceptable(req, maxDuration)
    ensures Stored(NewTicket(user, req, id, number, now), user, req, id, number, now)
  {
    assert forall a :: a in req.accessType ==> a == "run" || a == "edit";
    AccessStringReads(req.accessType);
  }

  /**
   An accepted request leaves a ticket with all that was asked for, that only its requester may
   cancel, and with a timer that will expire it at the end of its period.
   */
  lemma AcceptedRequest(w: World, e: Event, who: string)
    requires Reachable(w) && e.Request? && Enabled(w, e) && Apply(w, e).1 == Created
    ensures var w' := Step(w, e);
            && e.user.Some? && e.req.periodStart.Some? && e.req.periodEnd.Some?
            && e.id in w'.sys.db && Stored(w'.sys.db[e.id], e.user.value, e.req, e.id, e.number, w.now)
            && Apply(w', UserCancel(Some(who), e.id, true, true)).1 == (if who == e.user.value.email then OK else Forbidden)
            && e.id in w'.sys.timers && w'.sys.timers[e.id].target == Expired
            && (forall later :: later >= w'.now ==> (Due(w'.sys.timers[e.id], later) <==> later >= e.req.periodEnd.value))
            && (PeriodChecked(e.req) && e.maxDuration < MAX_INT64 ==>
                  0 < w'.sys.db[e.id].periodEnd - w'.sys.db[e.id].periodStart <= e.maxDuration)
  {
    NewIsStored(e.user.value, e.req, e.maxDuration, e.id, e.number, w.now);
    if PeriodChecked(e.req) && e.maxDuration < MAX_INT64 {
      AcceptedPeriod(e.req, e.maxDuration);
    }
  }

  // ---------- timers do get lost ----------

  predicate Fails(e: Event) {
    (e.Fire? && !e.ok) || (e.Restart? && !e.ok)
  }

  /** Only a failing database loses timers. */
  lemma {:induction false} LosingTakesFailure(w: World, es: seq<Event>)
    requires w.lost == {} && ValidRun(w, es) && forall i :: 0 <= i < |es| ==> !Fails(es[i])
    ensures Run(w, es).lost == {}
    decreases es
  {
    if es != [] {
      LosingTakesFailure(Step(w, es[0]), es[1..]);
    }
  }

  lemma OneMore(w: World, e: Event, es: seq<Event>)
    requires Enabled(w, e) && ValidRun(Step(w, e), es)
    ensures ValidRun(w, [e] + es) && Run(w, [e] + es) == Run(Step(w, e), es)
  {
    assert ([e] + es)[1..] == es;
  }

  lemma ThreeSteps(w: World, a: Event, b: Event, c: Event)
    requires Enabled(w, a) && Enabled(Step(w, a), b) && Enabled(Step(Step(w, a), b), c)
    ensures ValidRun(w, [a, b, c]) && Run(w, [a, b, c]) == Step(Step(Step(w, a), b), c)
  {
    OneMore(Step(Step(w, a), b), c, []);
    OneMore(Step(w, a), b, [c] + []);
    OneMore(w, a, [b] + ([c] + []));
    assert [a] + ([b] + ([c] + [])) == [a, b, c];
  }

  /** And it does: request, wait, and the expiry callback fails, for any acceptable request. */
  lemma TimerLost(user: User, req: CreateRequest, maxDuration: Duration, id: Id, number: string) returns (es: seq<Event>)
    requires Acceptable(req, maxDuration) && id.text != ""
    ensures ValidRun(START, es) && |es| == 3
    ensures var w := Run(START, es);
            && id in w.lost && id !in w.sys.timers
            && id in w.sys.db && w.sys.db[id].status == Requested && Overdue(w.sys.db[id], w.now)
  {
    var request := Event.Request(Some(user), req, maxDuration, id, number, true);
    var wait := Wait(Max(0, req.periodEnd.value - 1));
    var fire := Fire(id, false);
    var w1 := Step(START, request);
    var w2 := Step(w1, wait);
    assert id in w2.sys.timers && w2.sys.timers[id] == Timer(Expired, 1, wait.d) && w2.now == 1 + wait.d;
    es := [request, wait, fire];
    ThreeSteps(START, request, wait, fire);
  }

  // ---------- a restart cannot be seen ----------

  /** Equal but for when each timer was set. */
  ghost predicate Same(w: World, w': World) {
    && Inv(w) && Inv(w')
    && w' == w.(sys := w.sys.(timers := w'.sys.timers))
  }

  lemma SameFire(w: World, w': World, e: Event)
    requires Same(w, w') && e.Fire? && Enabled(w, e)
    ensures Enabled(w', e)
    ensures Step(w', e) == Step(w, e).(sys := Step(w, e).sys.(timers := Step(w', e).sys.timers))
  {
    assert ViewInv(ViewOf(w, e.id), e.id, w.now) && ViewInv(ViewOf(w', e.id), e.id, w.now);
  }

  lemma SameApply(w: World, w': World, e: Event)
    requires w' == w.(sys := w.sys.(timers := w'.sys.timers)) && !e.Fire? && Enabled(w, e)
    ensures Enabled(w', e)
    ensures Apply(w', e) == (Apply(w, e).0.(timers := Apply(w', e).0.timers), Apply(w, e).1)
  {
  }

  /** Only a firing looks at the timers. */
  lemma SameElse(w: World, w': World, e: Event)
    requires w' == w.(sys := w.sys.(timers := w'.sys.timers)) && !e.Fire? && Enabled(w, e)
    ensures Enabled(w', e)
    ensures Step(w', e) == Step(w, e).(sys := Step(w, e).sys.(timers := Step(w', e).sys.timers))
  {
    SameApply(w, w', e);
  }

  lemma SameStep(w: World, w': World, e: Event)
    requires Same(w, w') && Enabled(w, e)
    ensures Enabled(w', e) && Same(Step(w, e), Step(w', e))
  {
    if e.Fire? {
      SameFire(w, w', e);
    } else {
      SameElse(w, w', e);
    }
    StepKeepsInv(w, e);
    StepKeepsInv(w', e);
  }

  lemma {:induction false} SameRun(w: World, w': World, es: seq<Event>)
    requires Same(w, w') && ValidRun(w, es)
    ensures ValidRun(w', es) && Same(Run(w, es), Run(w', es))
    decreases es
  {
    if es != [] {
      SameStep(w, w', es[0]);
      SameRun(Step(w, es[0]), Step(w', es[0]), es[1..]);
    }
  }

  /**
   If no timer has been lost, a restart changes neither which continuations are possible nor
   what they lead to, the timers' setting times aside.
   */
  lemma RestartInvisible(w: World, es: seq<Event>)
    requires Reachable(w) && w.lost == {}
    ensures ValidRun(w, es) <==> ValidRun(Step(w, Restart(true)), es)
    ensures ValidRun(w, es) ==> Same(Run(w, es), Run(Step(w, Restart(true)), es))
  {
    ReachableInv(w);
    var restarted := Step(w, Restart(true));
    StepKeepsInv(w, Restart(true));
    TimersOf(w);
    assert Same(w, restarted) && Same(restarted, w);
    if ValidRun(w, es) {
      SameRun(w, restarted, es);
    }
    if ValidRun(restarted, es) {
      SameRun(restarted, w, es);
    }
  }

  /** InitFromDB reads the clock once a ticket; whenever it did, the rebuilt timers lead to the same as Restart's. */
  lemma RestartAtAnyClock(w: World, timers: map<Id, Timer>)
    requires Reachable(w) && timers.Keys == Pending(w.sys.db)
    requires forall id :: id in timers ==> TimerFits(timers[id], w.sys.db[id], w.now)
    ensures Same(Step(w, Restart(true)), Step(w, Restart(true)).(sys := w.sys.(timers := timers)))
  {
    ReachableInv(w);
    TimersOf(w);
    var r := Step(w, Restart(true));
    StepKeepsInv(w, Restart(true));
    TimersOf(r);
    QuietKeepsInv(r, r.(sys := w.sys.(timers := timers)));
  }

  lemma TimerAwaited(w: World, id: Id, d: nat)
    requires id in w.sys.db && PlanOf(w.sys.db[id]).Plan? && d == Max(0, PlanOf(w.sys.db[id]).time - w.now)
    requires id in w.sys.timers && w.sys.timers[id] == Timer(PlanOf(w.sys.db[id]).target, w.now, d)
    ensures Enabled(Step(w, Wait(d)), Fire(id, true))
    ensures Step(Step(w, Wait(d)), Fire(id, true)).sys.db[id].status == PlanOf(w.sys.db[id]).target
  {
  }

  /**
   A lost timer is what a restart repairs: wait until the ticket's time, and its transition can
   happen after a restart but not without one.
   */
  lemma RestartRepairs(w: World, id: Id)
    requires Reachable(w) && id in w.lost
    ensures id in w.sys.db && PlanOf(w.sys.db[id]).Plan?
    ensures var wait := Wait(Max(0, PlanOf(w.sys.db[id]).time - w.now));
            var restarted := Step(Step(w, Restart(true)), wait);
            && Enabled(restarted, Fire(id, true))
            && Step(restarted, Fire(id, true)).sys.db[id].status == PlanOf(w.sys.db[id]).target
            && !Enabled(Step(w, wait), Fire(id, true))
  {
    ReachableInv(w);
    assert ViewInv(ViewOf(w, id), id, w.now);
    var r := Step(w, Restart(true));
    assert r.sys.timers == RebuiltTimers(w.sys.db, w.now) && r.sys.db == w.sys.db && r.now == w.now;
    assert id in Pending(w.sys.db) && id in r.sys.timers;
    TimerAwaited(r, id, Max(0, PlanOf(w.sys.db[id]).time - w.now));
  }

  // ---------- histories ----------

  /** A history is a path of at most three changes, and the webhook calls are the history. */
  lemma HistoriesArePaths(w: World, id: Id)
    requires Reachable(w) && id in w.sys.db
    ensures id in w.hist && IsPath(w.hist[id]) && |w.hist[id]| <= 4
    ensures w.hist[id][|w.hist[id]| - 1] == w.sys.db[id].status
    ensures CallsFor(w.sys.calls, id) == w.hist[id]
  {
    ReachableInv(w);
    assert ViewInv(ViewOf(w, id), id, w.now);
    PathDepth(w.hist[id]);
  }

  lemma FireMoves(w: World, e: Event, id: Id)
    requires Inv(w) && e.Fire? && Enabled(w, e) && id in w.sys.db
    ensures id in Step(w, e).sys.db
    ensures var t, t' := w.sys.db[id], Step(w, e).sys.db[id];
            t' == t || (SameRequest(t', t) && Edge(t.status, t'.status))
  {
    assert ViewInv(ViewOf(w, e.id), e.id, w.now);
  }

  lemma HandlerMoves(w: World, e: Event, id: Id)
    requires (e.UserCancel? || e.AdminUpdate?) && id in w.sys.db
    ensures id in Apply(w, e).0.db
    ensures var t, t' := w.sys.db[id], Apply(w, e).0.db[id];
            t' == t || (SameRequest(t', t) && Edge(t.status, t'.status))
  {
  }

  lemma RowMoves(w: World, e: Event, id: Id)
    requires Inv(w) && Enabled(w, e) && id in w.sys.db
    ensures id in Step(w, e).sys.db
    ensures var t, t' := w.sys.db[id], Step(w, e).sys.db[id];
            t' == t || (SameRequest(t', t) && Edge(t.status, t'.status))
  {
    if e.Fire? {
      FireMoves(w, e, id);
    } else if e.UserCancel? || e.AdminUpdate? {
      HandlerMoves(w, e, id);
    }
  }

  lemma StepAbsorbs(w: World, e: Event, id: Id)
    requires Inv(w) && Enabled(w, e) && id in w.sys.db
    ensures Inv(Step(w, e)) && id in Step(w, e).sys.db && SameRequest(Step(w, e).sys.db[id], w.sys.db[id])
    ensures Terminal(w.sys.db[id].status) ==> Step(w, e).sys.db[id] == w.sys.db[id]
  {
    RowMoves(w, e, id);
    StepKeepsInv(w, e);
  }

  /** A row in a terminal status never changes again; any other row keeps its request. */
  lemma {:induction false} TerminalAbsorbs(w: World, es: seq<Event>, id: Id)
    requires Inv(w) && ValidRun(w, es) && id in w.sys.db
    ensures id in Run(w, es).sys.db && SameRequest(Run(w, es).sys.db[id], w.sys.db[id])
    ensures Terminal(w.sys.db[id].status) ==> Run(w, es).sys.db[id] == w.sys.db[id]
    decreases es
  {
    if es != [] {
      StepAbsorbs(w, es[0], id);
      TerminalAbsorbs(Step(w, es[0]), es[1..], id);
    }
  }

  // ---------- draining ----------

  predicate AllFire(es: seq<Event>) {
    forall i :: 0 <= i < |es| ==> es[i].Fire?
  }

  /** The tickets whose timers fire. */
  function Fired(es: seq<Event>): seq<Id>
    requires AllFire(es)
  {
    seq(|es|, i requires 0 <= i < |es| => es[i].id)
  }

  /** Those of them whose callback does not meet a failing database. */
  function Moved(es: seq<Event>): seq<Id>
    requires AllFire(es)
  {
    if es == [] then [] else (if es[0].ok then [es[0].id] else []) + Moved(es[1..])
  }

  /** Transitions still ahead of a ticket. */
  function Rank(row: Option<Ticket>): (r: nat)
    ensures r <= if row.None? then 0 else 2
  {
    if row.None? then 0
    else
      match row.value.status
      case Approved => 2
      case Active => 1
      case Requested => 1
      case _ => 0
  }

  /** Firings that can still come without anything else happening. */
  function Ahead(w: World, id: Id): nat {
    if id in w.sys.timers then Rank(Lookup(w.sys.db, id)) else 0
  }

  lemma FireUsesRank(w: World, id: Id, ok: bool, k: Id)
    requires Inv(w) && Enabled(w, Fire(id, ok))
    ensures var w' := Step(w, Fire(id, ok));
            && w'.now == w.now && w'.sys.db.Keys == w.sys.db.Keys
            && Rank(Lookup(w.sys.db, k)) == Rank(Lookup(w'.sys.db, k)) + (if k == id && ok then 1 else 0)
            && Ahead(w, k) >= Ahead(w', k) + (if k == id then 1 else 0)
  {
    assert ViewInv(ViewOf(w, id), id, w.now) && ViewInv(ViewOf(w, k), k, w.now);
  }

  /**
   Among firings that may fail, each success uses up exactly one unit of its ticket's rank, and
   successes and failures together are no more than the ticket had ahead.
   */
  lemma {:induction false} FiringsUseRank(w: World, es: seq<Event>, k: Id)
    requires Inv(w) && AllFire(es) && ValidRun(w, es)
    ensures multiset(Moved(es))[k] + Rank(Lookup(Run(w, es).sys.db, k)) == Rank(Lookup(w.sys.db, k))
    ensures multiset(Fired(es))[k] + Ahead(Run(w, es), k) <= Ahead(w, k)
    decreases es
  {
    if es != [] {
      assert Fired(es) == [es[0].id] + Fired(es[1..]);
      FireUsesRank(w, es[0].id, es[0].ok, k);
      StepKeepsInv(w, es[0]);
      FiringsUseRank(Step(w, es[0]), es[1..], k);
    }
  }

  lemma {:induction false} AtMostTwoEach(m: multiset<Id>, ids: set<Id>)
    requires forall k :: m[k] <= if k in ids then 2 else 0
    ensures |m| <= 2 * |ids|
  {
    if ids == {} {
      assert m == multiset{};
    } else {
      var id :| id in ids;
      AtMostTwoEach(m[id := 0], ids - {id});
    }
  }

  /** Firing due timers, whether their callbacks succeed or fail, stops within two firings a ticket. */
  lemma DrainStops(w: World, es: seq<Event>)
    requires Reachable(w) && AllFire(es) && ValidRun(w, es)
    ensures forall k :: multiset(Fired(es))[k] <= Rank(Lookup(w.sys.db, k)) <= 2
    ensures |es| <= 2 * |w.sys.db|
  {
    ReachableInv(w);
    forall k
      ensures multiset(Fired(es))[k] <= Rank(Lookup(w.sys.db, k)) <= if k in w.sys.db.Keys then 2 else 0
    {
      FiringsUseRank(w, es, k);
    }
    AtMostTwoEach(multiset(Fired(es)), w.sys.db.Keys);
  }

  /** Past every period, a world where nothing can fire has only terminal tickets and no timers, lost ones aside. */
  lemma DrainEnds(w: World)
    requires Reachable(w)
    requires forall id :: id in w.sys.db ==> w.now >= w.sys.db[id].periodStart && w.now >= w.sys.db[id].periodEnd
    requires forall id :: !Enabled(w, Fire(id, true))
    ensures w.sys.timers == map[]
    ensures forall id :: id in w.sys.db ==> (Terminal(w.sys.db[id].status) <==> id !in w.lost)
  {
    ReachableInv(w);
    TimersOf(w);
    forall id
      ensures id !in w.sys.timers
    {
      assert !Enabled(w, Fire(id, true));
    }
  }
}
