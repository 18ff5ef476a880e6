/**
 Runs of the ticket service in which each handler call, each timer callback and each
 restart is one step. Waiting lets time pass; a callback may hit a failing database, in
 which case its timer is gone and the row is untouched.
 */
module SerialRuns {
  import opened Options
  import opened Tickets
  import opened Validation
  import opened Lifecycle

  datatype Decision = Undecided | Decided(status: Status)

  /**
   `lost`, `decisions` and `hist` only observe: the tickets whose timer a database failure
   destroyed and nothing has set again, the last change the API accepted, and the statuses
   each row has had.
   */
  datatype World = World(sys: Sys, now: Instant, lost: set<Id>, decisions: map<Id, Decision>, hist: map<Id, seq<Status>>)

  datatype Event =
    | Request(user: Option<User>, req: CreateRequest, maxDuration: Duration, id: Id, number: string, ok: bool)
    | UserCancel(email: Option<string>, id: Id, readOk: bool, updateOk: bool)
    | AdminUpdate(id: Id, target: Status, reason: string, who: string, ok: bool)
    | Fire(id: Id, ok: bool)
    | Restart(ok: bool)
    | Wait(d: nat)

  const START: World := World(Sys(map[], map[], []), 1, {}, map[], map[])

  /** All timers the tickets of a table need, set at `now`; what InitFromDB builds. */
  function RebuiltTimers(db: map<Id, Ticket>, now: Instant): map<Id, Timer> {
    map id | id in Pending(db) :: Timer(PlanOf(db[id]).target, now, Max(0, PlanOf(db[id]).time - now))
  }

  /** Row ids are fresh uuids, and only a due timer fires. */
  predicate Enabled(w: World, e: Event) {
    match e
    case Request(_, _, _, id, _, _) => id.text != "" && id !in w.sys.db
    case Fire(id, _) => id in w.sys.timers && Due(w.sys.timers[id], w.now)
    case _ => true
  }

  function Apply(w: World, e: Event): (Sys, Reply)
    requires Enabled(w, e)
  {
    var s := w.sys;
    match e
    case Request(user, req, maxDuration, id, number, ok) =>
      HandleRequest(s, user, req, maxDuration, id, number, w.now, ok)
    case UserCancel(email, id, readOk, updateOk) => HandleCancel(s, email, id, id, w.now, readOk, updateOk, true)
    case AdminUpdate(id, target, reason, who, ok) => HandleAdminUpdate(s, id, target, reason, who, w.now, ok, true)
    case Fire(id, ok) => (ExecuteTransition(s, id, s.timers[id].target, w.now, ok, true), OK)
    case Restart(ok) => (s.(timers := if ok then RebuiltTimers(s.db, w.now) else map[]), OK)
    case Wait(_) => (s, OK)
  }

  function LostAfter(w: World, e: Event, reply: Reply): set<Id> {
    match e
    case Fire(id, false) => w.lost + {id}
    case Restart(ok) => if ok then {} else Pending(w.sys.db)
    case UserCancel(_, id, _, _) => if reply == OK then w.lost - {id} else w.lost
    case AdminUpdate(id, _, _, _, _) => if reply == OK then w.lost - {id} else w.lost
    case _ => w.lost
  }

  function DecisionsAfter(w: World, e: Event, reply: Reply): map<Id, Decision> {
    match e
    case Request(_, _, _, id, _, _) => if reply == Created then w.decisions[id := Undecided] else w.decisions
    case UserCancel(_, id, _, _) => if reply == OK then w.decisions[id := Decided(Canceled)] else w.decisions
    case AdminUpdate(id, target, _, _, _) => if reply == OK then w.decisions[id := Decided(target)] else w.decisions
    case _ => w.decisions
  }

  function HistAfter(w: World, db: map<Id, Ticket>): map<Id, seq<Status>> {
    map id | id in db ::
      if id !in w.sys.db || id !in w.hist then [db[id].status]
      else if db[id].status != w.sys.db[id].status then w.hist[id] + [db[id].status]
      else w.hist[id]
  }

  function Step(w: World, e: Event): World
    requires Enabled(w, e)
  {
    var (s, reply) := Apply(w, e);
    World(s, if e.Wait? then w.now + e.d else w.now,
          LostAfter(w, e, reply), DecisionsAfter(w, e, reply), HistAfter(w, s.db))
  }

  predicate ValidRun(w: World, es: seq<Event>)
    decreases es
  {
    es == [] || (Enabled(w, es[0]) && ValidRun(Step(w, es[0]), es[1..]))
  }

  function Run(w: World, es: seq<Event>): World
    requires ValidRun(w, es)
    decreases es
  {
    if es == [] then w else Run(Step(w, es[0]), es[1..])
  }

  // ---------- one ticket's share of a world ----------

  datatype View = View(row: Option<Ticket>, timer: Option<Timer>, lost: bool, decision: Option<Decision>,
                       hist: Option<seq<Status>>, calls: seq<Status>)

  function CallsFor(calls: seq<Call>, id: Id): seq<Status> {
    if calls == [] then []
    else
      var last := calls[|calls| - 1];
      CallsFor(calls[..|calls| - 1], id) + (if last.id == id then [last.status] else [])
  }

  function ViewOf(w: World, id: Id): View {
    View(Lookup(w.sys.db, id), Lookup(w.sys.timers, id), id in w.lost, Lookup(w.decisions, id), Lookup(w.hist, id),
         CallsFor(w.sys.calls, id))
  }

  /** The timer is the one its ticket's status calls for. */
  predicate TimerFits(timer: Timer, t: Ticket, now: Instant) {
    && PlanOf(t).Plan?
    && timer.target == PlanOf(t).target
    && timer.armedAt <= now
    && timer.delay == Max(0, PlanOf(t).time - timer.armedAt)
  }

  predicate DecisionFits(d: Decision, t: Ticket, now: Instant) {
    match d
    case Undecided => t.status == Requested || (t.status == Expired && now >= t.periodEnd)
    case Decided(Approved) =>
      || t.status == Approved
      || (t.status == Active && now >= t.periodStart)
      || (t.status == Expired && now >= t.periodStart && now >= t.periodEnd)
    case Decided(s) => t.status == s && (s.Rejected? || s.Canceled? || s.Revoked?)
  }

  predicate ViewInv(v: View, id: Id, now: Instant) {
    match v.row
    case None => v == View(None, None, false, None, None, [])
    case Some(t) =>
      && t.id == id && id.text != ""
      && (v.timer.Some? <==> PlanOf(t).Plan? && !v.lost)
      && (v.timer.Some? ==> TimerFits(v.timer.value, t, now))
      && (v.lost ==> PlanOf(t).Plan?)
      && v.decision.Some? && DecisionFits(v.decision.value, t, now)
      && v.hist.Some? && v.hist.value == v.calls && IsPath(v.calls) && v.calls[|v.calls| - 1] == t.status
  }

  ghost predicate Inv(w: World) {
    forall id :: ViewInv(ViewOf(w, id), id, w.now)
  }

  // ---------- every step keeps the invariant ----------

  lemma CallsForSnoc(calls: seq<Call>, c: Call, id: Id)
    ensures CallsFor(calls + [c], id) == CallsFor(calls, id) + (if c.id == id then [c.status] else [])
  {
    assert (calls + [c])[..|calls|] == calls;
  }

  /** Row `t` is written and reported once, its timer is set afresh, and `d` is its last decision. */
  predicate Writes(w: World, w': World, t: Ticket, d: Decision) {
    && w'.now == w.now
    && w'.sys.db == w.sys.db[t.id := t]
    && w'.sys.timers == Schedule(w.sys.timers, t, w.now)
    && w'.sys.calls == w.sys.calls + [Call(t.id, t.status)]
    && w'.lost == w.lost - {t.id}
    && w'.decisions == w.decisions[t.id := d]
    && w'.hist == HistAfter(w, w'.sys.db)
  }

  lemma WriteKeepsOthers(w: World, w': World, t: Ticket, d: Decision, id: Id)
    requires Writes(w, w', t, d) && id != t.id
    requires ViewInv(ViewOf(w, id), id, w.now)
    ensures ViewOf(w', id) == ViewOf(w, id)
  {
    CallsForSnoc(w.sys.calls, Call(t.id, t.status), id);
  }

  lemma WriteKeepsOwn(w: World, w': World, t: Ticket, d: Decision)
    requires Writes(w, w', t, d) && DecisionFits(d, t, w.now)
    requires ViewInv(ViewOf(w, t.id), t.id, w.now)
    requires if t.id in w.sys.db then Edge(w.sys.db[t.id].status, t.status) else t.status == Requested && t.id.text != ""
    ensures ViewInv(ViewOf(w', t.id), t.id, w'.now)
  {
    CallsForSnoc(w.sys.calls, Call(t.id, t.status), t.id);
    if t.id in w.sys.db {
      PathSnoc(w.hist[t.id], t.status);
    } else {
      assert [] + [t.status] == [t.status];
    }
  }

  lemma WriteKeepsInv(w: World, w': World, t: Ticket, d: Decision)
    requires Inv(w) && Writes(w, w', t, d) && DecisionFits(d, t, w.now)
    requires if t.id in w.sys.db then Edge(w.sys.db[t.id].status, t.status) else t.status == Requested && t.id.text != ""
    ensures Inv(w')
  {
    forall id
      ensures ViewInv(ViewOf(w', id), id, w'.now)
    {
      assert ViewInv(ViewOf(w, id), id, w.now) && ViewInv(ViewOf(w, t.id), t.id, w.now);
      if id == t.id {
        WriteKeepsOwn(w, w', t, d);
      } else {
        WriteKeepsOthers(w, w', t, d, id);
      }
    }
  }

  /** No row changes; timers may, if they still fit. */
  ghost predicate Quiet(w: World, w': World) {
    && w'.sys.db == w.sys.db && w'.sys.calls == w.sys.calls && w'.now >= w.now
    && w'.decisions == w.decisions && w'.hist == w.hist
    && (forall id :: id in w'.lost ==> id in Pending(w.sys.db))
    && (forall id :: id in w'.sys.timers <==> id in Pending(w.sys.db) && id !in w'.lost)
    && (forall id :: id in w'.sys.timers ==> TimerFits(w'.sys.timers[id], w.sys.db[id], w'.now))
  }

  lemma QuietKeepsView(w: World, w': World, id: Id)
    requires ViewInv(ViewOf(w, id), id, w.now) && Quiet(w, w')
    ensures ViewInv(ViewOf(w', id), id, w'.now)
  {
  }

  lemma QuietKeepsInv(w: World, w': World)
    requires Inv(w) && Quiet(w, w')
    ensures Inv(w')
  {
    forall id
      ensures ViewInv(ViewOf(w', id), id, w'.now)
    {
      assert ViewInv(ViewOf(w, id), id, w.now);
      QuietKeepsView(w, w', id);
    }
  }

  /** What Inv says of the timers, over the whole table. */
  lemma TimersOf(w: World)
    requires Inv(w)
    ensures forall id :: id in w.lost ==> id in Pending(w.sys.db)
    ensures forall id :: id in w.sys.timers <==> id in Pending(w.sys.db) && id !in w.lost
    ensures forall id :: id in w.sys.timers ==> TimerFits(w.sys.timers[id], w.sys.db[id], w.now)
    ensures HistAfter(w, w.sys.db) == w.hist
  {
    forall id
      ensures id in w.lost ==> id in Pending(w.sys.db)
      ensures id in w.sys.timers <==> id in Pending(w.sys.db) && id !in w.lost
      ensures id in w.sys.timers ==> TimerFits(w.sys.timers[id], w.sys.db[id], w.now)
      ensures id in w.sys.db <==> id in w.hist
    {
      assert ViewInv(ViewOf(w, id), id, w.now);
    }
  }

  lemma RequestKeepsInv(w: World, e: Event)
    requires Inv(w) && e.Request? && Enabled(w, e)
    ensures Inv(Step(w, e))
  {
    assert ViewInv(ViewOf(w, e.id), e.id, w.now);
    var (s, reply) := Apply(w, e);
    if reply == Created {
      WriteKeepsInv(w, Step(w, e), s.db[e.id], Undecided);
    } else {
      TimersOf(w);
      QuietKeepsInv(w, Step(w, e));
    }
  }

  lemma FireKeepsInv(w: World, e: Event)
    requires Inv(w) && e.Fire? && Enabled(w, e)
    ensures Inv(Step(w, e))
  {
    assert ViewInv(ViewOf(w, e.id), e.id, w.now);
    var w' := Step(w, e);
    if e.ok {
      var t := w'.sys.db[e.id];
      assert w'.decisions == w.decisions[t.id := w.decisions[t.id]];
      WriteKeepsInv(w, w', t, w.decisions[t.id]);
    } else {
      TimersOf(w);
      QuietKeepsInv(w, w');
    }
  }

  lemma CancelKeepsInv(w: World, e: Event)
    requires Inv(w) && e.UserCancel?
    ensures Inv(Step(w, e))
  {
    assert ViewInv(ViewOf(w, e.id), e.id, w.now);
    var (s, reply) := Apply(w, e);
    if reply == OK {
      WriteKeepsInv(w, Step(w, e), s.db[e.id], Decided(s.db[e.id].status));
    } else {
      TimersOf(w);
      QuietKeepsInv(w, Step(w, e));
    }
  }

  lemma AdminKeepsInv(w: World, e: Event)
    requires Inv(w) && e.AdminUpdate?
    ensures Inv(Step(w, e))
  {
    assert ViewInv(ViewOf(w, e.id), e.id, w.now);
    var (s, reply) := Apply(w, e);
    if reply == OK {
      WriteKeepsInv(w, Step(w, e), s.db[e.id], Decided(s.db[e.id].status));
    } else {
      TimersOf(w);
      QuietKeepsInv(w, Step(w, e));
    }
  }

  lemma StepKeepsInv(w: World, e: Event)
    requires Inv(w) && Enabled(w, e)
    ensures Inv(Step(w, e))
  {
    match e
    case Request(_, _, _, _, _, _) => RequestKeepsInv(w, e);
    case Fire(_, _) => FireKeepsInv(w, e);
    case UserCancel(_, _, _, _) => CancelKeepsInv(w, e);
    case AdminUpdate(_, _, _, _, _) => AdminKeepsInv(w, e);
    case Restart(ok) =>
      TimersOf(w);
      QuietKeepsInv(w, Step(w, e));
    case Wait(d) =>
      TimersOf(w);
      QuietKeepsInv(w, Step(w, e));
  }

  lemma StartInv()
    ensures Inv(START)
  {
  }

  lemma {:induction false} RunKeepsInv(w: World, es: seq<Event>)
    requires Inv(w) && ValidRun(w, es)
    ensures Inv(Run(w, es))
    decreases es
  {
    if es != [] {
      StepKeepsInv(w, es[0]);
      RunKeepsInv(Step(w, es[0]), es[1..]);
    }
  }
}
