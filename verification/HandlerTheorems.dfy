/**
 What one handler call or timer callback does, statuses and columns written out, and a run
 through a ticket's whole life.
 */
module HandlerTheorems {
  import opened Options
  import opened Tickets
  import opened Validation
  import opened Lifecycle
  import opened SerialRuns
  import opened SerialTheorems
  import opened Texts

  /** The row with a new status, its reason and author, and the time of the change. */
  predicate Changed(t: Ticket, was: Ticket, status: Status, reason: string, who: string, now: Instant) {
    t == Ticket(was.id, was.ticketNumber, was.email, was.displayName, was.team, was.workflowID, was.accessType,
                was.description, was.periodStart, was.periodEnd, status, reason, who, was.createdAt, now)
  }

  /**
   A user's cancellation succeeds for the requester of a requested ticket and changes that row,
   removes the timer under the path's spelling and is reported once; else nothing changes.
   */
  lemma CancelOutcome(s: Sys, email: string, pathId: Id, id: Id, now: Instant)
    requires pathId.text != "" && (id in s.db ==> s.db[id].id == id)
    ensures var (s', reply) := HandleCancel(s, Some(email), pathId, id, now, true, true, true);
            && (reply == OK <==> id in s.db && s.db[id].email == email && s.db[id].status == Requested)
            && (reply == OK ==>
                  && s'.db.Keys == s.db.Keys && s'.db == s.db[id := s'.db[id]]
                  && Changed(s'.db[id], s.db[id], Canceled, "Canceled by user", email, now)
                  && s'.timers == s.timers - {pathId} && s'.calls == s.calls + [Call(id, Canceled)])
            && (reply != OK ==> s' == s)
            && (reply != OK ==> reply == if id !in s.db then NotFound else if s.db[id].email != email then Forbidden else BadRequest)
  {
  }

  /**
   An administrator approves or rejects what is requested and revokes what is approved or
   active. That changes the row, sets the activation timer or removes the timer, and is reported
   once; any other change is refused and changes nothing.
   */
  lemma AdminUpdateOutcome(s: Sys, id: Id, target: Status, reason: string, who: string, now: Instant)
    requires id.text != "" && (id in s.db ==> s.db[id].id == id)
    ensures var (s', reply) := HandleAdminUpdate(s, id, target, reason, who, now, true, true);
            && (reply == OK <==> id in s.db && match s.db[id].status
                                               case Requested => target == Approved || target == Rejected
                                               case Approved => target == Revoked
                                               case Active => target == Revoked
                                               case _ => false)
            && (reply == OK ==>
                  && s'.db.Keys == s.db.Keys && s'.db == s.db[id := s'.db[id]]
                  && Changed(s'.db[id], s.db[id], target, reason, who, now)
                  && s'.calls == s.calls + [Call(id, target)]
                  && (target == Approved ==>
                        s'.timers == s.timers[id := Timer(Active, now, Max(0, s.db[id].periodStart - now))])
                  && (target != Approved ==> s'.timers == s.timers - {id}))
            && (reply != OK ==> s' == s && reply == BadRequest)
  {
  }

  /** No user, no id, or a failing database: nothing changes. */
  lemma RefusedUnchanged(s: Sys, email: Option<string>, pathId: Id, id: Id, target: Status, reason: string, who: string,
                         now: Instant, readOk: bool, updateOk: bool)
    ensures email == None ==> HandleCancel(s, email, pathId, id, now, readOk, updateOk, true) == (s, Unauthorized)
    ensures email.Some? && pathId.text == "" ==>
            HandleCancel(s, email, pathId, id, now, readOk, updateOk, true) == (s, BadRequest)
    ensures email.Some? && pathId.text != "" && !readOk ==>
            HandleCancel(s, email, pathId, id, now, readOk, updateOk, true) == (s, ServerError)
    ensures !updateOk ==> HandleCancel(s, email, pathId, id, now, readOk, updateOk, true).0 == s
    ensures id.text == "" || !updateOk ==> HandleAdminUpdate(s, id, target, reason, who, now, updateOk, true) == (s, BadRequest)
  {
  }

  /** The timer callback writes any other status than its target, whatever the table says, and keeps the reason. */
  lemma CallbackOutcome(s: Sys, id: Id, target: Status, now: Instant)
    requires id in s.db ==> s.db[id].id == id
    ensures var s' := ExecuteTransition(s, id, target, now, true, true);
            if id !in s.db || s.db[id].status == target then s' == s.(timers := s.timers - {id})
            else
              && s'.db.Keys == s.db.Keys && s'.db == s.db[id := s'.db[id]]
              && Changed(s'.db[id], s.db[id], target, s.db[id].statusReason, "system", now)
              && s'.calls == s.calls + [Call(id, target)]
              && (target == Active ==>
                    s'.timers == s.timers[id := Timer(Expired, now, Max(0, s.db[id].periodEnd - now))])
              && (target == Expired ==> s'.timers == s.timers - {id})
    ensures ExecuteTransition(s, id, target, now, false, true) == s.(timers := s.timers - {id})
  {
    assert (s.timers - {id})[id := Timer(Expired, now, 0)].Keys == s.timers[id := Timer(Expired, now, 0)].Keys;
  }

  /** A request is answered by what is wrong with it. */
  lemma RequestReply(s: Sys, user: Option<User>, req: CreateRequest, maxDuration: Duration, id: Id, number: string,
                     now: Instant, ok: bool)
    ensures var (s', reply) := HandleRequest(s, user, req, maxDuration, id, number, now, ok);
            && reply == (if user == None then Unauthorized
                         else if !Acceptable(req, maxDuration) then BadRequest
                         else if !ok then ServerError
                         else Created)
            && (reply != Created ==> s' == s)
  {
  }

  /** And stored field by field, timed and reported once if nothing is. */
  lemma RequestOutcome(s: Sys, user: User, req: CreateRequest, maxDuration: Duration, id: Id, number: string, now: Instant)
    requires Acceptable(req, maxDuration)
    ensures var s' := HandleRequest(s, Some(user), req, maxDuration, id, number, now, true).0;
            && s'.db.Keys == s.db.Keys + {id} && s'.db == s.db[id := s'.db[id]]
            && Stored(s'.db[id], user, req, id, number, now)
            && s'.timers == s.timers[id := Timer(Expired, now, Max(0, req.periodEnd.value - now))]
            && s'.calls == s.calls + [Call(id, Requested)]
  {
    NewIsStored(user, req, maxDuration, id, number, now);
    assert HandleRequest(s, Some(user), req, maxDuration, id, number, now, true).0.db[id] == NewTicket(user, req, id, number, now);
  }

  // ---------- a whole life ----------

  lemma {:induction false} RunSnoc(w: World, es: seq<Event>, e: Event)
    requires ValidRun(w, es) && Enabled(Run(w, es), e)
    ensures ValidRun(w, es + [e]) && Run(w, es + [e]) == Step(Run(w, es), e)
    decreases es
  {
    if es == [] {
      assert es + [e] == [e];
    } else {
      RunSnoc(Step(w, es[0]), es[1..], e);
      assert (es + [e])[1..] == es[1..] + [e];
    }
  }

  lemma Take(w: World, e: Event) returns (w': World)
    requires Reachable(w) && Enabled(w, e)
    ensures w' == Step(w, e) && Reachable(w')
  {
    var es :| ValidRun(START, es) && Run(START, es) == w;
    RunSnoc(START, es, e);
    w' := Step(w, e);
  }

  /** The history of ticket `id` so far, with the timer that will continue it. */
  ghost predicate At(w: World, id: Id, history: seq<Status>) {
    Reachable(w) && id in w.hist && w.hist[id] == history && id !in w.lost
  }

  lemma Requesting(user: User, req: CreateRequest, maxDuration: Duration, id: Id, number: string) returns (w: World)
    requires Acceptable(req, maxDuration) && id.text != ""
    ensures At(w, id, [Requested]) && id in w.sys.db && w.sys.db[id].status == Requested
  {
    assert ValidRun(START, []) && Run(START, []) == START;
    w := Take(START, Event.Request(Some(user), req, maxDuration, id, number, true));
  }

  lemma Approving(w: World, id: Id, reason: string, who: string) returns (w': World)
    requires At(w, id, [Requested]) && id in w.sys.db && w.sys.db[id].status == Requested && id.text != ""
    ensures At(w', id, [Requested, Approved]) && id in w'.sys.db && w'.sys.db[id].status == Approved
  {
    ReachableInv(w);
    assert ViewInv(ViewOf(w, id), id, w.now);
    w' := Take(w, AdminUpdate(id, Approved, reason, who, true));
    assert [Requested] + [Approved] == [Requested, Approved];
  }

  lemma Awaiting(w: World, id: Id, history: seq<Status>) returns (w': World)
    requires At(w, id, history) && id in w.sys.db && PlanOf(w.sys.db[id]).Plan?
    ensures At(w', id, history) && w'.sys == w.sys && Enabled(w', Fire(id, true))
  {
    ReachableInv(w);
    TimersOf(w);
    w' := Take(w, Wait(Max(0, PlanOf(w.sys.db[id]).time - w.now)));
  }

  /** Waiting for the timer and letting it fire brings the planned status. */
  lemma Firing(w: World, id: Id, history: seq<Status>) returns (w': World)
    requires At(w, id, history) && id in w.sys.db && PlanOf(w.sys.db[id]).Plan?
    ensures At(w', id, history + [PlanOf(w.sys.db[id]).target])
    ensures id in w'.sys.db && w'.sys.db[id].status == PlanOf(w.sys.db[id]).target
  {
    w' := Awaiting(w, id, history);
    ReachableInv(w');
    assert ViewInv(ViewOf(w', id), id, w'.now);
    w' := Take(w', Fire(id, true));
  }

  /** Every acceptable request can be approved, activated and expired. */
  lemma WholeLife(user: User, req: CreateRequest, maxDuration: Duration, id: Id, number: string, reason: string, who: string)
    returns (w: World)
    requires Acceptable(req, maxDuration) && id.text != ""
    ensures At(w, id, [Requested, Approved, Active, Expired])
    ensures id in w.sys.db && w.sys.db[id].status == Expired
  {
    w := Requesting(user, req, maxDuration, id, number);
    w := Approving(w, id, reason, who);
    w := Firing(w, id, [Requested, Approved]);
    assert [Requested, Approved] + [Active] == [Requested, Approved, Active];
    w := Firing(w, id, [Requested, Approved, Active]);
    assert [Requested, Approved, Active] + [Expired] == [Requested, Approved, Active, Expired];
  }
}
