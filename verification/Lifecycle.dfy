/**
 What one handler call or one timer callback does to the ticket table, the timer map
 and the webhook calls when it runs alone
 (knox-proxy/jit/repository.go, scheduler.go and handler.go).
 */
module Lifecycle {
  import opened Options
  import opened Tickets
  import opened Validation

  /** time.AfterFunc(delay, executeTransition(id, target)), started at `armedAt`. */
  datatype Timer = Timer(target: Status, armedAt: Instant, delay: nat)

  predicate Due(timer: Timer, now: Instant) {
    now >= timer.armedAt + timer.delay
  }

  /** One FireWebhook call and the status it reports. */
  datatype Call = Call(id: Id, status: Status)

  datatype Sys = Sys(db: map<Id, Ticket>, timers: map<Id, Timer>, calls: seq<Call>)

  datatype User = User(email: string, displayName: string, team: string)

  datatype Reply = Created | OK | BadRequest | Unauthorized | Forbidden | NotFound | ServerError

  // ---------- scheduler.go ----------

  datatype Plan = NoPlan | Plan(target: Status, time: Instant)

  /** The transition time alone will bring about. */
  function PlanOf(t: Ticket): Plan {
    match t.status
    case Approved => Plan(Active, t.periodStart)
    case Active => Plan(Expired, t.periodEnd)
    case Requested => Plan(Expired, t.periodEnd)
    case _ => NoPlan
  }

  function Schedule(timers: map<Id, Timer>, t: Ticket, now: Instant): map<Id, Timer> {
    match PlanOf(t)
    case NoPlan => timers - {t.id}
    case Plan(target, time) => timers[t.id := Timer(target, now, Max(0, time - now))]
  }

  function Pending(db: map<Id, Ticket>): set<Id> {
    set id | id in db && PlanOf(db[id]).Plan?
  }

  // ---------- repository.go ----------

  /** Unread: the row is written, but reading it back failed. */
  datatype UpdateResult = Failed | Unread(db: map<Id, Ticket>) | Updated(db: map<Id, Ticket>, ticket: Ticket)

  /** `ok` is false when the database fails before the write, `reread` when it fails after it. */
  function UpdateTicketStatus(db: map<Id, Ticket>, id: Id, status: Status, reason: string, who: string,
                              now: Instant, ok: bool, reread: bool): UpdateResult {
    if !ok || id !in db || !IsValidTransition(db[id].status, status) then Failed
    else
      var t := db[id].(status := status, statusReason := reason, updatedBy := who, updatedAt := now);
      if reread then Updated(db[id := t], t) else Unread(db[id := t])
  }

  function SystemUpdateStatus(db: map<Id, Ticket>, id: Id, status: Status, now: Instant, ok: bool, reread: bool): UpdateResult {
    if !ok || id !in db || db[id].status == status then Failed
    else
      var t := db[id].(status := status, updatedBy := "system", updatedAt := now);
      if reread then Updated(db[id := t], t) else Unread(db[id := t])
  }

  /** The timer callback. The timer has left the map when the database fails, before or after the write. */
  function ExecuteTransition(s: Sys, id: Id, target: Status, now: Instant, ok: bool, reread: bool): Sys {
    var timers := s.timers - {id};
    match SystemUpdateStatus(s.db, id, target, now, ok, reread)
    case Failed => s.(timers := timers)
    case Unread(db) => s.(db := db, timers := timers)
    case Updated(db, t) =>
      Sys(db, if target == Active then Schedule(timers, t, now) else timers, s.calls + [Call(t.id, t.status)])
  }

  // ---------- handler.go ----------

  function NewTicket(user: User, req: CreateRequest, id: Id, number: string, now: Instant): Ticket
    requires req.periodStart.Some? && req.periodEnd.Some?
  {
    Ticket(id, number, user.email, user.displayName, user.team, req.workflowID,
           AccessString(req.accessType), req.description, req.periodStart.value, req.periodEnd.value,
           Requested, "", "", now, now)
  }

  function HandleRequest(s: Sys, user: Option<User>, req: CreateRequest, maxDuration: Duration,
                         id: Id, number: string, now: Instant, ok: bool): (Sys, Reply) {
    if user.None? then (s, Unauthorized)
    else if !Acceptable(req, maxDuration) then (s, BadRequest)
    else if !ok then (s, ServerError)
    else
      var t := NewTicket(user.value, req, id, number, now);
      (Sys(s.db[id := t], Schedule(s.timers, t, now), s.calls + [Call(id, Requested)]), Created)
  }

  /**
   The database matches the row by uuid value, so the path may spell the row's id in another
   way; the timer is cancelled under the spelling in the path.
   */
  function HandleCancel(s: Sys, email: Option<string>, pathId: Id, id: Id, now: Instant,
                        readOk: bool, updateOk: bool, reread: bool): (Sys, Reply) {
    if email.None? then (s, Unauthorized)
    else if pathId.text == "" then (s, BadRequest)
    else if !readOk then (s, ServerError)
    else if id !in s.db then (s, NotFound)
    else if s.db[id].email != email.value then (s, Forbidden)
    else if s.db[id].status != Requested then (s, BadRequest)
    else
      match UpdateTicketStatus(s.db, id, Canceled, "Canceled by user", email.value, now, updateOk, reread)
      case Failed => (s, ServerError)
      case Unread(db) => (s.(db := db), ServerError)
      case Updated(db, t) => (Sys(db, s.timers - {pathId}, s.calls + [Call(t.id, t.status)]), OK)
  }

  function HandleAdminUpdate(s: Sys, id: Id, target: Status, reason: string, who: string, now: Instant,
                             ok: bool, reread: bool): (Sys, Reply) {
    if id.text == "" || !(target.Approved? || target.Rejected? || target.Revoked?) then (s, BadRequest)
    else
      match UpdateTicketStatus(s.db, id, target, reason, who, now, ok, reread)
      case Failed => (s, BadRequest)
      case Unread(db) => (s.(db := db), BadRequest)
      case Updated(db, t) =>
        (Sys(db, if target == Approved then Schedule(s.timers, t, now) else s.timers - {t.id},
             s.calls + [Call(t.id, t.status)]), OK)
  }
}
