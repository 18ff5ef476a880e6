/**
 The ticket repository, scheduler and handlers as objects that update the table, the timer
 map and the webhook calls. Each method, run alone, does what its Lifecycle function says.
 The database clock and the process clock are one clock, read once a call.
 */
module JitService {
  import opened Options
  import opened Tickets
  import opened Validation
  import opened Lifecycle
  import opened SerialRuns

  class Repository {
    var rows: map<Id, Ticket>

    ghost predicate Valid()
      reads this
    {
      forall id :: id in rows ==> rows[id].id == id
    }

    constructor ()
      ensures Valid() && rows == map[]
    {
      rows := map[];
    }

    /** INSERT ... RETURNING id; the database makes up the id. */
    method CreateTicket(t: Ticket, ok: bool) returns (created: bool)
      requires Valid() && t.id !in rows
      modifies this
      ensures Valid() && created == ok
      ensures rows == if ok then old(rows)[t.id := t.(status := Requested)] else old(rows)
    {
      if ok {
        rows := rows[t.id := t.(status := Requested)];
      }
      created := ok;
    }

    method GetTicketByID(id: Id) returns (t: Option<Ticket>)
      ensures t.Some? <==> id in rows
      ensures t.Some? ==> t.value == rows[id]
    {
      t := if id in rows then Some(rows[id]) else None;
    }

    /** SELECT, check, UPDATE, re-read; `ok` and `reread` say whether the database fails before or after the write. */
    method UpdateTicketStatus(id: Id, status: Status, reason: string, who: string, now: Instant, ok: bool, reread: bool)
      returns (t: Option<Ticket>)
      requires Valid()
      modifies this
      ensures Valid()
      ensures match Lifecycle.UpdateTicketStatus(old(rows), id, status, reason, who, now, ok, reread)
              case Failed => t == None && rows == old(rows)
              case Unread(db) => t == None && rows == db
              case Updated(db, u) => t == Some(u) && rows == db
    {
      if !ok || id !in rows {
        return None;
      }
      var current := rows[id].status;
      if !IsValidTransition(current, status) {
        return None;
      }
      rows := rows[id := rows[id].(status := status, statusReason := reason, updatedBy := who, updatedAt := now)];
      if !reread {
        return None;
      }
      t := GetTicketByID(id);
    }

    method SystemUpdateStatus(id: Id, status: Status, now: Instant, ok: bool, reread: bool) returns (t: Option<Ticket>)
      requires Valid()
      modifies this
      ensures Valid()
      ensures match Lifecycle.SystemUpdateStatus(old(rows), id, status, now, ok, reread)
              case Failed => t == None && rows == old(rows)
              case Unread(db) => t == None && rows == db
              case Updated(db, u) => t == Some(u) && rows == db
    {
      if !ok || id !in rows || rows[id].status == status {
        return None;
      }
      rows := rows[id := rows[id].(status := status, updatedBy := "system", updatedAt := now)];
      if !reread {
        return None;
      }
      t := GetTicketByID(id);
    }

    /** Scans the pending rows, in whatever order the database gives them. */
    method GetPendingTransitions() returns (tickets: seq<Ticket>)
      requires Valid()
      ensures forall t :: t in tickets <==> t.id in rows && t == rows[t.id] && PlanOf(t).Plan?
      ensures forall i, j :: 0 <= i < j < |tickets| ==> tickets[i].id != tickets[j].id
    {
      tickets := [];
      var rest := rows.Keys;
      while rest != {}
        invariant rest <= rows.Keys
        invariant forall t :: t in tickets <==> t.id in rows && t.id !in rest && t == rows[t.id] && PlanOf(t).Plan?
        invariant forall i, j :: 0 <= i < j < |tickets| ==> tickets[i].id != tickets[j].id
        decreases rest
      {
        var id :| id in rest;
        if PlanOf(rows[id]).Plan? {
          assert forall t :: t in tickets ==> t.id != id;
          tickets := tickets + [rows[id]];
        }
        rest := rest - {id};
      }
    }
  }

  class Webhooks {
    var calls: seq<Call>

    constructor ()
      ensures calls == []
    {
      calls := [];
    }

    method Fire(t: Ticket)
      modifies this
      ensures calls == old(calls) + [Call(t.id, t.status)]
    {
      calls := calls + [Call(t.id, t.status)];
    }
  }

  class Scheduler {
    var timers: map<Id, Timer>
    const repo: Repository
    const webhooks: Webhooks

    constructor (repo: Repository, webhooks: Webhooks)
      ensures this.repo == repo && this.webhooks == webhooks && timers == map[]
    {
      this.repo, this.webhooks, timers := repo, webhooks, map[];
    }

    ghost function State(): Sys
      reads this, repo, webhooks
    {
      Sys(repo.rows, timers, webhooks.calls)
    }

    method Cancel(id: Id)
      modifies this
      ensures timers == old(timers) - {id}
    {
      if id in timers {
        timers := timers - {id};
      }
    }

    method Schedule(t: Ticket, now: Instant)
      modifies this
      ensures timers == Lifecycle.Schedule(old(timers), t, now)
    {
      Cancel(t.id);
      var target: Status;
      var time: Instant;
      if t.status == Approved {
        time := t.periodStart;
        target := Active;
      } else if t.status == Active || t.status == Requested {
        time := t.periodEnd;
        target := Expired;
      } else {
        return;
      }
      var duration := time - now;
      if duration < 0 {
        duration := 0;
      }
      timers := timers[t.id := Timer(target, now, duration)];
    }

    method ExecuteTransition(id: Id, target: Status, now: Instant, ok: bool, reread: bool)
      requires repo.Valid()
      modifies this, repo, webhooks
      ensures repo.Valid()
      ensures State() == Lifecycle.ExecuteTransition(old(State()), id, target, now, ok, reread)
    {
      timers := timers - {id};
      var updated := repo.SystemUpdateStatus(id, target, now, ok, reread);
      if updated.Some? {
        webhooks.Fire(updated.value);
        if target == Active {
          Schedule(updated.value, now);
        }
      }
    }

    /**
     Reads the clock once a ticket, at times that do not decrease between `start` and `end`; a
     failing database leaves the map as it is. SerialTheorems.RestartAtAnyClock says what that
     means after a restart.
     */
    method InitFromDB(start: Instant, end: Instant, ok: bool)
      requires repo.Valid() && start <= end
      modifies this
      ensures !ok ==> timers == old(timers)
      ensures ok ==> timers.Keys == old(timers.Keys) + Pending(repo.rows)
      ensures forall id :: id in timers && id !in Pending(repo.rows) ==> timers[id] == old(timers)[id]
      ensures ok ==> forall id :: id in Pending(repo.rows) ==>
        TimerFits(timers[id], repo.rows[id], end) && timers[id].armedAt >= start
    {
      if !ok {
        return;
      }
      var tickets := repo.GetPendingTransitions();
      var now := start;
      ghost var done: set<Id> := {};
      for i := 0 to |tickets|
        invariant start <= now <= end
        invariant forall t :: t in tickets[..i] ==> t.id in done
        invariant done <= Pending(repo.rows)
        invariant timers.Keys == old(timers.Keys) + done
        invariant forall id :: id in timers && id !in done ==> timers[id] == old(timers)[id]
        invariant forall id :: id in done ==> TimerFits(timers[id], repo.rows[id], end) && timers[id].armedAt >= start
      {
        var reading :| now <= reading <= end;
        now := reading;
        var ticket := tickets[i];
        assert ticket in tickets;
        Schedule(ticket, now);
        assert TimerFits(timers[ticket.id], ticket, end);
        done := done + {ticket.id};
      }
      forall id | id in Pending(repo.rows)
        ensures id in done
      {
        assert repo.rows[id] in tickets && tickets[..|tickets|] == tickets;
      }
    }
  }

  datatype StatusUpdate = StatusUpdate(status: Status, reason: string, who: string)

  class Handler {
    const repo: Repository
    const scheduler: Scheduler
    const webhooks: Webhooks
    const maxDuration: Duration

    ghost predicate Valid()
      reads repo
    {
      scheduler.repo == repo && scheduler.webhooks == webhooks && repo.Valid()
    }

    constructor (scheduler: Scheduler, maxDuration: Duration)
      requires scheduler.repo.Valid()
      ensures Valid() && this.scheduler == scheduler && this.maxDuration == maxDuration
    {
      this.scheduler, this.maxDuration := scheduler, maxDuration;
      repo, webhooks := scheduler.repo, scheduler.webhooks;
    }

    /** `body` is None when it does not decode. */
    method HandleRequestJIT(user: Option<User>, body: Option<CreateRequest>, id: Id, number: string, now: Instant, ok: bool)
      returns (reply: Reply)
      requires Valid() && id !in repo.rows
      modifies repo, scheduler, webhooks
      ensures Valid()
      ensures user.None? || body.None? ==>
        scheduler.State() == old(scheduler.State()) && reply == if user.None? then Unauthorized else BadRequest
      ensures user.Some? && body.Some? ==>
        (scheduler.State(), reply) == HandleRequest(old(scheduler.State()), user, body.value, maxDuration, id, number, now, ok)
    {
      if user.None? {
        return Unauthorized;
      }
      if body.None? {
        return BadRequest;
      }
      var req := body.value;
      var errs := ValidateCreateRequest(req, maxDuration);
      if |errs| > 0 {
        return BadRequest;
      }
      var ticket := NewTicket(user.value, req, id, number, now);
      var created := repo.CreateTicket(ticket, ok);
      if !created {
        return ServerError;
      }
      scheduler.Schedule(ticket, now);
      webhooks.Fire(ticket);
      reply := Created;
    }

    /** `id` is the row the database finds for the text `pathId`. */
    method HandleCancelTicket(email: Option<string>, pathId: Id, id: Id, now: Instant, readOk: bool, updateOk: bool,
                              reread: bool)
      returns (reply: Reply)
      requires Valid()
      modifies repo, scheduler, webhooks
      ensures Valid()
      ensures (scheduler.State(), reply) == HandleCancel(old(scheduler.State()), email, pathId, id, now, readOk, updateOk, reread)
    {
      if email.None? {
        return Unauthorized;
      }
      if pathId.text == "" {
        return BadRequest;
      }
      if !readOk {
        return ServerError;
      }
      var ticket := repo.GetTicketByID(id);
      if ticket.None? {
        return NotFound;
      }
      if ticket.value.email != email.value {
        return Forbidden;
      }
      if ticket.value.status != Requested {
        return BadRequest;
      }
      var updated := repo.UpdateTicketStatus(id, Canceled, "Canceled by user", email.value, now, updateOk, reread);
      if updated.None? {
        return ServerError;
      }
      scheduler.Cancel(pathId);
      webhooks.Fire(updated.value);
      reply := OK;
    }

    /** `body` is None when it does not decode. */
    method HandleAdminUpdateStatus(id: Id, body: Option<StatusUpdate>, now: Instant, ok: bool, reread: bool)
      returns (reply: Reply)
      requires Valid()
      modifies repo, scheduler, webhooks
      ensures Valid()
      ensures (scheduler.State(), reply) ==
        if body.None? then (old(scheduler.State()), BadRequest)
        else HandleAdminUpdate(old(scheduler.State()), id, body.value.status, body.value.reason, body.value.who, now, ok, reread)
    {
      if id.text == "" || body.None? {
        return BadRequest;
      }
      var target := body.value.status;
      if !(target.Approved? || target.Rejected? || target.Revoked?) {
        return BadRequest;
      }
      var updated := repo.UpdateTicketStatus(id, target, body.value.reason, body.value.who, now, ok, reread);
      if updated.None? {
        return BadRequest;
      }
      if target == Approved {
        scheduler.Schedule(updated.value, now);
      } else {
        scheduler.Cancel(updated.value.id);
      }
      webhooks.Fire(updated.value);
      reply := OK;
    }
  }
}
