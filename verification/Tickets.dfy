/** JIT tickets and their status table (knox-proxy/jit/models.go). */
module Tickets {
  import opened Options

  // A uuid column value, or the text a path gives for one.
  datatype Id = Id(text: string)

  datatype Status = Requested | Approved | Active | Expired | Rejected | Revoked | Canceled

  /** The table ValidTransitions: a status it does not list has no way out. */
  predicate IsValidTransition(from: Status, to: Status) {
    match from
    case Requested => to.Approved? || to.Rejected? || to.Canceled?
    case Approved => to.Active? || to.Revoked?
    case Active => to.Revoked? || to.Expired?
    case _ => false
  }

  datatype Ticket = Ticket(
    id: Id, ticketNumber: string,
    email: string, displayName: string, team: string,
    workflowID: string, accessType: string, description: string,
    periodStart: Instant, periodEnd: Instant,
    status: Status, statusReason: string, updatedBy: string,
    createdAt: Instant, updatedAt: Instant)

  /** Everything but status, reason, author and update time is as it was. */
  predicate SameRequest(t: Ticket, u: Ticket) {
    t == u.(status := t.status, statusReason := t.statusReason, updatedBy := t.updatedBy, updatedAt := t.updatedAt)
  }

  predicate Terminal(s: Status) {
    s.Expired? || s.Rejected? || s.Revoked? || s.Canceled?
  }

  /** The edges a serial run may take: the table, and the scheduler's own requested -> expired. */
  predicate Edge(from: Status, to: Status) {
    IsValidTransition(from, to) || (from.Requested? && to.Expired?)
  }

  predicate IsPath(h: seq<Status>) {
    if |h| <= 1 then h == [Requested]
    else IsPath(h[..|h| - 1]) && Edge(h[|h| - 2], h[|h| - 1])
  }

  function Depth(s: Status): nat {
    match s
    case Requested => 0
    case Approved => 1
    case Active => 2
    case _ => 3
  }

  lemma {:induction false} PathDepth(h: seq<Status>)
    requires IsPath(h)
    ensures |h| - 1 <= Depth(h[|h| - 1])
  {
    if |h| > 1 {
      PathDepth(h[..|h| - 1]);
    }
  }

  lemma PathSnoc(h: seq<Status>, s: Status)
    requires IsPath(h) && Edge(h[|h| - 1], s)
    ensures IsPath(h + [s])
  {
    assert (h + [s])[..|h|] == h;
  }
}
