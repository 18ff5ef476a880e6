/**
 The ticket list queries (knox-proxy/jit/repository.go) and their paging parameters
 (knox-proxy/jit/handler.go).
 */
module TicketQuery {
  import opened Options
  import opened Tickets
  import opened Validation
  import opened DurationText

  datatype Column = EmailColumn | TeamColumn | StatusColumn | WorkflowColumn

  /** One conjunct of a WHERE clause: 1=1, or column = $placeholder. */
  datatype Condition = Always | Equals(column: Column, placeholder: nat)

  datatype Argument = Text(text: string) | Number(n: int)

  /** WHERE the conjunction of `conditions` ... LIMIT $limitAt, and OFFSET $offsetAt unless that is 0. */
  datatype Query = Query(conditions: seq<Condition>, args: seq<Argument>, limitAt: nat, offsetAt: nat)

  datatype Filter = Filter(email: string, team: string, status: string, workflowID: string, limit: int, offset: int)

  function StatusText(s: Status): string {
    match s
    case Requested => "requested"
    case Approved => "approved"
    case Active => "active"
    case Expired => "expired"
    case Rejected => "rejected"
    case Revoked => "revoked"
    case Canceled => "canceled"
  }

  function Value(t: Ticket, c: Column): string {
    match c
    case EmailColumn => t.email
    case TeamColumn => t.team
    case StatusColumn => StatusText(t.status)
    case WorkflowColumn => t.workflowID
  }

  predicate Satisfies(t: Ticket, c: Condition, args: seq<Argument>) {
    match c
    case Always => true
    case Equals(column, n) => 1 <= n <= |args| && args[n - 1] == Argument.Text(Value(t, column))
  }

  predicate SatisfiesAll(t: Ticket, conditions: seq<Condition>, args: seq<Argument>) {
    forall i :: 0 <= i < |conditions| ==> Satisfies(t, conditions[i], args)
  }

  /** The plain reading of a filter: an empty field does not restrict. */
  predicate Matches(t: Ticket, f: Filter) {
    && (f.email == "" || t.email == f.email)
    && (f.team == "" || t.team == f.team)
    && (f.status == "" || StatusText(t.status) == f.status)
    && (f.workflowID == "" || t.workflowID == f.workflowID)
  }

  function FilterKeeps(f: Filter): Ticket -> bool {
    (t: Ticket) => Matches(t, f)
  }

  function EmailKeeps(email: string, status: string): Ticket -> bool {
    (t: Ticket) => t.email == email && (status == "" || StatusText(t.status) == status)
  }

  function EffectiveLimit(limit: int, most: nat): int {
    if limit <= 0 || limit > most then 50 else limit
  }

  /** Each status text the filter may hold stands for its one status. */
  lemma StatusTexts(s: Status)
    ensures StatusText(s) == "requested" <==> s == Requested
    ensures StatusText(s) == "approved" <==> s == Approved
    ensures StatusText(s) == "active" <==> s == Active
    ensures StatusText(s) == "expired" <==> s == Expired
    ensures StatusText(s) == "rejected" <==> s == Rejected
    ensures StatusText(s) == "revoked" <==> s == Revoked
    ensures StatusText(s) == "canceled" <==> s == Canceled
  {
    assert "approved"[0] == 'a' && "rejected"[0] == 'r' && "canceled"[0] == 'c';
    assert "expired"[0] == 'e' && "revoked"[0] == 'r';
  }

  /** The placeholders a list of conditions uses, in order. */
  function Placeholders(conditions: seq<Condition>): seq<nat> {
    if conditions == [] then []
    else
      Placeholders(conditions[..|conditions| - 1]) +
      (match conditions[|conditions| - 1]
       case Always => []
       case Equals(_, n) => [n])
  }

  function UpTo(n: nat): seq<nat> {
    seq(n, i requires 0 <= i < n => i + 1)
  }

  /** Adds column = $argIdx and binds it. */
  lemma AddCondition(conditions: seq<Condition>, args: seq<Argument>, column: Column, text: string)
    requires Placeholders(conditions) == UpTo(|args|)
    ensures var conditions' := conditions + [Equals(column, |args| + 1)];
            var args' := args + [Argument.Text(text)];
            && Placeholders(conditions') == UpTo(|args'|)
            && forall t :: SatisfiesAll(t, conditions', args') <==> SatisfiesAll(t, conditions, args) && Value(t, column) == text
  {
    var c := Equals(column, |args| + 1);
    var conditions', args' := conditions + [c], args + [Argument.Text(text)];
    assert conditions'[..|conditions|] == conditions;
    assert UpTo(|args'|) == UpTo(|args|) + [|args| + 1];
    forall t
      ensures SatisfiesAll(t, conditions', args') <==> SatisfiesAll(t, conditions, args) && Value(t, column) == text
    {
      forall i | 0 <= i < |conditions|
        ensures Satisfies(t, conditions'[i], args') <==> Satisfies(t, conditions[i], args)
      {
        PlaceholderBound(conditions, |args|, i);
      }
      assert conditions'[|conditions|] == c;
      if SatisfiesAll(t, conditions', args') {
        assert Satisfies(t, conditions'[|conditions|], args');
        forall i | 0 <= i < |conditions|
          ensures Satisfies(t, conditions[i], args)
        {
          assert Satisfies(t, conditions'[i], args');
        }
      }
    }
  }

  lemma {:induction false} PlaceholderIn(conditions: seq<Condition>, i: nat)
    requires i < |conditions| && conditions[i].Equals?
    ensures conditions[i].placeholder in Placeholders(conditions)
  {
    if i < |conditions| - 1 {
      PlaceholderIn(conditions[..|conditions| - 1], i);
    }
  }

  lemma PlaceholderBound(conditions: seq<Condition>, n: nat, i: nat)
    requires Placeholders(conditions) == UpTo(n) && i < |conditions|
    ensures conditions[i].Equals? ==> 1 <= conditions[i].placeholder <= n
  {
    if conditions[i].Equals? {
      PlaceholderIn(conditions, i);
    }
  }

  /** Arguments no condition refers to change nothing. */
  lemma MoreArguments(conditions: seq<Condition>, args: seq<Argument>, more: seq<Argument>)
    requires Placeholders(conditions) == UpTo(|args|)
    ensures forall t :: SatisfiesAll(t, conditions, args + more) <==> SatisfiesAll(t, conditions, args)
  {
    forall t, i | 0 <= i < |conditions|
      ensures Satisfies(t, conditions[i], args + more) <==> Satisfies(t, conditions[i], args)
    {
      PlaceholderBound(conditions, |args|, i);
    }
  }

  /** The conditions use $1..$n once each, in order, and select what `keeps` says. */
  ghost predicate Selects(conditions: seq<Condition>, args: seq<Argument>, keeps: Ticket -> bool) {
    && Placeholders(conditions) == UpTo(|args|)
    && forall t :: SatisfiesAll(t, conditions, args) <==> keeps(t)
  }

  /** One of the builders' steps: a field that is set becomes a condition, and argIdx moves on. */
  method AddIfSet(conditions: seq<Condition>, args: seq<Argument>, argIdx: nat, column: Column, text: string,
                  ghost keeps: Ticket -> bool, ghost keeps': Ticket -> bool)
    returns (conditions': seq<Condition>, args': seq<Argument>, argIdx': nat)
    requires Selects(conditions, args, keeps) && argIdx == |args| + 1
    requires forall t :: keeps'(t) <==> keeps(t) && (text == "" || Value(t, column) == text)
    ensures Selects(conditions', args', keeps')
    ensures argIdx' == |args'| + 1
  {
    conditions', args', argIdx' := conditions, args, argIdx;
    if text != "" {
      AddCondition(conditions, args, column, text);
      conditions' := conditions' + [Equals(column, argIdx)];
      args' := args' + [Argument.Text(text)];
      argIdx' := argIdx' + 1;
    }
  }

  /**
   A query whose conditions use $1..$n for the arguments of the count and keep what `keeps`
   says, and whose LIMIT and OFFSET use the placeholders after them.
   */
  ghost predicate Built(q: Query, countArgs: seq<Argument>, keeps: Ticket -> bool, bounds: seq<Argument>) {
    && Selects(q.conditions, countArgs, keeps)
    && q.args == countArgs + bounds
    && Placeholders(q.conditions) + [q.limitAt] + (if q.offsetAt == 0 then [] else [q.offsetAt]) == UpTo(|q.args|)
  }

  method ListAllQuery(filter: Filter) returns (q: Query, countArgs: seq<Argument>)
    ensures q.offsetAt != 0
    ensures Built(q, countArgs, FilterKeeps(filter), [Number(EffectiveLimit(filter.limit, 200)), Number(Max(0, filter.offset))])
  {
    var limit, offset := filter.limit, filter.offset;
    if limit <= 0 || limit > 200 {
      limit := 50;
    }
    if offset < 0 {
      offset := 0;
    }
    var conditions: seq<Condition> := [Always];
    var args: seq<Argument> := [];
    var argIdx := 1;
    assert conditions[..0] == [];
    ghost var f0 := Filter("", "", "", "", 0, 0);
    ghost var f1 := f0.(email := filter.email);
    ghost var f2 := f1.(team := filter.team);
    ghost var f3 := f2.(status := filter.status);
    conditions, args, argIdx := AddIfSet(conditions, args, argIdx, EmailColumn, filter.email, t => Matches(t, f0), t => Matches(t, f1));
    conditions, args, argIdx := AddIfSet(conditions, args, argIdx, TeamColumn, filter.team, t => Matches(t, f1), t => Matches(t, f2));
    conditions, args, argIdx := AddIfSet(conditions, args, argIdx, StatusColumn, filter.status, t => Matches(t, f2), t => Matches(t, f3));
    conditions, args, argIdx := AddIfSet(conditions, args, argIdx, WorkflowColumn, filter.workflowID, t => Matches(t, f3), FilterKeeps(filter));
    countArgs := args;
    args := countArgs + [Number(limit), Number(offset)];
    q := Query(conditions, args, argIdx, argIdx + 1);
  }

  method ListByEmailQuery(email: string, status: string, limit: int) returns (q: Query, countArgs: seq<Argument>)
    ensures q.offsetAt == 0
    ensures Built(q, countArgs, EmailKeeps(email, status), [Number(EffectiveLimit(limit, 100))])
  {
    var most := limit;
    if most <= 0 || most > 100 {
      most := 50;
    }
    AddCondition([], [], EmailColumn, email);
    assert [] + [Equals(EmailColumn, 1)] == [Equals(EmailColumn, 1)] && [] + [Argument.Text(email)] == [Argument.Text(email)];
    var conditions := [Equals(EmailColumn, 1)];
    var args := [Argument.Text(email)];
    var argIdx := 2;
    conditions, args, argIdx := AddIfSet(conditions, args, argIdx, StatusColumn, status, (t: Ticket) => t.email == email,
      EmailKeeps(email, status));
    countArgs := args;
    args := args + [Number(most)];
    q := Query(conditions, args, argIdx, 0);
  }

  // ---------- paging ----------

  function Page<T>(s: seq<T>, limit: nat, offset: nat): seq<T> {
    if offset >= |s| then [] else if offset + limit <= |s| then s[offset..offset + limit] else s[offset..]
  }

  /** The pages a client reads from `from` on, moving by the limit it asked for. */
  function Pages<T>(s: seq<T>, asked: nat, from: nat): seq<T>
    requires asked > 0
    decreases |s| - from
  {
    if from >= |s| then [] else Page(s, EffectiveLimit(asked, 200), from) + Pages(s, asked, from + asked)
  }

  lemma {:induction false} PagesCover<T>(s: seq<T>, asked: nat, from: nat)
    requires 1 <= asked <= 200 && from <= |s|
    ensures Pages(s, asked, from) == s[from..]
    decreases |s| - from
  {
    if from + asked <= |s| {
      PagesCover(s, asked, from + asked);
      assert s[from..] == s[from..from + asked] + s[from + asked..];
    }
  }

  lemma {:induction false} PagesFit<T>(s: seq<T>, asked: nat, from: nat)
    requires asked > 200
    ensures |Pages(s, asked, from)| <= Max(0, |s| - from)
    decreases |s| - from
  {
    if from < |s| {
      PagesFit(s, asked, from + asked);
    }
  }

  /** Pages of an answer, read one after the other, are the whole answer iff the limit asked for is at most 200 or one page of 50 holds it. */
  lemma PagesCoverAnswerIff<T>(s: seq<T>, asked: nat)
    requires asked > 0
    ensures Pages(s, asked, 0) == s <==> asked <= 200 || |s| <= 50
  {
    if asked <= 200 {
      PagesCover(s, asked, 0);
    } else if s != [] {
      PagesFit(s, asked, asked);
    }
  }

  /** They are so for every answer iff the limit is at most 200. */
  lemma PagesCoverIff<T(!new)>(asked: nat, x: T)
    requires asked > 0
    ensures (forall s: seq<T> :: Pages(s, asked, 0) == s) <==> asked <= 200
  {
    forall s: seq<T>
      ensures Pages(s, asked, 0) == s <==> asked <= 200 || |s| <= 50
    {
      PagesCoverAnswerIff(s, asked);
    }
    var s := seq(51, _ => x);
    assert Pages(s, asked, 0) == s <==> asked <= 200;
  }

  // ---------- ORDER BY created_at DESC ----------

  /** An answer the database may give: the rows, each once, the newest first. */
  ghost predicate Ordering(rows: set<Ticket>, s: seq<Ticket>) {
    && (forall t :: t in s <==> t in rows)
    && (forall i, j :: 0 <= i < j < |s| ==> s[i] != s[j] && s[i].createdAt >= s[j].createdAt)
  }

  ghost predicate DistinctTimes(rows: set<Ticket>) {
    forall t, u :: t in rows && u in rows && t != u ==> t.createdAt != u.createdAt
  }

  lemma Tail(rows: set<Ticket>, s: seq<Ticket>)
    requires Ordering(rows, s) && s != []
    ensures s[0] in rows && Ordering(rows - {s[0]}, s[1..])
  {
    forall t
      ensures t in s[1..] <==> t in rows - {s[0]}
    {
      if t in rows - {s[0]} {
        var i :| 0 <= i < |s| && s[i] == t;
        assert t == s[1..][i - 1];
      }
    }
  }

  lemma {:induction false} OrderingUnique(rows: set<Ticket>, s: seq<Ticket>, r: seq<Ticket>)
    requires DistinctTimes(rows) && Ordering(rows, s) && Ordering(rows, r)
    ensures s == r
    decreases s
  {
    if s == [] {
      assert r == [];
    } else {
      assert s[0] in s;
      assert r != [];
      Newest(rows, s, r[0]);
      Newest(rows, r, s[0]);
      Tail(rows, s);
      Tail(rows, r);
      OrderingUnique(rows - {s[0]}, s[1..], r[1..]);
    }
  }

  lemma Newest(rows: set<Ticket>, s: seq<Ticket>, t: Ticket)
    requires Ordering(rows, s) && s != []
    ensures t in rows ==> s[0].createdAt >= t.createdAt
    ensures s[0] in rows
  {
    assert s[0] in s;
    if t in rows {
      var i :| 0 <= i < |s| && s[i] == t;
    }
  }

  lemma {:induction false} OrderingSize(rows: set<Ticket>, s: seq<Ticket>)
    requires Ordering(rows, s)
    ensures |s| == |rows|
    decreases s
  {
    if s != [] {
      Tail(rows, s);
      OrderingSize(rows - {s[0]}, s[1..]);
    } else {
      assert rows == {};
    }
  }

  // ---------- pages of separate queries ----------

  /** Where page k begins. */
  function Cut(k: nat, limit: nat): nat {
    k * limit
  }

  /** The page that holds position p. */
  function PageNo(p: nat, limit: nat): nat
    requires limit > 0
  {
    p / limit
  }

  lemma CutsGrow(j: nat, k: nat, limit: nat)
    requires j <= k
    ensures Cut(j, limit) <= Cut(k, limit) && Cut(j + 1, limit) == Cut(j, limit) + limit
  {
    assert k * limit == j * limit + (k - j) * limit;
  }

  lemma OnPage(p: nat, k: nat, limit: nat)
    requires limit > 0
    ensures PageNo(p, limit) == k <==> Cut(k, limit) <= p < Cut(k, limit) + limit
  {
    assert p == p / limit * limit + p % limit;
    if p / limit < k {
      CutsGrow(p / limit + 1, k, limit);
      CutsGrow(p / limit, k, limit);
    } else if p / limit > k {
      CutsGrow(k + 1, p / limit, limit);
      CutsGrow(k, k, limit);
    }
  }

  /** Page k is read by a query of its own, which may put tickets of the same age in an order of its own. */
  function ReadPages(answers: seq<seq<Ticket>>, limit: nat, k: nat): seq<Ticket>
    decreases |answers| - k
  {
    if k >= |answers| then [] else Page(answers[k], limit, Cut(k, limit)) + ReadPages(answers, limit, k + 1)
  }

  /** Answers to the queries of a client that reads all pages of a fixed table. */
  ghost predicate Reading(rows: set<Ticket>, answers: seq<seq<Ticket>>, limit: nat) {
    Cut(|answers|, limit) >= |rows| && forall k :: 0 <= k < |answers| ==> Ordering(rows, answers[k])
  }

  lemma {:induction false} ReadLength(answers: seq<seq<Ticket>>, n: nat, limit: nat, k: nat)
    requires k <= |answers| && Cut(|answers|, limit) >= n
    requires forall i :: 0 <= i < |answers| ==> |answers[i]| == n
    ensures |ReadPages(answers, limit, k)| == Max(0, n - Cut(k, limit))
    decreases |answers| - k
  {
    if k < |answers| {
      CutsGrow(k, k, limit);
      ReadLength(answers, n, limit, k + 1);
    }
  }

  /** What comes at position p of such a reading is what its page's answer has there. */
  lemma {:induction false} ReadAt(answers: seq<seq<Ticket>>, n: nat, limit: nat, k: nat, p: nat)
    requires limit > 0 && k <= |answers| && Cut(k, limit) <= p < n <= Cut(|answers|, limit)
    requires forall i :: 0 <= i < |answers| ==> |answers[i]| == n
    ensures PageNo(p, limit) < |answers| && |ReadPages(answers, limit, k)| == n - Cut(k, limit)
    ensures ReadPages(answers, limit, k)[p - Cut(k, limit)] == answers[PageNo(p, limit)][p]
    decreases |answers| - k
  {
    ReadLength(answers, n, limit, k);
    OnPage(p, k, limit);
    CutsGrow(k, k, limit);
    if p >= Cut(k + 1, limit) {
      ReadAt(answers, n, limit, k + 1, p);
    }
  }

  lemma AllAsLong(rows: set<Ticket>, answers: seq<seq<Ticket>>, limit: nat)
    requires Reading(rows, answers, limit)
    ensures forall k :: 0 <= k < |answers| ==> |answers[k]| == |rows|
  {
    forall k | 0 <= k < |answers|
      ensures |answers[k]| == |rows|
    {
      OrderingSize(rows, answers[k]);
    }
  }

  lemma ReadingSize(rows: set<Ticket>, answers: seq<seq<Ticket>>, limit: nat)
    requires limit > 0 && Reading(rows, answers, limit)
    ensures |ReadPages(answers, limit, 0)| == |rows|
  {
    AllAsLong(rows, answers, limit);
    ReadLength(answers, |rows|, limit, 0);
  }

  lemma ReadingAt(rows: set<Ticket>, answers: seq<seq<Ticket>>, limit: nat, p: nat)
    requires limit > 0 && Reading(rows, answers, limit) && p < |rows|
    ensures PageNo(p, limit) < |answers| && |answers[PageNo(p, limit)]| == |rows| == |ReadPages(answers, limit, 0)|
    ensures ReadPages(answers, limit, 0)[p] == answers[PageNo(p, limit)][p]
  {
    AllAsLong(rows, answers, limit);
    ReadAt(answers, |rows|, limit, 0, p);
  }

  /** No ticket comes twice, whatever orders the queries pick. */
  ghost predicate NeverRepeats(rows: set<Ticket>, limit: nat) {
    forall answers :: Reading(rows, answers, limit) ==> Distinct(ReadPages(answers, limit, 0))
  }

  /** Every ticket comes. */
  ghost predicate NeverMisses(rows: set<Ticket>, limit: nat) {
    forall answers, t :: Reading(rows, answers, limit) && t in rows ==> t in ReadPages(answers, limit, 0)
  }

  ghost predicate Distinct(s: seq<Ticket>) {
    forall i, j :: 0 <= i < j < |s| ==> s[i] != s[j]
  }

  predicate Tied(s: seq<Ticket>, i: nat) {
    0 < i < |s| && s[i - 1].createdAt == s[i].createdAt
  }

  /** No page ends between two tickets of the same age. */
  ghost predicate NoTieAcross(s: seq<Ticket>, limit: nat) {
    forall k: nat :: !Tied(s, Cut(k, limit))
  }

  lemma {:induction false} DistinctSize(s: seq<Ticket>)
    requires Distinct(s)
    ensures |set t | t in s| == |s|
    decreases |s|
  {
    if s != [] {
      var rest, last := s[..|s| - 1], s[|s| - 1];
      DistinctSize(rest);
      assert s == rest + [last] && last !in rest;
      assert (set t | t in s) == (set t | t in rest) + {last};
    }
  }

  lemma {:induction false} SubsetSize(a: set<Ticket>, b: set<Ticket>)
    requires a <= b
    ensures |a| <= |b| && (|a| == |b| ==> a == b)
    decreases a
  {
    if a != {} {
      var t :| t in a;
      SubsetSize(a - {t}, b - {t});
      assert a == (a - {t}) + {t} && b == (b - {t}) + {t};
    } else if |b| == 0 {
      assert b == {};
    }
  }

  /** What is older than all in front of a cut is behind it in every order. */
  lemma BehindCut(rows: set<Ticket>, s: seq<Ticket>, r: seq<Ticket>, c: nat, i: nat)
    requires Ordering(rows, s) && Ordering(rows, r) && 0 < c < |s| && !Tied(s, c) && i < |r| && r[i] in s[c..]
    ensures i >= c
  {
    var front, before := set t | t in s[..c], set t | t in r[..i];
    forall t | t in front
      ensures t in before
    {
      var j :| 0 <= j < c && s[j] == t;
      assert t in s && t in r;
      var m :| 0 <= m < |r| && r[m] == t;
      assert s[j].createdAt >= s[c - 1].createdAt > s[c].createdAt >= r[i].createdAt;
      assert m < i;
      assert t in r[..i];
    }
    DistinctSize(s[..c]);
    DistinctSize(r[..i]);
    SubsetSize(front, before);
  }

  /** All orders agree on what comes before a cut that no tie crosses. */
  lemma SameFront(rows: set<Ticket>, s: seq<Ticket>, r: seq<Ticket>, c: nat)
    requires Ordering(rows, s) && Ordering(rows, r) && 0 < c < |s| && c <= |r| && !Tied(s, c)
    ensures forall t :: t in s[..c] <==> t in r[..c]
  {
    var a, b := set t | t in s[..c], set t | t in r[..c];
    forall t | t in b
      ensures t in a
    {
      var i :| 0 <= i < c && r[i] == t;
      assert t in r && t in s;
      if t in s[c..] {
        BehindCut(rows, s, r, c, i);
      }
      assert s == s[..c] + s[c..];
    }
    DistinctSize(s[..c]);
    DistinctSize(r[..c]);
    SubsetSize(b, a);
    assert forall t :: t in s[..c] <==> t in a;
    assert forall t :: t in r[..c] <==> t in b;
  }

  /** A ticket that one answer has in front of such a cut, no other has behind it. */
  lemma NotBothSides(rows: set<Ticket>, s: seq<Ticket>, q: seq<Ticket>, r: seq<Ticket>, c: nat, i: nat, j: nat)
    requires Ordering(rows, s) && Ordering(rows, q) && Ordering(rows, r) && !Tied(s, c)
    requires |s| == |q| == |r| && i < c <= j < |r|
    ensures q[i] != r[j]
  {
    SameFront(rows, s, q, c);
    SameFront(rows, s, r, c);
    assert q[i] in q[..c];
    var m :| 0 <= m < c && r[m] == q[i];
  }

  lemma ReadTwoDiffer(rows: set<Ticket>, s: seq<Ticket>, answers: seq<seq<Ticket>>, limit: nat, i: nat, j: nat)
    requires limit > 0 && Ordering(rows, s) && Reading(rows, answers, limit) && NoTieAcross(s, limit) && i < j < |rows|
    ensures |ReadPages(answers, limit, 0)| == |rows| && ReadPages(answers, limit, 0)[i] != ReadPages(answers, limit, 0)[j]
  {
    ReadingAt(rows, answers, limit, i);
    ReadingAt(rows, answers, limit, j);
    OrderingSize(rows, s);
    var a, b := PageNo(i, limit), PageNo(j, limit);
    assert Ordering(rows, answers[a]) && Ordering(rows, answers[b]);
    OnPage(i, a, limit);
    OnPage(j, b, limit);
    if a != b {
      OnPage(i, b, limit);
      assert !Tied(s, Cut(b, limit));
      NotBothSides(rows, s, answers[a], answers[b], Cut(b, limit), i, j);
    }
  }

  lemma ReadsDistinct(rows: set<Ticket>, s: seq<Ticket>, answers: seq<seq<Ticket>>, limit: nat)
    requires limit > 0 && Ordering(rows, s) && Reading(rows, answers, limit) && NoTieAcross(s, limit)
    ensures Distinct(ReadPages(answers, limit, 0))
  {
    ReadingSize(rows, answers, limit);
    forall i, j | 0 <= i < j < |ReadPages(answers, limit, 0)|
      ensures ReadPages(answers, limit, 0)[i] != ReadPages(answers, limit, 0)[j]
    {
      ReadTwoDiffer(rows, s, answers, limit, i, j);
    }
  }

  /** And a reading without repetition, as long as the table, has everything. */
  lemma ReadsAll(rows: set<Ticket>, answers: seq<seq<Ticket>>, limit: nat)
    requires limit > 0 && Reading(rows, answers, limit) && Distinct(ReadPages(answers, limit, 0))
    ensures forall t :: t in rows ==> t in ReadPages(answers, limit, 0)
  {
    var read := ReadPages(answers, limit, 0);
    ReadingSize(rows, answers, limit);
    var got := set t | t in read;
    forall t | t in got
      ensures t in rows
    {
      var p :| 0 <= p < |read| && read[p] == t;
      ReadingAt(rows, answers, limit, p);
      assert answers[PageNo(p, limit)][p] in answers[PageNo(p, limit)];
    }
    DistinctSize(read);
    SubsetSize(got, rows);
  }

  /** Two neighbours of the same age may come in either order. */
  lemma SwapOrders(rows: set<Ticket>, s: seq<Ticket>, i: nat)
    requires Ordering(rows, s) && i + 1 < |s| && s[i].createdAt == s[i + 1].createdAt
    ensures Ordering(rows, s[i := s[i + 1]][i + 1 := s[i]])
  {
    var r := s[i := s[i + 1]][i + 1 := s[i]];
    forall t
      ensures t in r <==> t in s
    {
      if t in s {
        var k :| 0 <= k < |s| && s[k] == t;
        assert r[if k == i then i + 1 else if k == i + 1 then i else k] == t;
      }
    }
  }

  /** A client that gets page k in another order than the rest. */
  function OneSwapped(s: seq<Ticket>, k: nat, c: nat): seq<seq<Ticket>>
    requires 0 < c < |s|
  {
    seq(|s|, i => if i == k then s[c - 1 := s[c]][c := s[c - 1]] else s)
  }

  lemma SwappedReading(rows: set<Ticket>, s: seq<Ticket>, k: nat, limit: nat)
    requires Ordering(rows, s) && Tied(s, Cut(k, limit))
    ensures Reading(rows, OneSwapped(s, k, Cut(k, limit)), limit) && limit > 0 && 0 < k < |s|
  {
    OrderingSize(rows, s);
    assert k > 0 && limit > 0;
    assert Cut(|s|, limit) >= |s| && Cut(k, limit) >= k;
    SwapOrders(rows, s, Cut(k, limit) - 1);
  }

  /** Then the ticket in front of page k comes again, and the first one of page k never. */
  lemma TieCosts(rows: set<Ticket>, s: seq<Ticket>, k: nat, limit: nat)
    requires Ordering(rows, s) && Tied(s, Cut(k, limit))
    ensures var c := Cut(k, limit);
            var read := ReadPages(OneSwapped(s, k, c), limit, 0);
            |read| == |s| && read == s[c := s[c - 1]]
  {
    var c := Cut(k, limit);
    var answers := OneSwapped(s, k, c);
    SwappedReading(rows, s, k, limit);
    ReadingSize(rows, answers, limit);
    OrderingSize(rows, s);
    forall p | 0 <= p < |s|
      ensures ReadPages(answers, limit, 0)[p] == s[c := s[c - 1]][p]
    {
      ReadingAt(rows, answers, limit, p);
      OnPage(p, k, limit);
    }
  }

  /**
   Over a fixed table, whatever order each page's query picks among tickets of the same age: no
   ticket comes twice, and none is missed, iff no page ends between two of the same age.
   */
  lemma PagingStableIff(rows: set<Ticket>, s: seq<Ticket>, limit: nat)
    requires limit > 0 && Ordering(rows, s)
    ensures NeverRepeats(rows, limit) <==> NoTieAcross(s, limit)
    ensures NeverMisses(rows, limit) <==> NoTieAcross(s, limit)
  {
    if NoTieAcross(s, limit) {
      forall answers | Reading(rows, answers, limit)
        ensures Distinct(ReadPages(answers, limit, 0)) && forall t :: t in rows ==> t in ReadPages(answers, limit, 0)
      {
        ReadsDistinct(rows, s, answers, limit);
        ReadsAll(rows, answers, limit);
      }
    } else {
      var k: nat :| Tied(s, Cut(k, limit));
      TieUnstable(rows, s, k, limit);
    }
  }

  lemma TieUnstable(rows: set<Ticket>, s: seq<Ticket>, k: nat, limit: nat)
    requires Ordering(rows, s) && Tied(s, Cut(k, limit))
    ensures !NeverRepeats(rows, limit) && !NeverMisses(rows, limit)
  {
    SwappedReading(rows, s, k, limit);
    TieCosts(rows, s, k, limit);
    var c := Cut(k, limit);
    var answers := OneSwapped(s, k, c);
    var read := ReadPages(answers, limit, 0);
    assert Reading(rows, answers, limit) && read[c - 1] == read[c];
    assert s[c] in s && s[c] in rows && s[c] !in read;
  }

  /** Pages of every size are stable iff no two matching tickets have the same creation time. */
  lemma DistinctTimesIff(rows: set<Ticket>, s: seq<Ticket>)
    requires Ordering(rows, s)
    ensures DistinctTimes(rows) <==> forall limit :: NoTieAcross(s, limit)
  {
    if DistinctTimes(rows) {
      forall limit: nat, k: nat
        ensures !Tied(s, Cut(k, limit))
      {
        var c := Cut(k, limit);
        if 0 < c < |s| {
          assert s[c - 1] in s && s[c] in s;
        }
      }
    } else {
      var t, u :| t in rows && u in rows && t != u && t.createdAt == u.createdAt;
      assert t in s && u in s;
      var i :| 0 <= i < |s| && s[i] == t;
      var j :| 0 <= j < |s| && s[j] == u;
      TieBetween(rows, s, if i < j then i else j, if i < j then j else i);
    }
  }

  lemma TieBetween(rows: set<Ticket>, s: seq<Ticket>, i: nat, j: nat)
    requires Ordering(rows, s) && i < j < |s| && s[i].createdAt == s[j].createdAt
    ensures !NoTieAcross(s, 1)
  {
    assert s[i].createdAt >= s[i + 1].createdAt >= s[j].createdAt;
    assert Tied(s, Cut(i + 1, 1));
  }

  /** With distinct creation times the pages of separate queries concatenate to the one ordered answer. */
  lemma PagesAreTheAnswer(rows: set<Ticket>, asked: nat, s: seq<Ticket>, answers: seq<seq<Ticket>>)
    requires DistinctTimes(rows) && 1 <= asked <= 200 && Ordering(rows, s) && Reading(rows, answers, asked)
    ensures ReadPages(answers, EffectiveLimit(asked, 200), 0) == s && |s| == |rows|
  {
    OrderingSize(rows, s);
    ReadingSize(rows, answers, asked);
    forall p | 0 <= p < |s|
      ensures ReadPages(answers, asked, 0)[p] == s[p]
    {
      ReadingAt(rows, answers, asked, p);
      OrderingUnique(rows, s, answers[PageNo(p, asked)]);
    }
  }

  // ---------- what an answer means ----------

  /** The number bound to a placeholder. */
  predicate Binds(q: Query, at: nat, n: nat) {
    1 <= at <= |q.args| && q.args[at - 1] == Number(n)
  }

  ghost predicate PageOf(rows: set<Ticket>, limit: nat, offset: nat, page: seq<Ticket>) {
    exists s :: Ordering(rows, s) && page == Page(s, limit, offset)
  }

  /** What the database may answer: the count, and a page of the selected rows in some order the query allows. */
  ghost predicate Answers(rows: set<Ticket>, q: Query, countArgs: seq<Argument>, page: seq<Ticket>, total: nat) {
    && total == |set t | t in rows && SatisfiesAll(t, q.conditions, countArgs)|
    && exists limit: nat, offset: nat :: Binds(q, q.limitAt, limit)
         && (if q.offsetAt == 0 then offset == 0 else Binds(q, q.offsetAt, offset))
         && PageOf((set t | t in rows && SatisfiesAll(t, q.conditions, q.args)), limit, offset, page)
  }

  /** LIMIT and OFFSET are bound to the arguments after those of the conditions. */
  lemma BoundsBound(q: Query, countArgs: seq<Argument>, keeps: Ticket -> bool, bounds: seq<Argument>)
    requires Built(q, countArgs, keeps, bounds) && |bounds| == if q.offsetAt == 0 then 1 else 2
    ensures 1 <= q.limitAt <= |q.args| && q.args[q.limitAt - 1] == bounds[0]
    ensures q.offsetAt != 0 ==> q.offsetAt <= |q.args| && q.args[q.offsetAt - 1] == bounds[1]
  {
    var n := |countArgs|;
    var all := Placeholders(q.conditions) + [q.limitAt] + (if q.offsetAt == 0 then [] else [q.offsetAt]);
    assert |Placeholders(q.conditions)| == n && all[n] == q.limitAt && UpTo(|q.args|)[n] == n + 1;
    if q.offsetAt != 0 {
      assert all[n + 1] == q.offsetAt && UpTo(|q.args|)[n + 1] == n + 2;
    }
  }

  /** Any answer to a built query is a page of the rows it keeps, newest first, with their number. */
  lemma AnswersMeanKept(rows: set<Ticket>, q: Query, countArgs: seq<Argument>, keeps: Ticket -> bool, bounds: seq<Argument>,
                        limit: nat, offset: nat, page: seq<Ticket>, total: nat)
    requires Built(q, countArgs, keeps, bounds) && Answers(rows, q, countArgs, page, total)
    requires bounds == if q.offsetAt == 0 then [Number(limit)] else [Number(limit), Number(offset)]
    requires q.offsetAt == 0 ==> offset == 0
    ensures PageOf((set t | t in rows && keeps(t)), limit, offset, page)
    ensures total == |set t | t in rows && keeps(t)|
  {
    BoundsBound(q, countArgs, keeps, bounds);
    MoreArguments(q.conditions, countArgs, bounds);
    var kept := set t | t in rows && keeps(t);
    assert kept == (set t | t in rows && SatisfiesAll(t, q.conditions, q.args));
    assert kept == (set t | t in rows && SatisfiesAll(t, q.conditions, countArgs));
    var l: nat, o: nat :| Binds(q, q.limitAt, l) && (if q.offsetAt == 0 then o == 0 else Binds(q, q.offsetAt, o)) && PageOf(kept, l, o, page);
    assert Binds(q, q.limitAt, l) && (q.offsetAt != 0 ==> Binds(q, q.offsetAt, o));
    assert l == limit && o == offset;
  }

  lemma AnswersMeanFilter(rows: set<Ticket>, f: Filter, q: Query, countArgs: seq<Argument>, page: seq<Ticket>, total: nat)
    requires q.offsetAt != 0 && Answers(rows, q, countArgs, page, total)
    requires Built(q, countArgs, FilterKeeps(f), [Number(EffectiveLimit(f.limit, 200)), Number(Max(0, f.offset))])
    ensures var matching := set t | t in rows
              && (f.email == "" || t.email == f.email) && (f.team == "" || t.team == f.team)
              && (f.status == "" || StatusText(t.status) == f.status) && (f.workflowID == "" || t.workflowID == f.workflowID);
            PageOf(matching, EffectiveLimit(f.limit, 200), Max(0, f.offset), page) && total == |matching|
  {
    AnswersMeanKept(rows, q, countArgs, FilterKeeps(f), [Number(EffectiveLimit(f.limit, 200)), Number(Max(0, f.offset))],
                    EffectiveLimit(f.limit, 200), Max(0, f.offset), page, total);
    assert (set t | t in rows
              && (f.email == "" || t.email == f.email) && (f.team == "" || t.team == f.team)
              && (f.status == "" || StatusText(t.status) == f.status) && (f.workflowID == "" || t.workflowID == f.workflowID)) ==
           (set t | t in rows && FilterKeeps(f)(t));
  }

  lemma AnswersMeanEmail(rows: set<Ticket>, email: string, status: string, limit: int, q: Query, countArgs: seq<Argument>,
                         page: seq<Ticket>, total: nat)
    requires q.offsetAt == 0 && Answers(rows, q, countArgs, page, total)
    requires Built(q, countArgs, EmailKeeps(email, status), [Number(EffectiveLimit(limit, 100))])
    ensures var own := set t | t in rows && t.email == email && (status == "" || StatusText(t.status) == status);
            PageOf(own, EffectiveLimit(limit, 100), 0, page) && total == |own|
  {
    AnswersMeanKept(rows, q, countArgs, EmailKeeps(email, status), [Number(EffectiveLimit(limit, 100))],
                    EffectiveLimit(limit, 100), 0, page, total);
    assert (set t | t in rows && t.email == email && (status == "" || StatusText(t.status) == status)) ==
           (set t | t in rows && EmailKeeps(email, status)(t));
  }

  // ---------- paging parameters ----------

  function Atoi(s: string): Option<int> {
    var digits := if s != "" && (s[0] == '+' || s[0] == '-') then s[1..] else s;
    var (n, rest) := ReadDigits(digits, 0);
    if digits == "" || rest != "" then None
    else
      var m: int := n;
      var v := if s[0] == '-' then -m else m;
      if MIN_INT64 <= v <= MAX_INT64 then Some(v) else None
  }

  function ParseIntParam(s: string, default: int): int {
    if s == "" then default
    else
      match Atoi(s)
      case None => default
      case Some(v) => if v < 0 then default else v
  }

  lemma {:induction false} DecimalDigits(n: nat)
    ensures Decimal(n) != "" && IsDigit(Decimal(n)[0])
  {
    if n >= 10 {
      DecimalDigits(n / 10);
    }
  }

  /** A number a client writes is the number used, up to MaxInt64; beyond that the default is. */
  lemma ParamReads(n: nat, default: nat)
    ensures ParseIntParam(Decimal(n), default) == if n <= 9_223_372_036_854_775_807 then n else default
  {
    DecimalDigits(n);
    DecimalReads(n, "");
    assert Decimal(n) + "" == Decimal(n);
  }

  /** Anything else than a number, and a negative one, is read as the default. */
  lemma ParamDefaults(s: string, n: nat, default: int)
    ensures ParseIntParam("", default) == default
    ensures n > 0 ==> ParseIntParam("-" + Decimal(n), default) == default
    ensures s != "" && s[0] != '+' && s[0] != '-' && ReadDigits(s, 0).1 != "" ==> ParseIntParam(s, default) == default
  {
    DecimalReads(n, "");
    assert ("-" + Decimal(n))[1..] == Decimal(n) && Decimal(n) + "" == Decimal(n);
  }

  /** Whatever the limit parameter says, a query asks for 1 to `most` tickets, and for what it says iff that is in range. */
  lemma LimitsInRange(text: string, most: nat)
    requires 50 <= most <= MAX_INT64
    ensures 1 <= EffectiveLimit(ParseIntParam(text, 50), most) <= most
    ensures forall n: nat :: EffectiveLimit(ParseIntParam(Decimal(n), 50), most) == n <==> 1 <= n <= most
    ensures forall limit :: limit <= 0 || limit > most ==> EffectiveLimit(limit, most) == 50
  {
    forall n: nat
      ensures EffectiveLimit(ParseIntParam(Decimal(n), 50), most) == n <==> 1 <= n <= most
    {
      ParamReads(n, 50);
    }
  }
}
