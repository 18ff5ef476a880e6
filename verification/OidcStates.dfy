/**
 The table of pending OIDC `state` values (knox-proxy/auth/oidc.go): RFC 6749, section 10.12.
 A callback takes its entry out under the lock and looks at the clock afterwards; a sweeper
 holds the lock for a whole pass.
 */
module OidcStates {
  import opened Options

  const LIFETIME: int := 600_000_000_000

  datatype Entry = Entry(redirect: string, expiresAt: Instant)

  function Issue(states: map<string, Entry>, state: string, redirect: string, now: Instant): map<string, Entry> {
    states[state := Entry(redirect, now + LIFETIME)]
  }

  function Unexpired(states: map<string, Entry>, now: Instant): map<string, Entry> {
    map k | k in states && !(now > states[k].expiresAt) :: states[k]
  }

  /** The check that follows the lookup; a login without a redirect goes to the home page. */
  function Verdict(entry: Option<Entry>, now: Instant): Option<string> {
    if entry == None || now > entry.value.expiresAt then None
    else Some(if entry.value.redirect != "" then entry.value.redirect else "/")
  }

  class StateTable {
    var states: map<string, Entry>

    constructor ()
      ensures states == map[]
    {
      states := map[];
    }

    method Login(state: string, redirect: string, now: Instant)
      modifies this
      ensures states == Issue(old(states), state, redirect, now)
    {
      states := states[state := Entry(redirect, now + LIFETIME)];
    }

    /** The locked part of CallbackHandler. */
    method Take(state: string) returns (entry: Option<Entry>)
      modifies this
      ensures entry == Lookup(old(states), state) && states == old(states) - {state}
    {
      entry := None;
      if state in states {
        entry := Some(states[state]);
        states := states - {state};
      }
    }

    method Callback(state: string, now: Instant) returns (redirectTo: Option<string>)
      modifies this
      ensures redirectTo == Verdict(Lookup(old(states), state), now) && states == old(states) - {state}
    {
      var entry := Take(state);
      if entry.None? || now > entry.value.expiresAt {
        return None;
      }
      redirectTo := Some("/");
      if entry.value.redirect != "" {
        redirectTo := Some(entry.value.redirect);
      }
    }

    /** One pass of the sweeper, in whatever order the range takes. */
    method CleanStates(now: Instant)
      modifies this
      ensures states == Unexpired(old(states), now)
    {
      var rest := states.Keys;
      while rest != {}
        invariant rest <= states.Keys
        invariant forall k :: k in states ==> k in old(states) && states[k] == old(states)[k]
        invariant forall k :: k in old(states) ==> (k in states <==> k in rest || !(now > old(states)[k].expiresAt))
        decreases rest
      {
        var key :| key in rest;
        if now > states[key].expiresAt {
          states := states - {key};
        }
        rest := rest - {key};
      }
    }
  }

  /** A pass keeps an entry as it is while its ten minutes last, and no other. */
  lemma SweepIsExact(states: map<string, Entry>, state: string, redirect: string, issuedAt: Instant, now: Instant)
    ensures var swept := Unexpired(Issue(states, state, redirect, issuedAt), now);
            && (state in swept <==> now <= issuedAt + 10 * 60 * 1_000_000_000)
            && (state in swept ==> Verdict(Some(swept[state]), now) == Some(if redirect != "" then redirect else "/"))
            && (forall k :: k in swept && k != state ==> k in states && swept[k] == states[k])
            && (forall k :: k in states && k != state ==> (k in swept <==> now <= states[k].expiresAt))
  {
  }

  /** A login, then a callback for it, alone: accepted once, within ten minutes, with the login's redirect. */
  lemma LoginThenCallback(states: map<string, Entry>, state: string, redirect: string, issuedAt: Instant, now: Instant)
    ensures var issued := Issue(states, state, redirect, issuedAt);
            && Verdict(Lookup(issued, state), now) ==
               (if now <= issuedAt + 10 * 60 * 1_000_000_000 then Some(if redirect != "" then redirect else "/") else None)
            && Verdict(Lookup(issued - {state}, state), now) == None
            && issued - {state} == states - {state}
  {
  }

  // ---------- interleaved logins, callbacks and sweeps ----------

  /** A callback between its lock section and its clock reading. */
  datatype Flight = Flight(state: string, entry: Option<Entry>, done: bool)

  datatype Answer = Answer(state: string, redirectTo: Option<string>, at: Instant)

  datatype Issuance = Issuance(redirect: string, at: Instant)

  /** `issued` and `answers` only observe. */
  datatype World = World(
    states: map<string, Entry>, flights: seq<Flight>, now: Instant,
    issued: map<string, Issuance>, answers: seq<Answer>)

  datatype Action =
    | Login(state: string, redirect: string)
    | Take(state: string)
    | Check(flight: nat)
    | Sweep
    | Tick(d: nat)

  const START: World := World(map[], [], 1, map[], [])

  /** States are random and do not repeat. */
  predicate Enabled(w: World, a: Action) {
    match a
    case Login(state, _) => state !in w.issued
    case Check(i) => i < |w.flights| && !w.flights[i].done
    case _ => true
  }

  function Step(w: World, a: Action): World
    requires Enabled(w, a)
  {
    match a
    case Login(state, redirect) =>
      w.(states := Issue(w.states, state, redirect, w.now), issued := w.issued[state := Issuance(redirect, w.now)])
    case Take(state) =>
      w.(states := w.states - {state}, flights := w.flights + [Flight(state, Lookup(w.states, state), false)])
    case Check(i) =>
      var f := w.flights[i];
      w.(flights := w.flights[i := f.(done := true)],
         answers := w.answers + [Answer(f.state, Verdict(f.entry, w.now), w.now)])
    case Sweep => w.(states := Unexpired(w.states, w.now))
    case Tick(d) => w.(now := w.now + d)
  }

  predicate ValidRun(w: World, acts: seq<Action>)
    decreases acts
  {
    acts == [] || (Enabled(w, acts[0]) && ValidRun(Step(w, acts[0]), acts[1..]))
  }

  function Run(w: World, acts: seq<Action>): World
    requires ValidRun(w, acts)
    decreases acts
  {
    if acts == [] then w else Run(Step(w, acts[0]), acts[1..])
  }

  /** A callback that nothing interrupts takes the entry and answers as the object does; a pass of the sweeper likewise. */
  lemma StepsAlone(w: World, state: string, d: nat)
    ensures var w1 := Step(w, Take(state));
            && w1.states == w.states - {state} && |w1.flights| == |w.flights| + 1 && Enabled(w1, Check(|w.flights|))
            && Step(w1, Check(|w.flights|)).answers == w.answers + [Answer(state, Verdict(Lookup(w.states, state), w.now), w.now)]
    ensures forall k :: k in Step(w, Sweep).states <==> k in w.states && w.now <= w.states[k].expiresAt
    ensures forall k :: k in Step(w, Sweep).states ==> Step(w, Sweep).states[k] == w.states[k]
    ensures Step(w, Tick(d)) == w.(now := w.now + d)
  {
  }

  // ---------- one use per issued state ----------

  /** A callback has this state's entry in hand. */
  predicate Holds(f: Flight, state: string) {
    !f.done && f.entry.Some? && f.state == state
  }

  predicate Accepts(a: Answer, state: string) {
    a.redirectTo.Some? && a.state == state
  }

  predicate FromIssue(e: Entry, state: string, issued: map<string, Issuance>) {
    state in issued && e == Entry(issued[state].redirect, issued[state].at + LIFETIME)
  }

  predicate AnswerFits(a: Answer, issued: map<string, Issuance>) {
    a.redirectTo.Some? ==>
      && a.state in issued
      && a.at <= issued[a.state].at + LIFETIME
      && a.redirectTo.value == if issued[a.state].redirect != "" then issued[a.state].redirect else "/"
  }

  /** An entry is in the table, or in one callback's hands, or spent; never in two of these. */
  ghost predicate Inv(w: World) {
    && (forall k :: k in w.states ==> FromIssue(w.states[k], k, w.issued))
    && (forall i :: 0 <= i < |w.flights| && w.flights[i].entry.Some? ==>
          FromIssue(w.flights[i].entry.value, w.flights[i].state, w.issued))
    && (forall i :: 0 <= i < |w.answers| ==> AnswerFits(w.answers[i], w.issued))
    && (forall k, i :: k in w.states && 0 <= i < |w.flights| ==> !Holds(w.flights[i], k))
    && (forall k, i :: k in w.states && 0 <= i < |w.answers| ==> !Accepts(w.answers[i], k))
    && (forall i, j :: 0 <= i < |w.flights| && 0 <= j < |w.answers| ==>
          !(Holds(w.flights[i], w.flights[i].state) && Accepts(w.answers[j], w.flights[i].state)))
    && (forall i, j :: 0 <= i < j < |w.flights| ==>
          !(Holds(w.flights[i], w.flights[i].state) && Holds(w.flights[j], w.flights[i].state)))
    && (forall i, j :: 0 <= i < j < |w.answers| ==>
          !(Accepts(w.answers[i], w.answers[i].state) && Accepts(w.answers[j], w.answers[i].state)))
  }

  lemma StepKeepsInv(w: World, a: Action)
    requires Inv(w) && Enabled(w, a)
    ensures Inv(Step(w, a))
  {
    if a.Check? {
      CheckKeepsInv(w, a.flight);
    } else if a.Take? {
      TakeKeepsInv(w, a.state);
    }
  }

  lemma CheckKeepsInv(w: World, i: nat)
    requires Inv(w) && Enabled(w, Check(i))
    ensures Inv(Step(w, Check(i)))
  {
    var f := w.flights[i];
    assert f.entry.Some? ==> FromIssue(f.entry.value, f.state, w.issued) && Holds(f, f.state);
  }

  lemma TakeKeepsInv(w: World, state: string)
    requires Inv(w)
    ensures Inv(Step(w, Take(state)))
  {
    assert state in w.states ==> FromIssue(w.states[state], state, w.issued);
  }

  lemma {:induction false} RunKeepsInv(w: World, acts: seq<Action>)
    requires Inv(w) && ValidRun(w, acts)
    ensures Inv(Run(w, acts))
    decreases acts
  {
    if acts != [] {
      StepKeepsInv(w, acts[0]);
      RunKeepsInv(Step(w, acts[0]), acts[1..]);
    }
  }

  /**
   In every interleaving an accepted callback used an issued state, at most ten minutes after
   its issue, with the redirect stored then, and no other callback is ever accepted for it.
   */
  lemma StatesAreOneShot(acts: seq<Action>, i: nat)
    requires ValidRun(START, acts) && i < |Run(START, acts).answers|
    requires Run(START, acts).answers[i].redirectTo.Some?
    ensures var w := Run(START, acts);
            var a := w.answers[i];
            && a.state in w.issued && a.at <= w.issued[a.state].at + LIFETIME
            && a.redirectTo.value == (if w.issued[a.state].redirect != "" then w.issued[a.state].redirect else "/")
            && forall j :: 0 <= j < |w.answers| && j != i && w.answers[j].state == a.state ==> w.answers[j].redirectTo == None
  {
    RunKeepsInv(START, acts);
    var w := Run(START, acts);
    forall j | 0 <= j < |w.answers| && j != i && w.answers[j].state == w.answers[i].state
      ensures w.answers[j].redirectTo == None
    {
      assert Accepts(w.answers[i], w.answers[i].state);
      assert w.answers[j].redirectTo.Some? ==> Accepts(w.answers[j], w.answers[i].state);
    }
  }

  /** A state no callback has asked for yet is in the table until it expires. */
  ghost predicate Kept(w: World) {
    forall k :: k in w.issued ==>
      || k in w.states
      || w.now > w.issued[k].at + LIFETIME
      || exists i :: 0 <= i < |w.flights| && w.flights[i].state == k
  }

  lemma StepKeeps(w: World, a: Action)
    requires Inv(w) && Kept(w) && Enabled(w, a)
    ensures Kept(Step(w, a))
  {
    var w' := Step(w, a);
    forall k | k in w'.issued && k !in w'.states && w'.now <= w'.issued[k].at + LIFETIME
      ensures exists i :: 0 <= i < |w'.flights| && w'.flights[i].state == k
    {
      assert k in w.issued;
      if k in w.states {
        assert FromIssue(w.states[k], k, w.issued);
        assert a == Take(k) && w'.flights[|w.flights|].state == k;
      } else {
        var i :| 0 <= i < |w.flights| && w.flights[i].state == k;
        assert w'.flights[i].state == k;
      }
    }
  }

  lemma {:induction false} RunKeeps(w: World, acts: seq<Action>)
    requires Inv(w) && Kept(w) && ValidRun(w, acts)
    ensures Kept(Run(w, acts))
    decreases acts
  {
    if acts != [] {
      StepKeeps(w, acts[0]);
      StepKeepsInv(w, acts[0]);
      RunKeeps(Step(w, acts[0]), acts[1..]);
    }
  }

  /** The first callback for an issued state, made and answered within ten minutes, is accepted. */
  lemma FirstUseAccepted(acts: seq<Action>, state: string, d: nat)
    requires ValidRun(START, acts) && state in Run(START, acts).issued
    requires forall i :: 0 <= i < |Run(START, acts).flights| ==> Run(START, acts).flights[i].state != state
    requires Run(START, acts).now + d <= Run(START, acts).issued[state].at + LIFETIME
    ensures var w := Run(START, acts);
            Verdict(Lookup(w.states, state), w.now + d) ==
            Some(if w.issued[state].redirect != "" then w.issued[state].redirect else "/")
  {
    RunKeepsInv(START, acts);
    RunKeeps(START, acts);
    var w := Run(START, acts);
    assert state in w.states && FromIssue(w.states[state], state, w.issued);
  }

  // ---------- the sweeper cannot be seen ----------

  function WithoutSweeps(acts: seq<Action>): seq<Action> {
    if acts == [] then [] else (if acts[0].Sweep? then [] else [acts[0]]) + WithoutSweeps(acts[1..])
  }

  predicate SameFlight(f: Flight, g: Flight, now: Instant) {
    && f.state == g.state && f.done == g.done
    && (f.entry == g.entry || (g.entry.None? && f.entry.Some? && now > f.entry.value.expiresAt))
  }

  /** `v` is `w` but for entries that have expired, in the table or in hand. */
  ghost predicate Swept(w: World, v: World) {
    && w.now == v.now && w.issued == v.issued && w.answers == v.answers && |w.flights| == |v.flights|
    && (forall k :: k in v.states ==> k in w.states && w.states[k] == v.states[k])
    && (forall k :: k in w.states && k !in v.states ==> w.now > w.states[k].expiresAt)
    && (forall i :: 0 <= i < |w.flights| ==> SameFlight(w.flights[i], v.flights[i], w.now))
  }

  lemma SweptStep(w: World, v: World, a: Action)
    requires Swept(w, v) && Enabled(v, a) && !a.Sweep?
    ensures Enabled(w, a) && Swept(Step(w, a), Step(v, a))
  {
    if a.Check? {
      assert SameFlight(w.flights[a.flight], v.flights[a.flight], w.now);
    }
  }

  lemma {:induction false} SweptRun(w: World, v: World, acts: seq<Action>)
    requires Swept(w, v) && ValidRun(v, acts)
    ensures ValidRun(w, WithoutSweeps(acts)) && Swept(Run(w, WithoutSweeps(acts)), Run(v, acts))
    decreases acts
  {
    if acts != [] {
      var rest := WithoutSweeps(acts[1..]);
      if acts[0].Sweep? {
        assert WithoutSweeps(acts) == rest;
        SweptRun(w, Step(v, acts[0]), acts[1..]);
      } else {
        assert WithoutSweeps(acts)[0] == acts[0] && WithoutSweeps(acts)[1..] == rest;
        SweptStep(w, v, acts[0]);
        SweptRun(Step(w, acts[0]), Step(v, acts[0]), acts[1..]);
      }
    }
  }

  /** Leaving every sweep out of a run leaves every callback's answer as it was. */
  lemma SweepsInvisible(acts: seq<Action>)
    requires ValidRun(START, acts)
    ensures ValidRun(START, WithoutSweeps(acts))
    ensures Run(START, WithoutSweeps(acts)).answers == Run(START, acts).answers
  {
    SweptRun(START, START, acts);
  }
}
