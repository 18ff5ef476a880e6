/**
 The cache of n8n cookies, one per team account (knox-proxy/cookie/pool.go). GetCookie takes
 the lock to look and again to store, and logs in with no lock held.
 */
module CookiePool {
  import opened Options

  datatype Cached = Cached(value: string, expiresAt: Instant)

  type Cookies = map<string, Cached>

  predicate Fresh(entry: Option<Cached>, now: Instant) {
    entry.Some? && now < entry.value.expiresAt
  }

  /** GetCookie run alone: `login` is what n8n would answer, `now` and `later` the two clock readings. */
  function Get(cookies: Cookies, email: string, login: Option<string>, ttl: int, now: Instant, later: Instant)
    : (Cookies, Option<string>)
  {
    if Fresh(Lookup(cookies, email), now) then (cookies, Some(cookies[email].value))
    else if login.None? then (cookies, None)
    else (cookies[email := Cached(login.value, later + ttl)], login)
  }

  class Pool {
    var cookies: Cookies
    const ttl: int

    constructor (ttl: int)
      ensures cookies == map[] && this.ttl == ttl
    {
      cookies, this.ttl := map[], ttl;
    }

    method GetCookie(email: string, login: Option<string>, now: Instant, later: Instant) returns (cookie: Option<string>)
      modifies this
      ensures (cookies, cookie) == Get(old(cookies), email, login, ttl, now, later)
    {
      if email in cookies && now < cookies[email].expiresAt {
        return Some(cookies[email].value);
      }
      if login.None? {
        return None;
      }
      cookies := cookies[email := Cached(login.value, later + ttl)];
      cookie := login;
    }

    method Invalidate(email: string)
      modifies this
      ensures cookies == old(cookies) - {email}
    {
      cookies := cookies - {email};
    }

    method InvalidateAll()
      modifies this
      ensures cookies == map[]
    {
      cookies := map[];
    }
  }

  /**
   A login stored at `later` is the answer for its email at every time before `later + ttl`, and
   no further login is made for it; from then on a new one is. Other emails' entries stay.
   */
  lemma LoginIsCached(cookies: Cookies, email: string, value: string, ttl: int, now: Instant, later: Instant)
    requires email in cookies ==> cookies[email].expiresAt <= now
    ensures var (stored, answer) := Get(cookies, email, Some(value), ttl, now, later);
            && answer == Some(value) && stored - {email} == cookies - {email}
            && (forall t, login, t' :: t < later + ttl ==> Get(stored, email, login, ttl, t, t') == (stored, Some(value)))
            && (forall t, login, t' :: t >= later + ttl ==> Get(stored, email, login, ttl, t, t').1 == login)
  {
  }

  /** A fresh entry is the answer, and nothing changes; without one, a failed login fails the call and changes nothing. */
  lemma FreshIsReturned(cookies: Cookies, email: string, login: Option<string>, ttl: int, now: Instant, later: Instant)
    ensures email in cookies && now < cookies[email].expiresAt ==>
            Get(cookies, email, login, ttl, now, later) == (cookies, Some(cookies[email].value))
    ensures !(email in cookies && now < cookies[email].expiresAt) && login == None ==>
            Get(cookies, email, login, ttl, now, later) == (cookies, None)
  {
  }

  /** Run alone after an invalidation, GetCookie is a fresh login. */
  lemma FetchAfterInvalidate(cookies: Cookies, email: string, login: Option<string>, ttl: int, now: Instant, later: Instant)
    ensures Get(cookies - {email}, email, login, ttl, now, later).1 == login
  {
  }

  // ---------- interleaved ----------

  /** A GetCookie call: before its look, between look and clock, logging in, about to store, about to return. */
  datatype Task =
    | Look(email: string)
    | Judge(email: string, entry: Option<Cached>)
    | LogIn(email: string)
    | Keep(email: string, value: string)
    | Give(email: string, value: string)
    | Done

  /** What happened, in order. */
  datatype Event =
    | LoggedIn(email: string, value: string)
    | Stored(email: string, value: string, at: Instant)
    | Dropped(email: string)
    | DroppedAll
    | Returned(email: string, value: string, hit: bool, at: Instant)

  datatype World = World(cookies: Cookies, tasks: seq<Task>, now: Instant, log: seq<Event>)

  datatype Action =
    | Call(email: string)
    | Advance(task: nat, login: Option<string>)
    | Invalidate(email: string)
    | InvalidateAll
    | Tick(d: nat)

  const START: World := World(map[], [], 1, [])

  predicate Enabled(w: World, a: Action) {
    a.Advance? ==> a.task < |w.tasks|
  }

  function Execute(w: World, task: Task, login: Option<string>, ttl: int): (World, Task) {
    match task
    case Look(email) => (w, Judge(email, Lookup(w.cookies, email)))
    case Judge(email, entry) =>
      if Fresh(entry, w.now)
      then (w.(log := w.log + [Returned(email, entry.value.value, true, w.now)]), Done)
      else (w, LogIn(email))
    case LogIn(email) =>
      if login.None? then (w, Done)
      else (w.(log := w.log + [LoggedIn(email, login.value)]), Keep(email, login.value))
    case Keep(email, value) =>
      (w.(cookies := w.cookies[email := Cached(value, w.now + ttl)],
          log := w.log + [Stored(email, value, w.now)]), Give(email, value))
    case Give(email, value) => (w.(log := w.log + [Returned(email, value, false, w.now)]), Done)
    case Done => (w, Done)
  }

  function Step(w: World, a: Action, ttl: int): World
    requires Enabled(w, a)
  {
    match a
    case Call(email) => w.(tasks := w.tasks + [Look(email)])
    case Advance(i, login) =>
      var (w', next) := Execute(w, w.tasks[i], login, ttl);
      w'.(tasks := w.tasks[i := next])
    case Invalidate(email) => w.(cookies := w.cookies - {email}, log := w.log + [Dropped(email)])
    case InvalidateAll => w.(cookies := map[], log := w.log + [DroppedAll])
    case Tick(d) => w.(now := w.now + d)
  }

  predicate ValidRun(w: World, acts: seq<Action>, ttl: int)
    decreases acts
  {
    acts == [] || (Enabled(w, acts[0]) && ValidRun(Step(w, acts[0], ttl), acts[1..], ttl))
  }

  function Run(w: World, acts: seq<Action>, ttl: int): World
    requires ValidRun(w, acts, ttl)
    decreases acts
  {
    if acts == [] then w else Run(Step(w, acts[0], ttl), acts[1..], ttl)
  }

  // ---------- one call, uninterrupted ----------

  function Left(task: Task): nat {
    match task
    case Look(_) => 5
    case Judge(_, _) => 4
    case LogIn(_) => 3
    case Keep(_, _) => 2
    case Give(_, _) => 1
    case Done => 0
  }

  /** Runs a call to its end; `login` is n8n's answer should it be asked. */
  function Finish(w: World, task: Task, login: Option<string>, ttl: int): World
    decreases Left(task)
  {
    if task.Done? then w
    else
      var (w', next) := Execute(w, task, login, ttl);
      Finish(w', next, login, ttl)
  }

  lemma {:induction false} FinishIgnoresTasks(w: World, task: Task, login: Option<string>, ttl: int, tasks: seq<Task>)
    ensures Finish(w.(tasks := tasks), task, login, ttl) == Finish(w, task, login, ttl).(tasks := tasks)
    decreases Left(task)
  {
    if !task.Done? {
      var (w', next) := Execute(w, task, login, ttl);
      FinishIgnoresTasks(w', next, login, ttl, tasks);
    }
  }

  lemma {:induction false} FinishIsRun(w: World, i: nat, login: Option<string>, ttl: int) returns (acts: seq<Action>)
    requires i < |w.tasks|
    ensures ValidRun(w, acts, ttl) && Run(w, acts, ttl) == Finish(w, w.tasks[i], login, ttl).(tasks := w.tasks[i := Done])
    ensures forall k :: 0 <= k < |acts| ==> acts[k] == Advance(i, login)
    decreases Left(w.tasks[i])
  {
    var task := w.tasks[i];
    if task.Done? {
      acts := [];
      assert w.tasks[i := Done] == w.tasks;
    } else {
      var w' := Step(w, Advance(i, login), ttl);
      acts := FinishIsRun(w', i, login, ttl);
      var (v, next) := Execute(w, task, login, ttl);
      FinishIgnoresTasks(v, next, login, ttl, w'.tasks);
      assert w'.tasks[i := Done] == w.tasks[i := Done];
      assert ([Advance(i, login)] + acts)[1..] == acts;
      acts := [Advance(i, login)] + acts;
    }
  }

  predicate Returns(log: seq<Event>, email: string, value: string) {
    log != [] && var e := log[|log| - 1]; e.Returned? && e.email == email && e.value == value
  }

  lemma StoreAlone(w: World, email: string, value: string, login: Option<string>, ttl: int)
    ensures var v := Finish(w, Keep(email, value), login, ttl);
            && v.cookies == w.cookies[email := Cached(value, w.now + ttl)] && Returns(v.log, email, value)
  {
    var w1 := Execute(w, Keep(email, value), login, ttl).0;
    var w2 := Execute(w1, Give(email, value), login, ttl).0;
    assert Finish(w2, Done, login, ttl) == w2;
    assert Finish(w1, Give(email, value), login, ttl) == w2;
  }

  /** A call that nothing interrupts leaves the cache, and returns the cookie, that Get says. */
  lemma CallAlone(w: World, email: string, login: Option<string>, ttl: int)
    ensures Step(w, Call(email), ttl).tasks == w.tasks + [Look(email)]
    ensures var v := Finish(w, Look(email), login, ttl);
            var (cookies, cookie) := Get(w.cookies, email, login, ttl, w.now, w.now);
            && v.cookies == cookies
            && (cookie.Some? ==> Returns(v.log, email, cookie.value))
            && (cookie == None ==> v.log == w.log)
  {
    var entry := Lookup(w.cookies, email);
    assert Finish(w, Look(email), login, ttl) == Finish(w, Judge(email, entry), login, ttl);
    if Fresh(entry, w.now) {
      var w1 := Execute(w, Judge(email, entry), login, ttl).0;
      assert Finish(w1, Done, login, ttl) == w1;
    } else if login == None {
      assert Finish(w, Judge(email, entry), login, ttl) == Finish(w, LogIn(email), login, ttl);
      assert Finish(w, Done, login, ttl) == w;
    } else {
      assert Finish(w, Judge(email, entry), login, ttl) == Finish(w, LogIn(email), login, ttl);
      var w1 := Execute(w, LogIn(email), login, ttl).0;
      StoreAlone(w1, email, login.value, login, ttl);
    }
  }

  /** The other steps are the pool's operations, and time. */
  lemma StepsAlone(w: World, email: string, ttl: int, d: nat)
    ensures Step(w, Invalidate(email), ttl).cookies == w.cookies - {email}
    ensures Step(w, InvalidateAll, ttl).cookies == map[]
    ensures Step(w, Tick(d), ttl) == w.(now := w.now + d)
  {
  }

  // ---------- what every interleaving keeps ----------

  ghost predicate Occurs(log: seq<Event>, n: int, e: Event) {
    exists k :: 0 <= k < n <= |log| && log[k] == e
  }

  /** The cache entry was stored at a time its expiry tells. */
  ghost predicate WasStored(log: seq<Event>, n: int, email: string, c: Cached, ttl: int) {
    Occurs(log, n, Stored(email, c.value, c.expiresAt - ttl))
  }

  /** What must have happened before an event. */
  ghost predicate Grounded(log: seq<Event>, n: int, e: Event, ttl: int) {
    match e
    case Stored(email, value, _) => Occurs(log, n, LoggedIn(email, value))
    case Returned(email, value, hit, at) =>
      && Occurs(log, n, LoggedIn(email, value))
      && (hit ==> exists t :: Occurs(log, n, Stored(email, value, t)) && at < t + ttl)
    case _ => true
  }

  predicate Drops(e: Event, email: string) {
    e == Dropped(email) || e == DroppedAll
  }

  ghost predicate TaskInv(task: Task, log: seq<Event>, ttl: int) {
    match task
    case Judge(email, entry) => entry.Some? ==> WasStored(log, |log|, email, entry.value, ttl)
    case Keep(email, value) => Occurs(log, |log|, LoggedIn(email, value))
    case Give(email, value) => Occurs(log, |log|, LoggedIn(email, value))
    case _ => true
  }

  /** Stored in the log, with no invalidation after it. */
  ghost predicate StillCached(log: seq<Event>, email: string, c: Cached, ttl: int) {
    exists k :: 0 <= k < |log| && log[k] == Stored(email, c.value, c.expiresAt - ttl)
                && forall j :: k < j < |log| ==> !Drops(log[j], email)
  }

  ghost predicate Inv(w: World, ttl: int) {
    && (forall k :: 0 <= k < |w.log| ==> Grounded(w.log, k, w.log[k], ttl))
    && (forall i :: 0 <= i < |w.tasks| ==> TaskInv(w.tasks[i], w.log, ttl))
    && (forall email :: email in w.cookies ==> StillCached(w.log, email, w.cookies[email], ttl))
  }

  lemma OccursGrows(log: seq<Event>, n: nat, x: Event, e: Event, m: nat)
    requires Occurs(log, n, x) && n <= m <= |log| + 1
    ensures Occurs(log + [e], m, x)
  {
    var k :| 0 <= k < n && log[k] == x;
    assert (log + [e])[k] == x;
  }

  lemma GroundedGrows(log: seq<Event>, n: nat, x: Event, e: Event, ttl: int)
    requires Grounded(log, n, x, ttl) && n <= |log|
    ensures Grounded(log + [e], n, x, ttl)
  {
    match x
    case Stored(email, value, _) => OccursGrows(log, n, LoggedIn(email, value), e, n);
    case Returned(email, value, hit, at) =>
      OccursGrows(log, n, LoggedIn(email, value), e, n);
      if hit {
        var t :| Occurs(log, n, Stored(email, value, t)) && at < t + ttl;
        OccursGrows(log, n, Stored(email, value, t), e, n);
      }
    case _ =>
  }

  lemma TaskGrows(log: seq<Event>, task: Task, e: Event, ttl: int)
    requires TaskInv(task, log, ttl)
    ensures TaskInv(task, log + [e], ttl)
  {
    match task
    case Judge(email, entry) =>
      if entry.Some? {
        OccursGrows(log, |log|, Stored(email, entry.value.value, entry.value.expiresAt - ttl), e, |log| + 1);
      }
    case Keep(email, value) => OccursGrows(log, |log|, LoggedIn(email, value), e, |log| + 1);
    case Give(email, value) => OccursGrows(log, |log|, LoggedIn(email, value), e, |log| + 1);
    case _ =>
  }

  lemma StillCachedGrows(log: seq<Event>, email: string, c: Cached, e: Event, ttl: int)
    requires StillCached(log, email, c, ttl) && !Drops(e, email)
    ensures StillCached(log + [e], email, c, ttl)
  {
    var k :| 0 <= k < |log| && log[k] == Stored(email, c.value, c.expiresAt - ttl)
             && forall j :: k < j < |log| ==> !Drops(log[j], email);
    assert (log + [e])[k] == log[k];
  }

  /** An event with its grounds may be logged; the cookies it drops must go. */
  lemma EventKeepsInv(w: World, e: Event, cookies: Cookies, ttl: int)
    requires Inv(w, ttl) && Grounded(w.log, |w.log|, e, ttl)
    requires forall email :: email in cookies ==>
      (email in w.cookies && cookies[email] == w.cookies[email] && !Drops(e, email))
      || e == Stored(email, cookies[email].value, cookies[email].expiresAt - ttl)
    ensures Inv(w.(cookies := cookies, log := w.log + [e]), ttl)
  {
    var log := w.log + [e];
    forall k | 0 <= k < |log|
      ensures Grounded(log, k, log[k], ttl)
    {
      GroundedGrows(w.log, k, log[k], e, ttl);
    }
    forall i | 0 <= i < |w.tasks|
      ensures TaskInv(w.tasks[i], log, ttl)
    {
      TaskGrows(w.log, w.tasks[i], e, ttl);
    }
    forall email | email in cookies
      ensures StillCached(log, email, cookies[email], ttl)
    {
      if email in w.cookies && cookies[email] == w.cookies[email] && !Drops(e, email) {
        StillCachedGrows(w.log, email, cookies[email], e, ttl);
      } else {
        assert log[|w.log|] == e;
      }
    }
  }

  lemma CachedWasLoggedIn(w: World, email: string, c: Cached, ttl: int)
    requires Inv(w, ttl) && WasStored(w.log, |w.log|, email, c, ttl)
    ensures Occurs(w.log, |w.log|, LoggedIn(email, c.value))
  {
    var k :| 0 <= k < |w.log| && w.log[k] == Stored(email, c.value, c.expiresAt - ttl);
    assert Grounded(w.log, k, w.log[k], ttl);
  }

  /** A call's step leaves the invariant, and its next step is in order. */
  ghost predicate Carries(w: World, task: Task, login: Option<string>, ttl: int) {
    var (w', next) := Execute(w, task, login, ttl);
    Inv(w', ttl) && TaskInv(next, w'.log, ttl) && w'.tasks == w.tasks
  }

  lemma JudgeCarries(w: World, task: Task, login: Option<string>, ttl: int)
    requires Inv(w, ttl) && task.Judge? && TaskInv(task, w.log, ttl)
    ensures Carries(w, task, login, ttl)
  {
    if Fresh(task.entry, w.now) {
      var c := task.entry.value;
      CachedWasLoggedIn(w, task.email, c, ttl);
      EventKeepsInv(w, Returned(task.email, c.value, true, w.now), w.cookies, ttl);
    }
  }

  lemma LogInCarries(w: World, task: Task, login: Option<string>, ttl: int)
    requires Inv(w, ttl) && task.LogIn?
    ensures Carries(w, task, login, ttl)
  {
    if login.Some? {
      var e := LoggedIn(task.email, login.value);
      EventKeepsInv(w, e, w.cookies, ttl);
      assert (w.log + [e])[|w.log|] == e;
    }
  }

  lemma StoreKeepsInv(w: World, email: string, c: Cached, ttl: int)
    requires Inv(w, ttl) && Occurs(w.log, |w.log|, LoggedIn(email, c.value)) && c.expiresAt == w.now + ttl
    ensures var log := w.log + [Stored(email, c.value, w.now)];
            Inv(w.(cookies := w.cookies[email := c], log := log), ttl) && Occurs(log, |log|, LoggedIn(email, c.value))
  {
    var cookies := w.cookies[email := c];
    var e := Stored(email, c.value, w.now);
    forall other | other in cookies
      ensures (other in w.cookies && cookies[other] == w.cookies[other] && !Drops(e, other))
              || e == Stored(other, cookies[other].value, cookies[other].expiresAt - ttl)
    {
      if other == email { assert cookies[other] == c; } else { assert cookies[other] == w.cookies[other]; }
    }
    EventKeepsInv(w, e, cookies, ttl);
    OccursGrows(w.log, |w.log|, LoggedIn(email, c.value), e, |w.log| + 1);
  }

  lemma KeepCarries(w: World, task: Task, login: Option<string>, ttl: int)
    requires Inv(w, ttl) && task.Keep? && TaskInv(task, w.log, ttl)
    ensures Carries(w, task, login, ttl)
  {
    StoreKeepsInv(w, task.email, Cached(task.value, w.now + ttl), ttl);
  }

  lemma GiveCarries(w: World, task: Task, login: Option<string>, ttl: int)
    requires Inv(w, ttl) && task.Give? && TaskInv(task, w.log, ttl)
    ensures Carries(w, task, login, ttl)
  {
    EventKeepsInv(w, Returned(task.email, task.value, false, w.now), w.cookies, ttl);
  }

  lemma ExecuteCarries(w: World, task: Task, login: Option<string>, ttl: int)
    requires Inv(w, ttl) && TaskInv(task, w.log, ttl)
    ensures Carries(w, task, login, ttl)
  {
    match task
    case Look(email) =>
      if email in w.cookies {
        assert StillCached(w.log, email, w.cookies[email], ttl);
      }
    case Judge(_, _) => JudgeCarries(w, task, login, ttl);
    case LogIn(_) => LogInCarries(w, task, login, ttl);
    case Keep(_, _) => KeepCarries(w, task, login, ttl);
    case Give(_, _) => GiveCarries(w, task, login, ttl);
    case Done =>
  }

  lemma StepKeepsInv(w: World, a: Action, ttl: int)
    requires Inv(w, ttl) && Enabled(w, a)
    ensures Inv(Step(w, a, ttl), ttl)
  {
    match a
    case Advance(i, login) => ExecuteCarries(w, w.tasks[i], login, ttl);
    case Invalidate(email) => EventKeepsInv(w, Dropped(email), w.cookies - {email}, ttl);
    case InvalidateAll => EventKeepsInv(w, DroppedAll, map[], ttl);
    case _ =>
  }

  lemma {:induction false} RunKeepsInv(w: World, acts: seq<Action>, ttl: int)
    requires Inv(w, ttl) && ValidRun(w, acts, ttl)
    ensures Inv(Run(w, acts, ttl), ttl)
    decreases acts
  {
    if acts != [] {
      StepKeepsInv(w, acts[0], ttl);
      RunKeepsInv(Step(w, acts[0], ttl), acts[1..], ttl);
    }
  }

  /**
   In every interleaving: a cached cookie came from a login for its email and was stored after
   the last invalidation that covers it.
   */
  lemma CachedCookies(acts: seq<Action>, ttl: int, email: string)
    requires ValidRun(START, acts, ttl) && email in Run(START, acts, ttl).cookies
    ensures var w := Run(START, acts, ttl);
            && StillCached(w.log, email, w.cookies[email], ttl)
            && Occurs(w.log, |w.log|, LoggedIn(email, w.cookies[email].value))
  {
    RunKeepsInv(START, acts, ttl);
    var w := Run(START, acts, ttl);
    assert StillCached(w.log, email, w.cookies[email], ttl);
    CachedWasLoggedIn(w, email, w.cookies[email], ttl);
  }

  /**
   In every interleaving: a returned cookie came from an earlier login for the same email, and
   a cache hit is served strictly before the time it was stored plus the TTL.
   */
  lemma ReturnedCookies(acts: seq<Action>, ttl: int, k: nat)
    requires ValidRun(START, acts, ttl) && k < |Run(START, acts, ttl).log| && Run(START, acts, ttl).log[k].Returned?
    ensures var w := Run(START, acts, ttl);
            var r := w.log[k];
            && Occurs(w.log, k, LoggedIn(r.email, r.value))
            && (r.hit ==> exists t :: Occurs(w.log, k, Stored(r.email, r.value, t)) && r.at < t + ttl)
  {
    RunKeepsInv(START, acts, ttl);
    var w := Run(START, acts, ttl);
    assert Grounded(w.log, k, w.log[k], ttl);
  }

  // ---------- cookies from before an invalidation ----------

  /** A login for the email gave this cookie between positions n and m of the log. */
  ghost predicate Since(log: seq<Event>, n: int, m: int, email: string, value: string) {
    exists k :: 0 <= n <= k < m <= |log| && log[k] == LoggedIn(email, value)
  }

  /** A call that already holds a cookie for the email. */
  predicate Holds(task: Task, email: string, now: Instant) {
    match task
    case Judge(e, entry) => e == email && Fresh(entry, now)
    case Keep(e, _) => e == email
    case Give(e, _) => e == email
    case _ => false
  }

  /** After position n of the log no cookie for the email is returned but from a login after n. */
  ghost predicate OnlyNew(log: seq<Event>, n: nat, email: string) {
    forall k :: n <= k < |log| && log[k].Returned? && log[k].email == email ==> Since(log, n, k, email, log[k].value)
  }

  ghost predicate TaskNew(task: Task, log: seq<Event>, n: int, email: string, now: Instant) {
    Holds(task, email, now) ==>
      Since(log, n, |log|, email, if task.Judge? then task.entry.value.value else task.value)
  }

  ghost predicate NewInv(w: World, n: nat, email: string) {
    && n <= |w.log| && OnlyNew(w.log, n, email)
    && (forall i :: 0 <= i < |w.tasks| ==> TaskNew(w.tasks[i], w.log, n, email, w.now))
    && (email in w.cookies ==> Since(w.log, n, |w.log|, email, w.cookies[email].value))
  }

  lemma SinceGrows(log: seq<Event>, n: int, m: int, email: string, value: string, e: Event, m': int)
    requires Since(log, n, m, email, value) && m <= m' <= |log| + 1
    ensures Since(log + [e], n, m', email, value)
  {
    var k :| 0 <= n <= k < m && log[k] == LoggedIn(email, value);
    assert (log + [e])[k] == log[k];
  }

  lemma EventKeepsNew(w: World, e: Event, cookies: Cookies, n: nat, email: string)
    requires NewInv(w, n, email)
    requires e.Returned? && e.email == email ==> Since(w.log, n, |w.log|, email, e.value)
    requires email in cookies ==> Since(w.log, n, |w.log|, email, cookies[email].value)
    ensures NewInv(w.(cookies := cookies, log := w.log + [e]), n, email)
  {
    var log := w.log + [e];
    forall k | n <= k < |log| && log[k].Returned? && log[k].email == email
      ensures Since(log, n, k, email, log[k].value)
    {
      SinceGrows(w.log, n, k, email, log[k].value, e, k);
    }
    forall i | 0 <= i < |w.tasks| && Holds(w.tasks[i], email, w.now)
      ensures TaskNew(w.tasks[i], log, n, email, w.now)
    {
      var task := w.tasks[i];
      SinceGrows(w.log, n, |w.log|, email, if task.Judge? then task.entry.value.value else task.value, e, |log|);
    }
    if email in cookies {
      SinceGrows(w.log, n, |w.log|, email, cookies[email].value, e, |log|);
    }
  }

  ghost predicate CarriesNew(w: World, task: Task, login: Option<string>, ttl: int, n: nat, email: string) {
    var (w', next) := Execute(w, task, login, ttl);
    NewInv(w', n, email) && TaskNew(next, w'.log, n, email, w'.now) && w'.tasks == w.tasks
  }

  lemma LogInCarriesNew(w: World, task: Task, login: Option<string>, ttl: int, n: nat, email: string)
    requires NewInv(w, n, email) && task.LogIn?
    ensures CarriesNew(w, task, login, ttl, n, email)
  {
    if login.Some? {
      var e := LoggedIn(task.email, login.value);
      EventKeepsNew(w, e, w.cookies, n, email);
      assert (w.log + [e])[|w.log|] == e;
    }
  }

  lemma KeepCarriesNew(w: World, task: Task, login: Option<string>, ttl: int, n: nat, email: string)
    requires NewInv(w, n, email) && task.Keep? && TaskNew(task, w.log, n, email, w.now)
    ensures CarriesNew(w, task, login, ttl, n, email)
  {
    var e := Stored(task.email, task.value, w.now);
    EventKeepsNew(w, e, w.cookies[task.email := Cached(task.value, w.now + ttl)], n, email);
    if task.email == email {
      SinceGrows(w.log, n, |w.log|, email, task.value, e, |w.log| + 1);
    }
  }

  lemma ExecuteCarriesNew(w: World, task: Task, login: Option<string>, ttl: int, n: nat, email: string)
    requires NewInv(w, n, email) && TaskNew(task, w.log, n, email, w.now)
    ensures CarriesNew(w, task, login, ttl, n, email)
  {
    match task
    case Judge(e, entry) =>
      if Fresh(entry, w.now) {
        EventKeepsNew(w, Returned(e, entry.value.value, true, w.now), w.cookies, n, email);
      }
    case LogIn(_) => LogInCarriesNew(w, task, login, ttl, n, email);
    case Keep(_, _) => KeepCarriesNew(w, task, login, ttl, n, email);
    case Give(e, value) => EventKeepsNew(w, Returned(e, value, false, w.now), w.cookies, n, email);
    case _ =>
  }

  lemma StepKeepsNew(w: World, a: Action, ttl: int, n: nat, email: string)
    requires NewInv(w, n, email) && Enabled(w, a)
    ensures NewInv(Step(w, a, ttl), n, email)
  {
    match a
    case Advance(i, login) => ExecuteCarriesNew(w, w.tasks[i], login, ttl, n, email);
    case Invalidate(e) => EventKeepsNew(w, Dropped(e), w.cookies - {e}, n, email);
    case InvalidateAll => EventKeepsNew(w, DroppedAll, map[], n, email);
    case _ =>
  }

  lemma {:induction false} RunKeepsNew(w: World, acts: seq<Action>, ttl: int, n: nat, email: string)
    requires NewInv(w, n, email) && ValidRun(w, acts, ttl)
    ensures OnlyNew(Run(w, acts, ttl).log, n, email)
    decreases acts
  {
    if acts != [] {
      StepKeepsNew(w, acts[0], ttl, n, email);
      RunKeepsNew(Step(w, acts[0], ttl), acts[1..], ttl, n, email);
    }
  }

  /** In every continuation only cookies of later logins are returned for the email. */
  ghost predicate OldGone(w: World, ttl: int, email: string) {
    forall acts :: ValidRun(w, acts, ttl) ==> OnlyNew(Run(w, acts, ttl).log, |w.log|, email)
  }

  lemma GivesOld(w: World, ttl: int, email: string, acts: seq<Action>, k: nat)
    requires ValidRun(w, acts, ttl)
    requires var log := Run(w, acts, ttl).log;
             && |w.log| <= k < |log| && log[k].Returned? && log[k].email == email
             && forall j :: |w.log| <= j < k ==> !log[j].LoggedIn?
    ensures !OldGone(w, ttl, email)
  {
    assert !Since(Run(w, acts, ttl).log, |w.log|, k, email, Run(w, acts, ttl).log[k].value);
  }

  /** A call that holds a cookie returns it, one or two steps on. */
  lemma HoldsGives(w: World, i: nat, ttl: int, email: string)
    requires i < |w.tasks| && Holds(w.tasks[i], email, w.now)
    ensures !OldGone(w, ttl, email)
  {
    var a := Advance(i, None);
    var w1 := Step(w, a, ttl);
    if w.tasks[i].Keep? {
      assert [a, a][1..] == [a] && [a][1..] == [];
      assert Run(w, [a, a], ttl) == Run(w1, [a], ttl) == Step(w1, a, ttl);
      GivesOld(w, ttl, email, [a, a], |w.log| + 1);
    } else {
      assert [a][1..] == [];
      assert Run(w, [a], ttl) == w1;
      GivesOld(w, ttl, email, [a], |w.log|);
    }
  }

  /**
   After an invalidation, of the email or of all, only cookies of later logins are returned for the email, in every
   continuation, iff no call was holding one already: looked up and still fresh, or logged in
   and about to store or return it.
   */
  lemma InvalidationFinalIff(w: World, a: Action, ttl: int, email: string)
    requires a == Invalidate(email) || a == InvalidateAll
    ensures OldGone(Step(w, a, ttl), ttl, email) <==>
            forall i :: 0 <= i < |w.tasks| ==> !Holds(w.tasks[i], email, w.now)
  {
    var w' := Step(w, a, ttl);
    if i :| 0 <= i < |w.tasks| && Holds(w.tasks[i], email, w.now) {
      HoldsGives(w', i, ttl, email);
    } else {
      forall acts | ValidRun(w', acts, ttl)
        ensures OnlyNew(Run(w', acts, ttl).log, |w'.log|, email)
      {
        RunKeepsNew(w', acts, ttl, |w'.log|, email);
      }
    }
  }
}
