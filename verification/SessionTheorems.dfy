/** What the two maps of the session store mean, over all runs. */
module SessionTheorems {
  import opened Options
  import opened SessionStore

  /** Sessions are stored under their ids, and every index entry points to a session carrying that SID. */
  ghost predicate Sound(s: Store) {
    && (forall id :: id in s.sessions ==> s.sessions[id].id == id)
    && (forall sid :: sid in s.sidIndex ==>
          sid != "" && s.sidIndex[sid] in s.sessions && s.sessions[s.sidIndex[sid]].sid == sid)
  }

  /** The index is the inverse of the SID field: every session that has a SID is the one its SID leads to. */
  ghost predicate Exact(s: Store) {
    && Sound(s)
    && forall id :: id in s.sessions && s.sessions[id].sid != "" ==>
         s.sessions[id].sid in s.sidIndex && s.sidIndex[s.sessions[id].sid] == id
  }

  ghost predicate Carries(s: Store, sid: string) {
    exists id :: id in s.sessions && s.sessions[id].sid == sid
  }

  /** The store as a plain set of sessions. */
  ghost function Contents(s: Store): set<Session> {
    set id | id in s.sessions :: s.sessions[id]
  }

  // ---------- runs ----------

  datatype Event =
    | Login(x: Session)
    | Logout(id: string)
    | BackChannelLogout(sid: string)
    | Clean(now: Instant)

  ghost function Step(s: Store, e: Event): Store {
    match e
    case Login(x) => Create(s, x)
    case Logout(id) => Destroy(s, id)
    case BackChannelLogout(sid) => DestroyBySID(s, sid).0
    case Clean(now) => SweepAll(s, now)
  }

  ghost predicate FreshId(s: Store, e: Event) {
    e.Login? ==> e.x.id !in s.sessions
  }

  ghost predicate FreshSid(s: Store, e: Event) {
    e.Login? && e.x.sid != "" ==> !Carries(s, e.x.sid)
  }

  ghost function Run(s: Store, es: seq<Event>): Store
    decreases es
  {
    if es == [] then s else Run(Step(s, es[0]), es[1..])
  }

  /** Every login gets an id no stored session has and, if `sids`, a SID no stored session has. */
  ghost predicate FreshRun(s: Store, es: seq<Event>, sids: bool)
    decreases es
  {
    es == [] || (FreshId(s, es[0]) && (sids ==> FreshSid(s, es[0])) && FreshRun(Step(s, es[0]), es[1..], sids))
  }

  lemma StepSound(s: Store, e: Event)
    requires Sound(s) && FreshId(s, e)
    ensures Sound(Step(s, e))
  {
    if e.Clean? {
      var t := SweepAll(s, e.now);
      forall sid | sid in t.sidIndex
        ensures s.sidIndex[sid] in t.sessions
      {
        assert !Swept(s, s.sessions.Keys, e.now, sid);
      }
    }
  }

  /** An exact index stays exact through a step iff the step brings no SID that is already stored. */
  lemma StepExact(s: Store, e: Event)
    requires Exact(s) && FreshId(s, e)
    ensures Exact(Step(s, e)) <==> FreshSid(s, e)
  {
    StepSound(s, e);
    if e.Clean? {
      var t := SweepAll(s, e.now);
      forall id | id in t.sessions && t.sessions[id].sid != ""
        ensures t.sessions[id].sid in t.sidIndex
      {
        assert id in s.sessions && s.sidIndex[s.sessions[id].sid] == id;
      }
    }
    if e.Login? && !FreshSid(s, e) {
      var id :| id in s.sessions && s.sessions[id].sid == e.x.sid;
      assert id in Step(s, e).sessions;
    }
  }

  lemma {:induction false} RunSound(s: Store, es: seq<Event>)
    requires Sound(s) && FreshRun(s, es, false)
    ensures Sound(Run(s, es))
    decreases es
  {
    if es != [] {
      StepSound(s, es[0]);
      RunSound(Step(s, es[0]), es[1..]);
    }
  }

  lemma {:induction false} RunExact(s: Store, es: seq<Event>)
    requires Exact(s) && FreshRun(s, es, true)
    ensures Exact(Run(s, es))
    decreases es
  {
    if es != [] {
      StepExact(s, es[0]);
      RunExact(Step(s, es[0]), es[1..]);
    }
  }

  // ---------- the store refines a set of sessions ----------

  /** A session made at `now2` is found until the manager's maximum age in seconds has passed, and not after. */
  lemma SessionLives(s: Store, id: string, sid: string, user: Claims, now: Instant, now2: Instant, maxAge: int, later: Instant)
    ensures var x := Session(id, sid, now2 + maxAge * SECOND, now, user);
            && Get(Create(s, x), id, later) == (if later <= now2 + maxAge * 1_000_000_000 then Some(x) else None)
            && Get(Destroy(Create(s, x), id), id, later) == None
            && (sid != "" ==> Get(DestroyBySID(Create(s, x), sid).0, id, later) == None && DestroyBySID(Create(s, x), sid).1)
            && (forall other :: other != id ==> Get(Create(s, x), other, later) == Get(s, other, later))
  {
  }

  /** An expired session is as good as none, and one that is not is found as it is stored. */
  lemma GetIsExact(s: Store, id: string, now: Instant)
    ensures Get(s, id, now) == if id in s.sessions && now <= s.sessions[id].expiresAt then Some(s.sessions[id]) else None
  {
  }

  lemma CreateAdds(s: Store, x: Session)
    requires x.id !in s.sessions
    ensures Contents(Create(s, x)) == Contents(s) + {x}
  {
    var t := Create(s, x);
    assert forall id :: id in s.sessions ==> id in t.sessions && t.sessions[id] == s.sessions[id];
    assert t.sessions[x.id] == x;
  }

  lemma DestroyRemoves(s: Store, id: string)
    requires Sound(s)
    ensures Contents(Destroy(s, id)) == set x | x in Contents(s) && x.id != id
  {
    var t := Destroy(s, id);
    forall x | x in Contents(s) && x.id != id
      ensures x in Contents(t)
    {
      assert x.id in t.sessions && t.sessions[x.id] == x;
    }
  }

  lemma SweepRemoves(s: Store, now: Instant)
    requires Sound(s)
    ensures Contents(SweepAll(s, now)) == set x | x in Contents(s) && !Expired(x, now)
  {
    var t := SweepAll(s, now);
    forall x | x in Contents(s) && !Expired(x, now)
      ensures x in Contents(t)
    {
      assert x.id in t.sessions && t.sessions[x.id] == x;
    }
  }

  /** A back-channel logout removed exactly the sessions carrying the SID and says whether there was one. */
  ghost predicate LogoutIsExact(s: Store, sid: string) {
    && Contents(DestroyBySID(s, sid).0) == (set x | x in Contents(s) && !(sid != "" && x.sid == sid))
    && (DestroyBySID(s, sid).1 <==> sid != "" && Carries(s, sid))
  }

  lemma ExactLogout(s: Store, sid: string)
    requires Exact(s)
    ensures LogoutIsExact(s, sid)
  {
    var t := DestroyBySID(s, sid).0;
    forall x | x in Contents(s) && !(sid != "" && x.sid == sid)
      ensures x in Contents(t)
    {
      assert x.id in t.sessions && t.sessions[x.id] == x;
    }
    if sid in s.sidIndex {
      assert Carries(s, sid);
    }
    forall x | x in Contents(t)
      ensures !(sid != "" && x.sid == sid)
    {
      assert x.id in s.sessions;
    }
  }

  /** Back-channel logout does its job for every SID iff the index is the inverse of the SID field. */
  lemma LogoutExactIffIndexExact(s: Store)
    requires Sound(s)
    ensures (forall sid :: LogoutIsExact(s, sid)) <==> Exact(s)
  {
    if Exact(s) {
      forall sid
        ensures LogoutIsExact(s, sid)
      {
        ExactLogout(s, sid);
      }
    } else {
      var id :| id in s.sessions && s.sessions[id].sid != ""
                && !(s.sessions[id].sid in s.sidIndex && s.sidIndex[s.sessions[id].sid] == id);
      var x := s.sessions[id];
      assert id in DestroyBySID(s, x.sid).0.sessions;
      assert x in Contents(DestroyBySID(s, x.sid).0);
      assert !LogoutIsExact(s, x.sid);
    }
  }

  // ---------- the sweep cannot be seen ----------

  /** In any store whatever, a sweep changes no lookup made then or later. */
  lemma SweepKeepsAnswers(s: Store, now: Instant, id: string, later: Instant)
    requires later >= now
    ensures Get(SweepAll(s, now), id, later) == Get(s, id, later)
  {
  }

  /** A back-channel logout leaves the same answers whether or not there was a sweep before it. */
  ghost predicate LogoutHidesSweep(s: Store, now: Instant, sid: string) {
    forall id, later :: later >= now ==>
      Get(DestroyBySID(SweepAll(s, now), sid).0, id, later) == Get(DestroyBySID(s, sid).0, id, later)
  }

  /**
   With shared SIDs a later logout can tell: it misses an unexpired session iff the sweep took
   that session's index entry away, for another one that had expired with the same SID.
   */
  lemma LogoutHidesSweepIff(s: Store, now: Instant, sid: string)
    requires Sound(s)
    ensures LogoutHidesSweep(s, now, sid) <==>
      !(sid in s.sidIndex && !Expired(s.sessions[s.sidIndex[sid]], now) && Swept(s, s.sessions.Keys, now, sid))
  {
    var t := SweepAll(s, now);
    if sid in s.sidIndex {
      var id := s.sidIndex[sid];
      if !Expired(s.sessions[id], now) && Swept(s, s.sessions.Keys, now, sid) {
        assert sid !in t.sidIndex;
        assert Get(DestroyBySID(t, sid).0, id, now) != Get(DestroyBySID(s, sid).0, id, now);
      } else if Expired(s.sessions[id], now) {
        assert Swept(s, s.sessions.Keys, now, sid);
      }
    }
  }

  /** Exact stores that differ at most in sessions expired before `now`. */
  ghost predicate Alike(s: Store, t: Store, now: Instant) {
    && Exact(s) && Exact(t)
    && (forall id :: id in t.sessions ==> id in s.sessions && s.sessions[id] == t.sessions[id])
    && (forall id :: id in s.sessions && id !in t.sessions ==> Expired(s.sessions[id], now))
  }

  lemma AlikeAnswers(s: Store, t: Store, now: Instant, id: string, later: Instant)
    requires Alike(s, t, now) && later >= now
    ensures Get(s, id, later) == Get(t, id, later)
  {
  }

  lemma SweepAlike(s: Store, now: Instant)
    requires Exact(s)
    ensures Alike(s, SweepAll(s, now), now)
  {
    StepExact(s, Clean(now));
  }

  lemma AlikeStep(s: Store, t: Store, now: Instant, e: Event)
    requires Alike(s, t, now) && FreshId(s, e) && FreshSid(s, e)
    ensures FreshId(t, e) && FreshSid(t, e) && Alike(Step(s, e), Step(t, e), now)
  {
    if FreshSid(s, e) && e.Login? && Carries(t, e.x.sid) {
      var id :| id in t.sessions && t.sessions[id].sid == e.x.sid;
      assert id in s.sessions;
    }
    StepExact(s, e);
    StepExact(t, e);
    if e.BackChannelLogout? {
      AlikeLogout(s, t, now, e.sid);
    }
  }

  lemma AlikeLogout(s: Store, t: Store, now: Instant, sid: string)
    requires Alike(s, t, now)
    ensures var s', t' := DestroyBySID(s, sid).0, DestroyBySID(t, sid).0;
            forall id :: id in s.sessions ==>
              (id in s'.sessions <==> s.sessions[id].sid != sid || sid == "") &&
              (id in t'.sessions <==> id in t.sessions && (s.sessions[id].sid != sid || sid == ""))
  {
  }

  /**
   Whatever happens next, a store that was swept at `now` answers every later lookup as the
   unswept one does.
   */
  lemma SweepInvisible(s: Store, now: Instant, es: seq<Event>, id: string, later: Instant)
    requires Exact(s) && FreshRun(s, es, true) && later >= now
    ensures Get(Run(SweepAll(s, now), es), id, later) == Get(Run(s, es), id, later)
  {
    SweepAlike(s, now);
    AlikeRun(s, SweepAll(s, now), now, es);
    AlikeAnswers(Run(s, es), Run(SweepAll(s, now), es), now, id, later);
  }

  lemma {:induction false} AlikeRun(s: Store, t: Store, now: Instant, es: seq<Event>)
    requires Alike(s, t, now) && FreshRun(s, es, true)
    ensures Alike(Run(s, es), Run(t, es), now)
    decreases es
  {
    if es != [] {
      AlikeStep(s, t, now, es[0]);
      AlikeRun(Step(s, es[0]), Step(t, es[0]), now, es[1..]);
    }
  }

  // ---------- reused SIDs ----------

  ghost predicate NoExpiredSid(s: Store, now: Instant) {
    forall id :: id in s.sessions && Expired(s.sessions[id], now) ==> s.sessions[id].sid == ""
  }

  /** Whatever happens next, with fresh ids but any SIDs, lookups answer as without the sweep. */
  ghost predicate SweepUnseen(s: Store, now: Instant) {
    forall es, id, later :: FreshRun(s, es, false) && later >= now ==>
      Get(Run(SweepAll(s, now), es), id, later) == Get(Run(s, es), id, later)
  }

  /** Equal but for expired sessions without a SID. */
  ghost predicate Trimmed(s: Store, t: Store, now: Instant) {
    && t.sidIndex == s.sidIndex
    && (forall id :: id in t.sessions ==> id in s.sessions && s.sessions[id] == t.sessions[id])
    && (forall id :: id in s.sessions && id !in t.sessions ==> Expired(s.sessions[id], now) && s.sessions[id].sid == "")
  }

  lemma TrimmedClean(s: Store, t: Store, now: Instant, later: Instant)
    requires Trimmed(s, t, now)
    ensures Trimmed(SweepAll(s, later), SweepAll(t, later), now)
  {
    forall sid
      ensures Swept(s, s.sessions.Keys, later, sid) <==> Swept(t, t.sessions.Keys, later, sid)
    {
      if Swept(s, s.sessions.Keys, later, sid) {
        var id :| id in s.sessions && Expired(s.sessions[id], later) && s.sessions[id].sid == sid;
        assert id in t.sessions.Keys;
      }
    }
  }

  lemma {:induction false} TrimmedRun(s: Store, t: Store, now: Instant, es: seq<Event>)
    requires Trimmed(s, t, now) && FreshRun(s, es, false)
    ensures Trimmed(Run(s, es), Run(t, es), now)
    decreases es
  {
    if es != [] {
      if es[0].Clean? {
        TrimmedClean(s, t, now, es[0].now);
      }
      TrimmedRun(Step(s, es[0]), Step(t, es[0]), now, es[1..]);
    }
  }

  lemma {:induction false} LongerThanAll(ids: set<string>) returns (id: string)
    ensures forall x :: x in ids ==> |x| < |id|
    decreases ids
  {
    if ids == {} {
      id := "";
    } else {
      var x :| x in ids;
      id := LongerThanAll(ids - {x});
      id := (id + x) + "+";
    }
  }

  lemma ThreeEvents(s: Store, a: Event, b: Event, c: Event)
    requires FreshId(s, a) && !b.Login? && !c.Login?
    ensures FreshRun(s, [a, b, c], false) && Run(s, [a, b, c]) == Step(Step(Step(s, a), b), c)
  {
    assert [a, b, c][1..] == [b, c] && [b, c][1..] == [c] && [c][1..] == [];
    var s1, s2 := Step(s, a), Step(Step(s, a), b);
    assert Run(s2, [c]) == Run(Step(s2, c), []) && FreshRun(s2, [c], false);
    assert Run(s1, [b, c]) == Run(s2, [c]) && FreshRun(s1, [b, c], false);
  }

  /** A new login under the SID of an expired session, whose logout then takes the new one's index entry. */
  lemma ReuseTells(s: Store, now: Instant, dead: string)
    requires Sound(s) && dead in s.sessions && Expired(s.sessions[dead], now) && s.sessions[dead].sid != ""
    ensures !SweepUnseen(s, now)
  {
    var sid := s.sessions[dead].sid;
    var id := LongerThanAll(s.sessions.Keys);
    var x := Session(id, sid, now, now, s.sessions[dead].user);
    var es := [Login(x), Logout(dead), BackChannelLogout(sid)];
    var t := SweepAll(s, now);
    assert id !in s.sessions && id !in t.sessions && dead !in t.sessions;
    ThreeEvents(s, es[0], es[1], es[2]);
    ThreeEvents(t, es[0], es[1], es[2]);
    var s2, t2 := Step(Step(s, es[0]), es[1]), Step(Step(t, es[0]), es[1]);
    assert sid !in s2.sidIndex && id in s2.sessions && t2.sidIndex[sid] == id;
    assert Get(Run(s, es), id, now) != Get(Run(t, es), id, now);
  }

  /** If SIDs may be reused, a sweep cannot be seen, whatever follows, iff it meets no expired session that has a SID. */
  lemma SweepUnseenIff(s: Store, now: Instant)
    requires Sound(s)
    ensures SweepUnseen(s, now) <==> NoExpiredSid(s, now)
  {
    if NoExpiredSid(s, now) {
      assert Trimmed(s, SweepAll(s, now), now) by {
        assert forall sid :: !Swept(s, s.sessions.Keys, now, sid);
      }
      forall es, id, later | FreshRun(s, es, false) && later >= now
        ensures Get(Run(SweepAll(s, now), es), id, later) == Get(Run(s, es), id, later)
      {
        TrimmedRun(s, SweepAll(s, now), now, es);
      }
    } else {
      var dead :| dead in s.sessions && Expired(s.sessions[dead], now) && s.sessions[dead].sid != "";
      ReuseTells(s, now, dead);
    }
  }
}
