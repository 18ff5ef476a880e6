/**
 The in-memory session store with its reverse index from Keycloak session ids
 (knox-proxy/auth/session.go), which serves OpenID Connect Back-Channel Logout 1.0,
 section 2.7. Every operation holds the store's lock throughout.
 */
module SessionStore {
  import opened Options

  /** Id, SID and expiry are what the store looks at; `user` stands for the rest. */
  datatype Session = Session(id: string, sid: string, expiresAt: Instant, createdAt: Instant, user: Claims)

  datatype Claims = Claims(email: string, displayName: string, groups: seq<string>, jitRoles: seq<string>, idToken: string)

  datatype Store = Store(sessions: map<string, Session>, sidIndex: map<string, string>)

  const SECOND: int := 1_000_000_000

  // ---------- the operations as functions ----------

  function Create(s: Store, x: Session): Store {
    Store(s.sessions[x.id := x], if x.sid != "" then s.sidIndex[x.sid := x.id] else s.sidIndex)
  }

  predicate Expired(x: Session, now: Instant) {
    now > x.expiresAt
  }

  function Get(s: Store, id: string, now: Instant): Option<Session> {
    if id !in s.sessions || Expired(s.sessions[id], now) then None else Some(s.sessions[id])
  }

  function Destroy(s: Store, id: string): Store {
    if id !in s.sessions then s
    else Store(s.sessions - {id}, if s.sessions[id].sid != "" then s.sidIndex - {s.sessions[id].sid} else s.sidIndex)
  }

  function DestroyBySID(s: Store, sid: string): (Store, bool) {
    if sid !in s.sidIndex then (s, false)
    else (Store(s.sessions - {s.sidIndex[sid]}, s.sidIndex - {sid}), true)
  }

  /** Some session among `ids` has expired and carries this SID. */
  ghost predicate Swept(s: Store, ids: set<string>, now: Instant, sid: string) {
    sid != "" && exists id :: id in ids && id in s.sessions && Expired(s.sessions[id], now) && s.sessions[id].sid == sid
  }

  /**
   The expired sessions among `ids` are gone, and each has taken the index entry of its SID
   with it, whatever that entry points to.
   */
  ghost function Sweep(s: Store, ids: set<string>, now: Instant): Store {
    Store(map id | id in s.sessions && !(id in ids && Expired(s.sessions[id], now)) :: s.sessions[id],
          map sid | sid in s.sidIndex && !Swept(s, ids, now, sid) :: s.sidIndex[sid])
  }

  ghost function SweepAll(s: Store, now: Instant): Store {
    Sweep(s, s.sessions.Keys, now)
  }

  // ---------- the object ----------

  class SessionManager {
    var sessions: map<string, Session>
    var sidIndex: map<string, string>
    const maxAge: int

    ghost function State(): Store
      reads this
    {
      Store(sessions, sidIndex)
    }

    constructor (maxAge: int)
      ensures State() == Store(map[], map[]) && this.maxAge == maxAge
    {
      sessions, sidIndex, this.maxAge := map[], map[], maxAge;
    }

    /** `id` is None when the random generator fails; the clock is read twice. */
    method CreateSession(user: Claims, sid: string, id: Option<string>, now: Instant, now2: Instant)
      returns (created: Option<string>)
      modifies this
      ensures created == id
      ensures id == None ==> State() == old(State())
      ensures id.Some? ==>
        State() == Create(old(State()), Session(id.value, sid, now2 + maxAge * SECOND, now, user))
    {
      if id == None {
        return None;
      }
      sessions := sessions[id.value := Session(id.value, sid, now2 + maxAge * SECOND, now, user)];
      if sid != "" {
        sidIndex := sidIndex[sid := id.value];
      }
      created := id;
    }

    method GetSession(id: string, now: Instant) returns (session: Option<Session>)
      ensures session == Get(State(), id, now)
    {
      if id !in sessions || now > sessions[id].expiresAt {
        return None;
      }
      session := Some(sessions[id]);
    }

    method DestroySession(id: string)
      modifies this
      ensures State() == Destroy(old(State()), id)
    {
      if id in sessions {
        var session := sessions[id];
        if session.sid != "" {
          sidIndex := sidIndex - {session.sid};
        }
        sessions := sessions - {id};
      }
    }

    method DestroyByKeycloakSID(sid: string) returns (destroyed: bool)
      modifies this
      ensures (State(), destroyed) == DestroyBySID(old(State()), sid)
    {
      if sid !in sidIndex {
        return false;
      }
      sessions := sessions - {sidIndex[sid]};
      sidIndex := sidIndex - {sid};
      destroyed := true;
    }

    /** Deletes while ranging over the map, in whatever order the range takes. */
    method CleanExpired(now: Instant) returns (count: nat)
      modifies this
      ensures State() == SweepAll(old(State()), now)
      ensures count == |old(sessions)| - |sessions|
    {
      count := 0;
      ghost var before := State();
      var rest := sessions.Keys;
      SweepNone(before, now);
      while rest != {}
        invariant rest <= before.sessions.Keys
        invariant State() == Sweep(before, before.sessions.Keys - rest, now)
        invariant count + |sessions| == |before.sessions|
        decreases rest
      {
        var id :| id in rest;
        SweepOneMore(before, before.sessions.Keys - rest, id, now);
        if now > sessions[id].expiresAt {
          if sessions[id].sid != "" {
            sidIndex := sidIndex - {sessions[id].sid};
          }
          SizeWithout(sessions, id);
          sessions := sessions - {id};
          count := count + 1;
        }
        assert before.sessions.Keys - (rest - {id}) == (before.sessions.Keys - rest) + {id};
        rest := rest - {id};
      }
      assert before.sessions.Keys - rest == before.sessions.Keys;
    }
  }

  lemma SizeWithout(m: map<string, Session>, id: string)
    requires id in m
    ensures |m - {id}| == |m| - 1
  {
    assert m.Keys == (m - {id}).Keys + {id};
    assert |m.Keys| == |m| && |(m - {id}).Keys| == |m - {id}|;
  }

  lemma SweepNone(s: Store, now: Instant)
    ensures Sweep(s, s.sessions.Keys - s.sessions.Keys, now) == s
  {
    assert forall sid :: !Swept(s, s.sessions.Keys - s.sessions.Keys, now, sid);
  }

  lemma SweepOneMore(s: Store, ids: set<string>, id: string, now: Instant)
    requires id in s.sessions && id !in ids
    ensures var t := Sweep(s, ids, now);
            && id in t.sessions && t.sessions[id] == s.sessions[id]
            && Sweep(s, ids + {id}, now) ==
               if !Expired(s.sessions[id], now) then t
               else Store(t.sessions - {id}, if s.sessions[id].sid != "" then t.sidIndex - {s.sessions[id].sid} else t.sidIndex)
  {
    var x := s.sessions[id];
    forall sid
      ensures Swept(s, ids + {id}, now, sid) <==> Swept(s, ids, now, sid) || (Expired(x, now) && sid == x.sid && sid != "")
    {
      if Swept(s, ids, now, sid) {
        var k :| k in ids && k in s.sessions && Expired(s.sessions[k], now) && s.sessions[k].sid == sid;
        assert k in ids + {id};
      } else if Expired(x, now) && sid == x.sid && sid != "" {
        assert id in ids + {id};
      }
    }
    var t, u := Sweep(s, ids, now), Sweep(s, ids + {id}, now);
    if Expired(x, now) {
      assert u.sessions == t.sessions - {id};
      assert u.sidIndex == if x.sid != "" then t.sidIndex - {x.sid} else t.sidIndex;
    } else {
      assert u.sessions == t.sessions && u.sidIndex == t.sidIndex;
    }
  }
}
