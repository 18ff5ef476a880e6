/**
 The reverse proxy's handling of one request (knox-proxy/proxy/handler.go): the team's
 cookie, at most one retry when the backend answers 401, and what leaves for the backend.
 The backend, the n8n login and the clock are parameters.
 */
module RetryProxy {
  import opened Options
  import opened ResponseBuffer
  import opened Texts
  import CookiePool

  const MAX_BODY: nat := 32 * 1024 * 1024
  const BROWSER_ID: string := "knox-proxy-session"

  datatype Request = Request(path: string, host: string, headers: Header, body: Option<Bytes>)

  datatype Target = Target(scheme: string, host: string)

  /** What leaves: where to, and what the backend sees. */
  datatype Outgoing = Outgoing(target: Target, path: string, host: string, headers: Header, body: Bytes)

  type EndStatus = s: nat | !Interim(s) witness 200
  type InterimStatus = s: nat | Interim(s) witness 103

  /** The interim statuses the backend sends first, which the reverse proxy passes on as they come, and its answer. */
  datatype Answer = Answer(interims: seq<InterimStatus>, status: EndStatus, headers: Header, body: Bytes)

  datatype Credential = Credential(email: string, password: string)

  datatype Event =
    | Fetched(email: string, cookie: Option<string>)
    | Attempt(request: Outgoing, answer: Answer)
    | Invalidated(email: string)

  datatype Reply = Refused(code: nat) | Forwarded(response: Response)

  // ---------- pure helpers ----------

  predicate HasPrefix(s: string, prefix: string) {
    prefix <= s
  }

  /** The first group with the prefix and something after it names the team. */
  function ResolveTeam(groups: seq<string>, prefix: string): string {
    if groups == [] then ""
    else if HasPrefix(groups[0], prefix) && groups[0] != prefix then groups[0][|prefix|..]
    else ResolveTeam(groups[1..], prefix)
  }

  /** The team is the rest of the first group that is longer than the prefix it starts with; there is none iff no group is. */
  lemma {:induction false} TeamIsFirst(groups: seq<string>, prefix: string) returns (i: nat)
    ensures i <= |groups| && forall j :: 0 <= j < i ==> !(prefix < groups[j])
    ensures if i == |groups| then ResolveTeam(groups, prefix) == ""
            else ResolveTeam(groups, prefix) != "" && groups[i] == prefix + ResolveTeam(groups, prefix)
  {
    i := 0;
    if groups != [] && !(HasPrefix(groups[0], prefix) && groups[0] != prefix) {
      i := TeamIsFirst(groups[1..], prefix);
      assert forall j :: 1 <= j < |groups| ==> groups[j] == groups[1..][j - 1];
      i := i + 1;
    }
  }

  /** Header.Get: the first value, or "". */
  function First(h: Header, key: string): string {
    if Values(h, key) == [] then "" else Values(h, key)[0]
  }

  predicate IsStreaming(r: Request) {
    || EqualFold(First(r.headers, "Upgrade"), "websocket")
    || HasPrefix(r.path, "/rest/push")
    || HasPrefix(r.path, "/rest/events")
  }

  /** Streams: a WebSocket upgrade in any case, and whatever lies under the two paths. */
  lemma StreamsIff(r: Request)
    ensures IsStreaming(r) <==>
      || ("Upgrade" in r.headers && r.headers["Upgrade"] != [] && Upper(r.headers["Upgrade"][0]) == Upper("websocket"))
      || "/rest/push" <= r.path || "/rest/events" <= r.path
  {
    UpperIff(First(r.headers, "Upgrade"), "websocket");
  }

  function OriginalHost(host: string, h: Header): string {
    if host != "" then host else First(h, "Host")
  }

  function Directed(host: string, h: Header, cookie: string): Header {
    var original := OriginalHost(host, h);
    var c := if cookie != "" then (h - {"Cookie"})["Cookie" := ["n8n-auth=" + cookie]] else h - {"Cookie"};
    var b := c["Browser-Id" := [BROWSER_ID]]["X-Forwarded-Host" := [original]];
    if First(b, "X-Forwarded-Proto") == "" then b["X-Forwarded-Proto" := ["http"]] else b
  }

  function Sent(to: Target, r: Request, cookie: string, body: Bytes): Outgoing {
    Outgoing(to, r.path, OriginalHost(r.host, r.headers), Directed(r.host, r.headers, cookie), body)
  }

  /** No cookie of the client leaves, and only the pool's does: the outgoing request does not depend on the client's. */
  lemma ClientCookiesStay(to: Target, r: Request, cookies: seq<string>, cookie: string, body: Bytes)
    ensures Sent(to, r.(headers := r.headers["Cookie" := cookies]), cookie, body) ==
            Sent(to, r.(headers := r.headers - {"Cookie"}), cookie, body)
    ensures Values(Sent(to, r, cookie, body).headers, "Cookie") == if cookie != "" then ["n8n-auth=" + cookie] else []
    ensures Sent(to, r, cookie, body).headers["Browser-Id"] == [BROWSER_ID]
  {
    var h := r.headers;
    assert h["Cookie" := cookies] - {"Cookie"} == (h - {"Cookie"}) - {"Cookie"};
    assert First(h["Cookie" := cookies], "Host") == First(h - {"Cookie"}, "Host");
  }

  /**
   Where the request goes and under which host; the forwarding headers name the client's host,
   and its protocol if it said one; every other header but the cookie and the browser id stays.
   */
  lemma ForwardingHeaders(to: Target, r: Request, cookie: string, body: Bytes, key: string)
    ensures var sent := Sent(to, r, cookie, body);
            var host := if r.host != "" then r.host else First(r.headers, "Host");
            && sent.target == to && sent.path == r.path && sent.host == host && sent.body == body
            && Values(sent.headers, "X-Forwarded-Host") == [host]
            && Values(sent.headers, "X-Forwarded-Proto") ==
               (if First(r.headers, "X-Forwarded-Proto") == "" then ["http"] else r.headers["X-Forwarded-Proto"])
            && Values(sent.headers, "Browser-Id") == ["knox-proxy-session"]
            && (key != "Cookie" && key != "Browser-Id" && key != "X-Forwarded-Host" && key != "X-Forwarded-Proto" ==>
                  Values(sent.headers, key) == Values(r.headers, key))
  {
    var h := r.headers;
    var c := if cookie != "" then (h - {"Cookie"})["Cookie" := ["n8n-auth=" + cookie]] else h - {"Cookie"};
    assert Values(c, "X-Forwarded-Proto") == Values(h, "X-Forwarded-Proto");
    assert key != "Cookie" ==> Values(c, key) == Values(h, key);
  }

  function Buffered(body: Option<Bytes>): Bytes {
    if body.None? then [] else if |body.value| > MAX_BODY then body.value[..MAX_BODY] else body.value
  }

  /** What the client gets of an answer: all but the Set-Cookie headers. */
  function Shown(a: Answer): Response {
    Response(a.status, NonEmpty(a.headers - {"Set-Cookie"}), a.body)
  }

  /** The backend's cookies stay behind, its other headers go through. */
  lemma ShownHeaders(a: Answer, key: string)
    ensures Shown(a).status == a.status && Shown(a).body == a.body
    ensures Values(Shown(a).headers, key) == if key == "Set-Cookie" then [] else Values(a.headers, key)
  {
  }

  /** What it gets through the buffer, which keeps the first status it is given. */
  function Delivered(a: Answer): Response {
    Shown(a).(status := if a.interims == [] then a.status else 200)
  }

  /** The status the retry looks at. */
  predicate LooksStale(a: Answer) {
    a.interims == [] && a.status == 401
  }

  // ---------- the retry protocol ----------

  /** One cookie, one attempt; after a 401 an invalidation and one more fetch; after a cookie one more attempt. */
  predicate Protocol(to: Target, r: Request, email: string, body: Bytes, trace: seq<Event>, reply: Reply) {
    && 1 <= |trace| <= 5
    && trace[0].Fetched? && trace[0].email == email
    && (if trace[0].cookie == None then |trace| == 1 && reply == Refused(502)
        else
          && |trace| >= 2
          && trace[1].Attempt? && trace[1].request == Sent(to, r, trace[0].cookie.value, body)
          && if !LooksStale(trace[1].answer) then |trace| == 2 && reply == Forwarded(Delivered(trace[1].answer))
             else
               && |trace| >= 4
               && trace[2] == Invalidated(email) && trace[3].Fetched? && trace[3].email == email
               && if trace[3].cookie == None then |trace| == 4 && reply == Forwarded(Delivered(trace[1].answer))
                  else
                    && |trace| == 5
                    && trace[4].Attempt? && trace[4].request == Sent(to, r, trace[3].cookie.value, body)
                    && reply == Forwarded(Delivered(trace[4].answer)))
  }

  /** A stream: one cookie, one attempt with the whole body, no retry whatever the answer. */
  predicate StreamProtocol(to: Target, r: Request, email: string, backend: Outgoing -> Answer, trace: seq<Event>, reply: Reply) {
    && 1 <= |trace| && trace[0].Fetched?
    && if trace[0].cookie == None then trace == [Fetched(email, None)] && reply == Refused(502)
       else
         var sent := Sent(to, r, trace[0].cookie.value, if r.body.Some? then r.body.value else []);
         && trace == [Fetched(email, trace[0].cookie), Attempt(sent, backend(sent))]
         && reply == Forwarded(Shown(backend(sent)))
  }

  /**
   The first cookie is the cached one while that is fresh and a login's otherwise; the request is
   refused for want of one iff there is neither; afterwards the email's entry is that of the
   last login, none if that failed after an invalidation, or as before; other entries stay.
   */
  ghost predicate CacheUsed(before: CookiePool.Cookies, after: CookiePool.Cookies, email: string, login1: Option<string>,
                            login2: Option<string>, ttl: int, now: Instant, trace: seq<Event>, reply: Reply) {
    var hit := email in before && now < before[email].expiresAt;
    && trace != [] && trace[0] == Fetched(email, if hit then Some(before[email].value) else login1)
    && (reply == Refused(502) <==> !hit && login1 == None)
    && after - {email} == before - {email}
    && Lookup(after, email) ==
       (if |trace| >= 4 then if login2.Some? then Some(CookiePool.Cached(login2.value, now + ttl)) else None
        else if !hit && login1.Some? then Some(CookiePool.Cached(login1.value, now + ttl))
        else Lookup(before, email))
  }

  /** The cookies are fetched by GetCookie, the second time after an invalidation. */
  ghost predicate Fetches(before: CookiePool.Cookies, after: CookiePool.Cookies, email: string, login1: Option<string>,
                          login2: Option<string>, ttl: int, now: Instant, trace: seq<Event>) {
    var (cookies, cookie) := CookiePool.Get(before, email, login1, ttl, now, now);
    && trace != [] && trace[0] == Fetched(email, cookie)
    && after == if |trace| < 4 then cookies else CookiePool.Get(cookies - {email}, email, login2, ttl, now, now).0
  }

  lemma FetchesUseCache(before: CookiePool.Cookies, after: CookiePool.Cookies, email: string, login1: Option<string>,
                        login2: Option<string>, ttl: int, now: Instant, trace: seq<Event>, reply: Reply)
    requires Fetches(before, after, email, login1, login2, ttl, now, trace)
    requires reply == Refused(502) <==> trace[0].cookie == None
    ensures CacheUsed(before, after, email, login1, login2, ttl, now, trace, reply)
  {
  }

  function Attempts(trace: seq<Event>): seq<Event> {
    if trace == [] then [] else (if trace[0].Attempt? then [trace[0]] else []) + Attempts(trace[1..])
  }

  /** At most two attempts, the second only after a 401, an invalidation and a cookie; every attempt carries the same bytes. */
  lemma ProtocolAttempts(to: Target, r: Request, email: string, body: Bytes, trace: seq<Event>, reply: Reply)
    requires Protocol(to, r, email, body, trace, reply)
    ensures var tries := Attempts(trace);
            && |tries| <= 2
            && (forall i :: 0 <= i < |tries| ==> tries[i].Attempt? && tries[i].request.body == body)
            && (tries == [] <==> reply == Refused(502))
            && (|tries| == 2 ==> tries[0].answer.status == 401 && Invalidated(email) in trace
                                 && trace[3].Fetched? && trace[3].cookie.Some?)
  {
    AttemptsFrom(trace);
  }

  /**
   A 401 is followed by an invalidation and a fetch iff no interim status came before it, and
   the client gets the last answer iff none came before that, or it was a 200 anyway.
   */
  lemma InterimsDefeatRetry(to: Target, r: Request, email: string, body: Bytes, trace: seq<Event>, reply: Reply)
    requires Protocol(to, r, email, body, trace, reply) && Attempts(trace) != []
    ensures var tries := Attempts(trace);
            var last := tries[|tries| - 1];
            && tries[0].Attempt? && last.Attempt?
            && (tries[0].answer.status == 401 ==> (Invalidated(email) in trace <==> tries[0].answer.interims == []))
            && (reply == Forwarded(Shown(last.answer)) <==> last.answer.interims == [] || last.answer.status == 200)
  {
    AttemptsFrom(trace);
  }

  /** An over-long body is cut, not passed on whole: an attempt carries the client's body iff it fits. */
  lemma BodyWholeIffItFits(to: Target, r: Request, email: string, trace: seq<Event>, reply: Reply, i: nat)
    requires Protocol(to, r, email, Buffered(r.body), trace, reply) && r.body.Some?
    requires i < |Attempts(trace)|
    ensures var sent := Attempts(trace)[i];
            && sent.Attempt? && sent.request.body <= r.body.value
            && (sent.request.body == r.body.value <==> |r.body.value| <= 33_554_432)
            && (|r.body.value| > 33_554_432 ==> |sent.request.body| == 33_554_432)
  {
    ProtocolAttempts(to, r, email, Buffered(r.body), trace, reply);
  }

  lemma AttemptsFrom(t: seq<Event>)
    requires 1 <= |t| <= 5 && !t[0].Attempt?
    requires |t| > 2 ==> !t[2].Attempt?
    requires |t| > 3 ==> !t[3].Attempt?
    ensures Attempts(t) ==
      (if |t| > 1 && t[1].Attempt? then [t[1]] else []) + (if |t| > 4 && t[4].Attempt? then [t[4]] else [])
  {
    assert Attempts(t) == Attempts(t[1..]);
    if |t| > 1 {
      assert t[1..][1..] == t[2..];
    }
    if |t| > 2 {
      assert t[2..][1..] == t[3..];
      assert Attempts(t[2..]) == Attempts(t[3..]);
    }
    if |t| > 3 {
      assert t[3..][1..] == t[4..];
      assert Attempts(t[3..]) == Attempts(t[4..]);
    }
    if |t| > 4 {
      assert t[4..][1..] == [];
      assert Attempts(t[4..]) == if t[4].Attempt? then [t[4]] else [];
    }
  }

  /** A request being rewritten for the backend. */
  class OutRequest {
    var target: Target
    var host: string
    var headers: Header

    constructor (r: Request)
      ensures host == r.host && headers == r.headers
    {
      target, host, headers := Target("", ""), r.host, r.headers;
    }
  }

  class ProxyHandler {
    const pool: CookiePool.Pool
    const credentials: map<string, Credential>
    const groupPrefix: string
    const to: Target

    constructor (pool: CookiePool.Pool, credentials: map<string, Credential>, groupPrefix: string, to: Target)
      ensures this.pool == pool && this.credentials == credentials && this.groupPrefix == groupPrefix && this.to == to
    {
      this.pool, this.credentials, this.groupPrefix, this.to := pool, credentials, groupPrefix, to;
    }

    method Director(req: OutRequest, cookie: string)
      modifies req
      ensures req.headers == Directed(old(req.host), old(req.headers), cookie)
      ensures req.host == OriginalHost(old(req.host), old(req.headers)) && req.target == to
    {
      var originalHost := req.host;
      if originalHost == "" {
        originalHost := First(req.headers, "Host");
      }
      req.target := to;
      req.host := originalHost;
      req.headers := req.headers - {"Cookie"};
      if cookie != "" {
        req.headers := req.headers["Cookie" := ["n8n-auth=" + cookie]];
      }
      req.headers := req.headers["Browser-Id" := [BROWSER_ID]];
      req.headers := req.headers["X-Forwarded-Host" := [originalHost]];
      if First(req.headers, "X-Forwarded-Proto") == "" {
        req.headers := req.headers["X-Forwarded-Proto" := ["http"]];
      }
    }

    /**
     ReverseProxy.ServeHTTP into a fresh buffer: interim statuses as they come, then the answer
     without its Set-Cookie headers.
     */
    method Forward(r: Request, cookie: string, body: Bytes, backend: Outgoing -> Answer, buf: BufferedResponse)
      returns (event: Event)
      requires buf.State() == FRESH_BUFFER
      modifies buf
      ensures event == Attempt(Sent(to, r, cookie, body), backend(Sent(to, r, cookie, body)))
      ensures buf.wroteHeader && buf.body == event.answer.body && buf.headers == event.answer.headers - {"Set-Cookie"}
      ensures buf.statusCode == if event.answer.interims == [] then event.answer.status else event.answer.interims[0]
    {
      var out := new OutRequest(r);
      Director(out, cookie);
      var sent := Outgoing(out.target, r.path, out.host, out.headers, body);
      var answer := backend(sent);
      for i := 0 to |answer.interims|
        invariant buf.body == [] && buf.wroteHeader == (i > 0)
        invariant i > 0 ==> buf.statusCode == answer.interims[0]
      {
        buf.WriteHeader(answer.interims[i]);
      }
      buf.headers := answer.headers - {"Set-Cookie"};
      buf.WriteHeader(answer.status);
      if |answer.body| > 0 {
        buf.Write(answer.body);
      }
      event := Attempt(sent, answer);
    }

    /** Flushes a buffer to the client's writer. */
    method Reply(buf: BufferedResponse) returns (reply: Reply)
      ensures reply == Forwarded(Response(if Interim(buf.statusCode) then 200 else buf.statusCode, NonEmpty(buf.headers), buf.body))
    {
      var w := new ResponseWriter();
      buf.FlushTo(w);
      FlushOutcome(buf.State());
      reply := Forwarded(Outcome(w.wire));
    }

    /** A stream goes straight to the client's writer. */
    method ServeStream(r: Request, email: string, login: Option<string>, now: Instant, backend: Outgoing -> Answer)
      returns (trace: seq<Event>, reply: Reply)
      modifies pool
      ensures StreamProtocol(to, r, email, backend, trace, reply)
      ensures forall login2 :: Fetches(old(pool.cookies), pool.cookies, email, login, login2, pool.ttl, now, trace)
    {
      var cookie := pool.GetCookie(email, login, now, now);
      trace := [Fetched(email, cookie)];
      if cookie.None? {
        return trace, Refused(502);
      }
      var out := new OutRequest(r);
      Director(out, cookie.value);
      var sent := Outgoing(out.target, r.path, out.host, out.headers, if r.body.Some? then r.body.value else []);
      var answer := backend(sent);
      var w := new ResponseWriter();
      PassOn(answer, w);
      trace := trace + [Attempt(sent, answer)];
      reply := Forwarded(Outcome(w.wire));
    }

    /** What the reverse proxy does with an answer: interim statuses as they come, then the rest. */
    method PassOn(answer: Answer, w: ResponseWriter)
      requires w.wire == FRESH_WIRE
      modifies w
      ensures Outcome(w.wire) == Shown(answer)
    {
      for i := 0 to |answer.interims|
        invariant w.wire == FRESH_WIRE
      {
        w.Do(WriteHeader(answer.interims[i]));
      }
      w.wire := w.wire.(headers := NonEmpty(answer.headers - {"Set-Cookie"}));
      w.Do(WriteHeader(answer.status));
      w.Do(Write(answer.body));
    }

    /** One more attempt after a 401, if there is a cookie for it. */
    method Retry(r: Request, email: string, bodyBytes: Bytes, login: Option<string>, now: Instant,
                 backend: Outgoing -> Answer, buf: BufferedResponse)
      returns (trace: seq<Event>, reply: Reply)
      modifies pool
      ensures 2 <= |trace| <= 3 && trace[0] == Invalidated(email) && trace[1] == Fetched(email, login)
      ensures pool.cookies == CookiePool.Get(old(pool.cookies) - {email}, email, login, pool.ttl, now, now).0
      ensures login == None ==> |trace| == 2
      ensures login == None ==>
        reply == Forwarded(Response(if Interim(buf.statusCode) then 200 else buf.statusCode, NonEmpty(buf.headers), buf.body))
      ensures login.Some? ==>
        var sent := Sent(to, r, login.value, bodyBytes);
        |trace| == 3 && trace[2] == Attempt(sent, backend(sent)) && reply == Forwarded(Delivered(backend(sent)))
    {
      pool.Invalidate(email);
      var renewed := pool.GetCookie(email, login, now, now);
      trace := [Invalidated(email), Fetched(email, renewed)];
      if renewed.None? {
        reply := Reply(buf);
        return;
      }
      var remaining: Bytes := [];
      if |bodyBytes| > 0 {
        remaining := bodyBytes;
      }
      var buf2 := new BufferedResponse();
      var second := Forward(r, renewed.value, remaining, backend, buf2);
      reply := Reply(buf2);
      trace := trace + [second];
    }

    /** Body and answer are buffered, so that a 401 can be answered with one more attempt. */
    method ServeBuffered(r: Request, email: string, login1: Option<string>, login2: Option<string>, now: Instant,
                         backend1: Outgoing -> Answer, backend2: Outgoing -> Answer)
      returns (trace: seq<Event>, reply: Reply)
      modifies pool
      ensures Protocol(to, r, email, Buffered(r.body), trace, reply)
      ensures Fetches(old(pool.cookies), pool.cookies, email, login1, login2, pool.ttl, now, trace)
      ensures |trace| >= 2 ==> trace[1].answer == backend1(trace[1].request)
      ensures |trace| >= 4 ==> trace[3].cookie == login2
      ensures |trace| == 5 ==> trace[4].answer == backend2(trace[4].request)
    {
      var bodyBytes: Bytes := [];
      if r.body.Some? {
        bodyBytes := if |r.body.value| > MAX_BODY then r.body.value[..MAX_BODY] else r.body.value;
      }
      var cookie := pool.GetCookie(email, login1, now, now);
      trace := [Fetched(email, cookie)];
      if cookie.None? {
        return trace, Refused(502);
      }
      var buf := new BufferedResponse();
      var first := Forward(r, cookie.value, bodyBytes, backend1, buf);
      trace := trace + [first];
      if buf.statusCode == 401 {
        var more: seq<Event>;
        more, reply := Retry(r, email, bodyBytes, login2, now, backend2, buf);
        trace := trace + more;
        return;
      }
      reply := Reply(buf);
    }

    /**
     `groups` is None for a request without a user. `login1` and `login2` are n8n's answers to a
     login, should one be needed before the first and before the second attempt.
     */
    method ServeHTTP(r: Request, groups: Option<seq<string>>, readOk: bool,
                     login1: Option<string>, login2: Option<string>, now: Instant,
                     backend1: Outgoing -> Answer, backend2: Outgoing -> Answer)
      returns (trace: seq<Event>, reply: Reply)
      modifies pool
      ensures groups == None ==> trace == [] && reply == Refused(401)
      ensures trace == [] ==> pool.cookies == old(pool.cookies)
      ensures groups.Some? ==>
        var team := ResolveTeam(groups.value, groupPrefix);
        if team == "" then trace == [] && reply == Refused(403)
        else if team !in credentials then trace == [] && reply == Refused(500)
        else if IsStreaming(r) then StreamProtocol(to, r, credentials[team].email, backend1, trace, reply)
        else if r.body.Some? && !readOk then trace == [] && reply == Refused(400)
        else
          && Protocol(to, r, credentials[team].email, Buffered(r.body), trace, reply)
          && (|trace| >= 2 ==> trace[1].answer == backend1(trace[1].request))
          && (|trace| >= 4 ==> trace[3].cookie == login2)
          && (|trace| == 5 ==> trace[4].answer == backend2(trace[4].request))
      ensures groups.Some? && trace != [] ==>
        CacheUsed(old(pool.cookies), pool.cookies, credentials[ResolveTeam(groups.value, groupPrefix)].email, login1, login2,
                  pool.ttl, now, trace, reply)
    {
      trace := [];
      if groups.None? {
        return trace, Refused(401);
      }
      var team := ResolveTeam(groups.value, groupPrefix);
      if team == "" {
        return trace, Refused(403);
      }
      if team !in credentials {
        return trace, Refused(500);
      }
      var email := credentials[team].email;
      if IsStreaming(r) {
        trace, reply := ServeStream(r, email, login1, now, backend1);
        FetchesUseCache(old(pool.cookies), pool.cookies, email, login1, login2, pool.ttl, now, trace, reply);
        return;
      }
      if r.body.Some? && !readOk {
        return trace, Refused(400);
      }
      trace, reply := ServeBuffered(r, email, login1, login2, now, backend1, backend2);
      FetchesUseCache(old(pool.cookies), pool.cookies, email, login1, login2, pool.ttl, now, trace, reply);
    }
  }
}
