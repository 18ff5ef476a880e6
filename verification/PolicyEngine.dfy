/**
 The access policy (knox-proxy/policy/engine.go) and the middleware that applies it
 (knox-proxy/middleware/chain.go). Text is ASCII; request bodies arrive parsed.
 */
module PolicyEngine {
  import opened Options
  import opened PathClean
  import opened Texts
  import opened Validation

  datatype Json = JString(s: string) | JObject(fields: map<string, Json>) | JOther

  /** A body as json.Unmarshal into a map sees it; `null` is an object without fields. */
  datatype Body = Empty | NotAnObject | Object(fields: map<string, Json>)

  datatype Reason =
    | NonAPIPath | ReadOnlyMethod | UnknownAPIPath | Whitelisted(resource: string) | ResourceNotAllowed(resource: string)
    | ExecutionAllowed | ExecutionWithoutRoles | NoWorkflowInBody | NoWorkflowInRunBody | CreationNotAllowed
    | InvalidWorkflowID(id: string) | RoleMatched(role: string) | WildcardMatched(role: string) | RoleMissing(role: string)

  datatype Decision = Decision(allowed: bool, reason: Reason)

  datatype Action = Run | Edit

  function ActionText(a: Action): string {
    match a
    case Run => "run"
    case Edit => "edit"
  }

  function Role(a: Action, id: string): string {
    ActionText(a) + ":" + id
  }

  function Wildcard(a: Action): string {
    Role(a, "*")
  }

  function WorkflowID(body: Body): string {
    if !body.Object? then ""
    else if "workflowData" in body.fields && InnerID(body.fields["workflowData"]) != "" then InnerID(body.fields["workflowData"])
    else if "workflowId" in body.fields && body.fields["workflowId"].JString? then body.fields["workflowId"].s
    else ""
  }

  function InnerID(j: Json): string {
    if j.JObject? && "id" in j.fields && j.fields["id"].JString? then j.fields["id"].s else ""
  }

  function CheckRoles(action: Action, id: string, roles: seq<string>): Decision {
    if roles == [] then Decision(false, RoleMissing(Role(action, id)))
    else if roles[0] == Role(action, id) then Decision(true, RoleMatched(Role(action, id)))
    else if roles[0] == Wildcard(action) then Decision(true, WildcardMatched(Wildcard(action)))
    else CheckRoles(action, id, roles[1..])
  }

  function CheckWorkflow(action: Action, id: string, roles: seq<string>): Decision {
    if !IsValidID(id) then Decision(false, InvalidWorkflowID(id)) else CheckRoles(action, id, roles)
  }

  function EvaluateMutation(cleanPath: string, body: Body, roles: seq<string>): Decision {
    var parts := Split(TrimRoot(cleanPath));
    if |parts| < 2 then Decision(false, UnknownAPIPath)
    else
      var resource := parts[1];
      if resource == "telemetry" || resource == "ph" then Decision(true, Whitelisted(resource))
      else if resource != "workflows" && resource != "executions" then Decision(false, ResourceNotAllowed(resource))
      else if resource == "executions" then
        if |parts| >= 3 then
          if |roles| > 0 then Decision(true, ExecutionAllowed) else Decision(false, ExecutionWithoutRoles)
        else if WorkflowID(body) == "" then Decision(false, NoWorkflowInBody)
        else CheckWorkflow(Run, WorkflowID(body), roles)
      else if |parts| == 3 && parts[2] == "run" then
        if WorkflowID(body) == "" then Decision(false, NoWorkflowInRunBody)
        else CheckWorkflow(Run, WorkflowID(body), roles)
      else if |parts| < 3 then Decision(false, CreationNotAllowed)
      else
        var action := if |parts| >= 4 && (parts[3] == "run" || parts[3] == "test") then Run else Edit;
        CheckWorkflow(action, parts[2], roles)
  }

  predicate IsAPI(cleanPath: string) {
    "/rest/" <= cleanPath || "/api/" <= cleanPath
  }

  predicate IsReadOnly(verb: string) {
    Upper(verb) == "GET" || Upper(verb) == "HEAD" || Upper(verb) == "OPTIONS"
  }

  function Evaluate(verb: string, urlPath: string, body: Body, roles: seq<string>): Decision {
    var cleanPath := Clean(urlPath);
    if !IsAPI(cleanPath) then Decision(true, NonAPIPath)
    else if IsReadOnly(verb) then Decision(true, ReadOnlyMethod)
    else EvaluateMutation(cleanPath, body, roles)
  }

  // ---------- paths ----------

  /** A path and its cleaned form get the same decision. */
  lemma CleanSameDecision(verb: string, urlPath: string, body: Body, roles: seq<string>)
    ensures Evaluate(verb, Clean(urlPath), body, roles) == Evaluate(verb, urlPath, body, roles)
  {
    CleanIdempotent(urlPath);
  }

  lemma PartsBehind(name: string, rest: string)
    requires '/' !in name
    ensures Split(TrimRoot("/" + name + "/" + rest)) == [name] + Split(rest)
  {
    var c := "/" + name + "/" + rest;
    assert c[0] == '/' && c[1..] == name + "/" + rest;
    SplitFirst(name, rest, '/');
  }

  lemma APIPathShape(c: string) returns (name: string, rest: string)
    requires IsAPI(c)
    ensures (name == "rest" || name == "api") && '/' !in name && c == "/" + name + "/" + rest
  {
    if "/rest/" <= c {
      name, rest := "rest", c[6..];
      assert c == "/rest/" + rest;
    } else {
      name, rest := "api", c[5..];
      assert c == "/api/" + rest;
    }
  }

  /** A mutation on an API path always has a resource, and its parts are ordinary segments. */
  lemma APIPathParts(urlPath: string)
    requires IsAPI(Clean(urlPath))
    ensures var parts := Split(TrimRoot(Clean(urlPath)));
            |parts| >= 2 && (parts[0] == "rest" || parts[0] == "api") && forall i :: 0 <= i < |parts| ==> Ordinary(parts[i])
  {
    var name, rest := APIPathShape(Clean(urlPath));
    PartsBehind(name, rest);
    CleanSegments(urlPath);
    assert Clean(urlPath)[0] == '/' && |Clean(urlPath)| > 1;
    CleanedParts(urlPath);
  }

  /** So the branch for short paths is never taken. */
  lemma ShortPathUnreachable(verb: string, urlPath: string, body: Body, roles: seq<string>)
    ensures Evaluate(verb, urlPath, body, roles).reason != UnknownAPIPath
  {
    if IsAPI(Clean(urlPath)) {
      APIPathParts(urlPath);
      ReasonsOfCheck(Run, WorkflowID(body), roles);
      var parts := Split(TrimRoot(Clean(urlPath)));
      if |parts| >= 3 {
        ReasonsOfCheck(Run, parts[2], roles);
        ReasonsOfCheck(Edit, parts[2], roles);
      }
    }
  }

  lemma {:induction false} ReasonsOfCheck(action: Action, id: string, roles: seq<string>)
    ensures CheckRoles(action, id, roles).reason != UnknownAPIPath
  {
    if roles != [] {
      ReasonsOfCheck(action, id, roles[1..]);
    }
  }

  // ---------- roles ----------

  lemma RolesDistinct(a: Action, i: string, b: Action, j: string)
    requires IsValidID(i) && IsValidID(j)
    ensures Role(a, i) == Role(b, j) ==> a == b && i == j
    ensures Role(a, i) != Wildcard(b)
  {
    var r, s := Role(a, i), Role(b, j);
    assert r[|ActionText(a)| + 1..] == i && s[|ActionText(b)| + 1..] == j;
    assert Wildcard(b)[|ActionText(b)| + 1..] == "*";
    assert r[0] == ActionText(a)[0] && s[0] == ActionText(b)[0] && Wildcard(b)[0] == ActionText(b)[0];
    assert i[0] != '*';
  }

  lemma {:induction false} CheckRolesIff(action: Action, id: string, roles: seq<string>)
    ensures CheckRoles(action, id, roles).allowed <==> Role(action, id) in roles || Wildcard(action) in roles
    ensures !CheckRoles(action, id, roles).allowed ==> CheckRoles(action, id, roles).reason == RoleMissing(Role(action, id))
  {
    if roles != [] {
      CheckRolesIff(action, id, roles[1..]);
    }
  }

  /** What a mutation asks for. */
  datatype Demand = Nothing | SomeRole | RoleFor(action: Action, id: string) | BodyRole | Refusal

  function DemandOf(parts: seq<string>): Demand {
    if |parts| < 2 then Refusal
    else if parts[1] == "telemetry" || parts[1] == "ph" then Nothing
    else if parts[1] == "executions" then if |parts| == 2 then BodyRole else SomeRole
    else if parts[1] != "workflows" || |parts| == 2 then Refusal
    else if |parts| == 3 then if parts[2] == "run" then BodyRole else RoleFor(Edit, parts[2])
    else RoleFor(if parts[3] == "run" || parts[3] == "test" then Run else Edit, parts[2])
  }

  predicate Grants(roles: seq<string>, action: Action, id: string) {
    IsValidID(id) && (Role(action, id) in roles || Wildcard(action) in roles)
  }

  predicate Meets(d: Demand, body: Body, roles: seq<string>) {
    match d
    case Nothing => true
    case SomeRole => roles != []
    case RoleFor(action, id) => Grants(roles, action, id)
    case BodyRole => Grants(roles, Run, WorkflowID(body))
    case Refusal => false
  }

  function PathDemand(verb: string, urlPath: string): Demand {
    if !IsAPI(Clean(urlPath)) || IsReadOnly(verb) then Nothing else DemandOf(Split(TrimRoot(Clean(urlPath))))
  }

  lemma CheckWorkflowIff(action: Action, id: string, roles: seq<string>)
    ensures CheckWorkflow(action, id, roles).allowed <==> Grants(roles, action, id)
  {
    CheckRolesIff(action, id, roles);
  }

  lemma MutationIff(cleanPath: string, body: Body, roles: seq<string>)
    ensures EvaluateMutation(cleanPath, body, roles).allowed <==> Meets(DemandOf(Split(TrimRoot(cleanPath))), body, roles)
  {
    var parts := Split(TrimRoot(cleanPath));
    CheckWorkflowIff(Run, WorkflowID(body), roles);
    if |parts| >= 3 {
      CheckWorkflowIff(Run, parts[2], roles);
      CheckWorkflowIff(Edit, parts[2], roles);
    }
  }

  /** The engine allows exactly the requests whose demand the roles meet. */
  lemma AllowedIffMet(verb: string, urlPath: string, body: Body, roles: seq<string>)
    ensures Evaluate(verb, urlPath, body, roles).allowed <==> Meets(PathDemand(verb, urlPath), body, roles)
  {
    MutationIff(Clean(urlPath), body, roles);
  }

  /** Adding, repeating or reordering roles never turns allow into deny. */
  lemma MoreRolesAllowMore(verb: string, urlPath: string, body: Body, roles: seq<string>, more: seq<string>)
    requires forall r :: r in roles ==> r in more
    ensures Evaluate(verb, urlPath, body, roles).allowed ==> Evaluate(verb, urlPath, body, more).allowed
  {
    AllowedIffMet(verb, urlPath, body, roles);
    AllowedIffMet(verb, urlPath, body, more);
    if roles != [] {
      assert roles[0] in more;
    }
  }

  /** Roles that only run never allow what requires editing. */
  lemma RunRolesNeverEdit(verb: string, urlPath: string, body: Body, roles: seq<string>)
    requires forall r :: r in roles ==> "run:" <= r
    requires PathDemand(verb, urlPath).RoleFor? && PathDemand(verb, urlPath).action == Edit
    ensures !Evaluate(verb, urlPath, body, roles).allowed
  {
    AllowedIffMet(verb, urlPath, body, roles);
    var id := PathDemand(verb, urlPath).id;
    assert Role(Edit, id)[0] == 'e' && Wildcard(Edit)[0] == 'e';
  }

  // ---------- the middleware ----------

  predicate IsMutationMethod(verb: string) {
    verb == "POST" || verb == "PATCH" || verb == "PUT" || verb == "DELETE"
  }

  predicate IsWorkflowPath(urlPath: string) {
    "/rest/workflows" <= urlPath
  }

  /** The middleware reads the body only for these, by the method and path as they came. */
  predicate BodyRead(verb: string, urlPath: string) {
    IsMutationMethod(verb) && (IsWorkflowPath(urlPath) || "/rest/executions" <= urlPath)
  }

  function SeenBody(verb: string, urlPath: string, body: Body): Body {
    if BodyRead(verb, urlPath) then body else Empty
  }

  /**
   The middleware decides as on the full body, except that it denies what would be decided by
   a body it has not read: never is it more permissive.
   */
  lemma MiddlewareDecision(verb: string, urlPath: string, body: Body, roles: seq<string>)
    ensures Evaluate(verb, urlPath, SeenBody(verb, urlPath, body), roles).allowed <==>
            Evaluate(verb, urlPath, body, roles).allowed && (BodyRead(verb, urlPath) || PathDemand(verb, urlPath) != BodyRole)
  {
    AllowedIffMet(verb, urlPath, body, roles);
    AllowedIffMet(verb, urlPath, SeenBody(verb, urlPath, body), roles);
  }

  /** Withholding the body never turns deny into allow. */
  lemma WithholdingDenies(verb: string, urlPath: string, body: Body, roles: seq<string>)
    ensures Evaluate(verb, urlPath, Empty, roles).allowed ==> Evaluate(verb, urlPath, body, roles).allowed
  {
    AllowedIffMet(verb, urlPath, body, roles);
    AllowedIffMet(verb, urlPath, Empty, roles);
  }

  class HttpRequest {
    const verb: string
    const path: string
    var body: Bytes
    var contentLength: int

    constructor (verb: string, path: string, body: Bytes, contentLength: int)
      ensures this.verb == verb && this.path == path && this.body == body && this.contentLength == contentLength
    {
      this.verb, this.path, this.body, this.contentLength := verb, path, body, contentLength;
    }
  }

  datatype Outcome = Next | Refused(code: nat)

  /**
   What becomes of a request. `roles` is None without a user; `readOk` is false when the body
   cannot be read; `parse` and `dirty` stand for the JSON decoder and the sanitizer.
   */
  function PolicyOutcome(verb: string, path: string, body: Bytes, roles: Option<seq<string>>, readOk: bool,
                         parse: Bytes -> Body, sanitizing: bool, dirty: Bytes -> bool): Outcome {
    if roles.None? then Refused(401)
    else if BodyRead(verb, path) && !readOk then Refused(400)
    else if !Evaluate(verb, path, SeenBody(verb, path, parse(body)), roles.value).allowed then Refused(403)
    else if sanitizing && Sanitized(verb, path) && |body| > 0 && dirty(body) then Refused(400)
    else Next
  }

  /** The sanitizer sees the body only of these, by the method and path as they came. */
  predicate Sanitized(verb: string, path: string) {
    IsMutationMethod(verb) && IsWorkflowPath(path)
  }

  method Policy(r: HttpRequest, roles: Option<seq<string>>, readOk: bool, parse: Bytes -> Body,
                sanitizing: bool, dirty: Bytes -> bool)
    returns (outcome: Outcome)
    requires parse([]) == Empty
    modifies r
    ensures outcome == PolicyOutcome(r.verb, r.path, old(r.body), roles, readOk, parse, sanitizing, dirty)
    ensures roles.Some? && (BodyRead(r.verb, r.path) ==> readOk) ==>
      && r.body == old(r.body)
      && r.contentLength == (if BodyRead(r.verb, r.path) then |r.body| else old(r.contentLength))
  {
    if roles.None? {
      return Refused(401);
    }
    var reqBody: Bytes := [];
    if BodyRead(r.verb, r.path) {
      reqBody := r.body;
      r.body := [];
      if !readOk {
        return Refused(400);
      }
      r.body := reqBody;
      r.contentLength := |reqBody|;
    }
    var decision := Evaluate(r.verb, r.path, parse(reqBody), roles.value);
    if !decision.allowed {
      return Refused(403);
    }
    if sanitizing && IsMutationMethod(r.verb) && IsWorkflowPath(r.path) && |reqBody| > 0 {
      if dirty(reqBody) {
        return Refused(400);
      }
    }
    outcome := Next;
  }

  // ---------- which edits the sanitizer sees ----------

  /**
   A dirty body keeps an edit the roles grant from passing iff the sanitizer's own test of the
   raw method and path takes the request for an edit.
   */
  lemma DirtyEditPassesIff(verb: string, path: string, body: Bytes, roles: seq<string>, readOk: bool,
                           parse: Bytes -> Body, dirty: Bytes -> bool)
    requires PathDemand(verb, path).RoleFor? && PathDemand(verb, path).action == Edit
    requires |body| > 0 && dirty(body) && (BodyRead(verb, path) ==> readOk)
    ensures PolicyOutcome(verb, path, body, Some(roles), readOk, parse, true, dirty) == Next <==>
            Grants(roles, Edit, PathDemand(verb, path).id) && !Sanitized(verb, path)
  {
    AllowedIffMet(verb, path, SeenBody(verb, path, parse(body)), roles);
  }

  lemma DemandsWorkflow(parts: seq<string>)
    requires DemandOf(parts).RoleFor?
    ensures |parts| >= 3 && parts[1] == "workflows"
  {
  }

  /** The two tests agree on an edit under /rest that comes with a clean path and a method in capitals. */
  lemma PlainEditsSanitized(verb: string, path: string)
    requires PathDemand(verb, path).RoleFor? && IsMutationMethod(verb) && Clean(path) == path && "/rest/" <= path
    ensures Sanitized(verb, path)
  {
    var rest := path[6..];
    assert path == "/rest/" + rest && "/" + "rest" + "/" + rest == "/rest/" + rest;
    PartsBehind("rest", rest);
    DemandsWorkflow(Split(TrimRoot(path)));
    assert Split(rest)[0] == "workflows";
    SplitStarts(rest);
    WorkflowPrefix(rest);
  }

  lemma WorkflowPrefix(rest: string)
    requires "workflows" <= rest
    ensures IsWorkflowPath("/rest/" + rest)
  {
    var end := rest[|"workflows"|..];
    assert rest == "workflows" + end;
    assert "/rest/" + rest == "/rest/workflows" + end;
  }

  /** The first part is what the text starts with. */
  lemma {:induction false} SplitStarts(s: string)
    ensures Split(s)[0] <= s
  {
    if s != "" && s[0] != '/' {
      SplitStarts(s[1..]);
      assert s == [s[0]] + s[1..];
    }
  }

  /** They need not agree: the engine ignores the case of the method, the sanitizer's test does not. */
  lemma SmallCaseEditUnseen(id: string)
    requires IsValidID(id) && id != "run"
    ensures PathDemand("patch", "/rest/workflows/" + id) == RoleFor(Edit, id)
    ensures !Sanitized("patch", "/rest/workflows/" + id)
  {
    WorkflowPath(id);
    assert Upper("patch") == "PATCH";
  }

  lemma IdIsOrdinary(id: string)
    requires IsValidID(id)
    ensures '/' !in id && Ordinary(id)
  {
    assert IsIdChar(id[0]);
    forall c | c in id
      ensures c != '/'
    {
      var i :| 0 <= i < |id| && id[i] == c;
      assert IsIdChar(id[i]);
    }
  }

  lemma JoinThree(a: string, b: string, c: string)
    ensures Join([a, b, c]) == a + "/" + (b + "/" + c)
  {
    assert [a, b, c][1..] == [b, c] && [b, c][1..] == [c];
    assert Join([b, c]) == b + "/" + Join([c]);
  }

  lemma ThreeAreNormal(a: string, b: string, c: string)
    requires '/' !in a && '/' !in b && '/' !in c && Ordinary(a) && Ordinary(b) && Ordinary(c)
    ensures Normal([a, b, c], true)
  {
  }

  lemma WorkflowText(id: string)
    ensures "/" + ("rest" + "/" + ("workflows" + "/" + id)) == "/rest/workflows/" + id
    ensures "/rest/" <= "/rest/workflows/" + id
  {
  }

  lemma WorkflowPath(id: string)
    requires IsValidID(id)
    ensures var path := "/rest/workflows/" + id;
            IsAPI(Clean(path)) && Split(TrimRoot(Clean(path))) == ["rest", "workflows", id]
  {
    IdIsOrdinary(id);
    var name, sort := "rest", "workflows";
    ThreeAreNormal(name, sort, id);
    NormalIsClean([name, sort, id]);
    JoinThree(name, sort, id);
    WorkflowText(id);
  }
}
