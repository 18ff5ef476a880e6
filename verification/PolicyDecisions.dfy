/** What the policy allows, method by method and path by path. */
module PolicyDecisions {
  import opened Options
  import opened Texts
  import opened Validation
  import opened PathClean
  import opened PolicyEngine

  // ---------- methods ----------

  lemma UpperIs(verb: string, word: string)
    requires forall i :: 0 <= i < |word| ==> 'A' <= word[i] <= 'Z'
    ensures Upper(verb) == word <==> EqualFold(verb, word)
  {
    UpperIff(verb, word);
    UpperAt(word, 0);
    forall i | 0 <= i < |word|
      ensures Upper(word)[i] == word[i]
    {
      UpperAt(word, i);
    }
    assert Upper(word) == word;
  }

  /** GET, HEAD and OPTIONS in any case, and no other method, are read-only. */
  lemma ReadOnlyMethods(verb: string)
    ensures IsReadOnly(verb) <==> EqualFold(verb, "GET") || EqualFold(verb, "HEAD") || EqualFold(verb, "OPTIONS")
    ensures EqualFold(verb, "POST") || EqualFold(verb, "PUT") || EqualFold(verb, "PATCH") || EqualFold(verb, "DELETE") ==> !IsReadOnly(verb)
  {
    UpperIs(verb, "GET");
    UpperIs(verb, "HEAD");
    UpperIs(verb, "OPTIONS");
    assert Lower('P') != Lower('G') && Lower('P') != Lower('H');
  }

  /** Whoever asks, reading is allowed, and so is everything outside /rest and /api. */
  lemma ReadsAndOtherPaths(verb: string, path: string, body: Body, roles: seq<string>)
    ensures EqualFold(verb, "GET") || EqualFold(verb, "HEAD") || EqualFold(verb, "OPTIONS") ==>
            Evaluate(verb, path, body, roles).allowed
    ensures !("/rest/" <= Clean(path)) && !("/api/" <= Clean(path)) ==> Evaluate(verb, path, body, roles).allowed
  {
    ReadOnlyMethods(verb);
  }

  // ---------- resources ----------

  lemma PathOfParts(parts: seq<string>)
    requires |parts| >= 2 && (parts[0] == "rest" || parts[0] == "api")
    requires forall i :: 0 <= i < |parts| ==> '/' !in parts[i] && Ordinary(parts[i])
    ensures var path := "/" + Join(parts);
            Clean(path) == path && IsAPI(path) && Split(TrimRoot(path)) == parts
  {
    NormalIsClean(parts);
    var rest := JoinWith(parts[1..], '/');
    var path := "/" + Join(parts);
    assert Join(parts) == parts[0] + "/" + rest;
    assert path == ("/" + parts[0] + "/") + rest;
    if parts[0] == "rest" {
      assert "/" + parts[0] + "/" == "/rest/";
    } else {
      assert "/" + parts[0] + "/" == "/api/";
    }
  }

  lemma RoleText(id: string)
    ensures Role(Run, id) == "run:" + id && Role(Edit, id) == "edit:" + id
    ensures Wildcard(Run) == "run:*" && Wildcard(Edit) == "edit:*"
  {
  }

  lemma GrantsText(roles: seq<string>, id: string)
    ensures Grants(roles, Run, id) <==> IsValidID(id) && ("run:" + id in roles || "run:*" in roles)
    ensures Grants(roles, Edit, id) <==> IsValidID(id) && ("edit:" + id in roles || "edit:*" in roles)
  {
    RoleText(id);
  }

  /**
   A method other than the read-only ones on a clean path under /rest or /api: the two internal
   resources are open to all; an execution that exists, to any role; starting one, alone or by
   a workflow's run, to a run role for the workflow the body names; a workflow, to an edit role
   for it, or a run role if the next segment is run or test; nothing else to anyone.
   */
  lemma MutationDecisions(verb: string, parts: seq<string>, body: Body, roles: seq<string>)
    requires !EqualFold(verb, "GET") && !EqualFold(verb, "HEAD") && !EqualFold(verb, "OPTIONS")
    requires |parts| >= 2 && (parts[0] == "rest" || parts[0] == "api")
    requires forall i :: 0 <= i < |parts| ==> '/' !in parts[i] && parts[i] != "" && parts[i] != "." && parts[i] != ".."
    ensures var allowed := Evaluate(verb, "/" + Join(parts), body, roles).allowed;
            var id := WorkflowID(body);
            && (parts[1] == "telemetry" || parts[1] == "ph" ==> allowed)
            && (parts[1] == "executions" && |parts| > 2 ==> (allowed <==> roles != []))
            && (parts[1] == "executions" && |parts| == 2 ==>
                  (allowed <==> IsValidID(id) && ("run:" + id in roles || "run:*" in roles)))
            && (parts[1] == "workflows" && |parts| == 2 ==> !allowed)
            && (parts[1] == "workflows" && |parts| == 3 && parts[2] == "run" ==>
                  (allowed <==> IsValidID(id) && ("run:" + id in roles || "run:*" in roles)))
            && (parts[1] == "workflows" && |parts| == 3 && parts[2] != "run" ==>
                  (allowed <==> IsValidID(parts[2]) && ("edit:" + parts[2] in roles || "edit:*" in roles)))
            && (parts[1] == "workflows" && |parts| > 3 && (parts[3] == "run" || parts[3] == "test") ==>
                  (allowed <==> IsValidID(parts[2]) && ("run:" + parts[2] in roles || "run:*" in roles)))
            && (parts[1] == "workflows" && |parts| > 3 && parts[3] != "run" && parts[3] != "test" ==>
                  (allowed <==> IsValidID(parts[2]) && ("edit:" + parts[2] in roles || "edit:*" in roles)))
            && (parts[1] != "telemetry" && parts[1] != "ph" && parts[1] != "executions" && parts[1] != "workflows" ==> !allowed)
  {
    ReadOnlyMethods(verb);
    PathOfParts(parts);
    AllowedIffMet(verb, "/" + Join(parts), body, roles);
    GrantsText(roles, WorkflowID(body));
    if |parts| > 2 {
      GrantsText(roles, parts[2]);
    }
  }

  /** Changing a workflow, by POST, PUT, PATCH or DELETE in any case, takes an edit role for it. */
  lemma WorkflowChange(verb: string, id: string, body: Body, roles: seq<string>)
    requires EqualFold(verb, "POST") || EqualFold(verb, "PUT") || EqualFold(verb, "PATCH") || EqualFold(verb, "DELETE")
    requires IsValidID(id) && id != "run"
    ensures var d := Evaluate(verb, "/rest/workflows/" + id, body, roles);
            && (d.allowed <==> "edit:" + id in roles || "edit:*" in roles)
            && (!d.allowed ==> d.reason == RoleMissing("edit:" + id))
  {
    ReadOnlyMethods(verb);
    WorkflowPath(id);
    CheckRolesIff(Edit, id, roles);
    RoleText(id);
  }

  /** The middleware's answers to a change of a workflow. */
  lemma WorkflowChangeOutcome(verb: string, id: string, body: Bytes, roles: Option<seq<string>>, readOk: bool,
                              parse: Bytes -> Body, sanitizing: bool, dirty: Bytes -> bool)
    requires verb == "POST" || verb == "PUT" || verb == "PATCH" || verb == "DELETE"
    requires IsValidID(id) && id != "run"
    ensures PolicyOutcome(verb, "/rest/workflows/" + id, body, roles, readOk, parse, sanitizing, dirty) ==
            if roles == None then Refused(401)
            else if !readOk then Refused(400)
            else if "edit:" + id !in roles.value && "edit:*" !in roles.value then Refused(403)
            else if sanitizing && |body| > 0 && dirty(body) then Refused(400)
            else Next
  {
    if roles.Some? {
      WorkflowChange(verb, id, parse(body), roles.value);
    }
    ChangeRead(verb, id);
  }

  lemma ChangeRead(verb: string, id: string)
    requires verb == "POST" || verb == "PUT" || verb == "PATCH" || verb == "DELETE"
    ensures BodyRead(verb, "/rest/workflows/" + id) && Sanitized(verb, "/rest/workflows/" + id)
  {
    assert "/rest/workflows/" == "/rest/workflows" + "/";
    assert "/rest/workflows/" + id == "/rest/workflows" + ("/" + id);
  }

  lemma StartText()
    ensures "/" + Join(["rest", "executions"]) == "/rest/executions"
    ensures "/" + Join(["rest", "workflows", "run"]) == "/rest/workflows/run"
  {
    assert ["rest", "executions"][1..] == ["executions"];
    JoinThree("rest", "workflows", "run");
  }

  /** The middleware's answers to starting an execution; only the body of a workflow's run is sanitized. */
  lemma StartOutcome(verb: string, run: bool, body: Bytes, roles: Option<seq<string>>, readOk: bool,
                     parse: Bytes -> Body, sanitizing: bool, dirty: Bytes -> bool)
    requires verb == "POST" || verb == "PUT" || verb == "PATCH" || verb == "DELETE"
    ensures var path := if run then "/rest/workflows/run" else "/rest/executions";
            var id := WorkflowID(parse(body));
            PolicyOutcome(verb, path, body, roles, readOk, parse, sanitizing, dirty) ==
            if roles == None then Refused(401)
            else if !readOk then Refused(400)
            else if !(IsValidID(id) && ("run:" + id in roles.value || "run:*" in roles.value)) then Refused(403)
            else if run && sanitizing && |body| > 0 && dirty(body) then Refused(400)
            else Next
  {
    StartText();
    if roles.Some? {
      StartDecision(verb, run, parse(body), roles.value);
    }
    StartRead(verb, run);
  }

  lemma StartDecision(verb: string, run: bool, body: Body, roles: seq<string>)
    requires verb == "POST" || verb == "PUT" || verb == "PATCH" || verb == "DELETE"
    ensures var path := if run then "/rest/workflows/run" else "/rest/executions";
            var id := WorkflowID(body);
            Evaluate(verb, path, body, roles).allowed <==> IsValidID(id) && ("run:" + id in roles || "run:*" in roles)
  {
    ReadOnlyMethods(verb);
    StartText();
    MutationDecisions(verb, if run then ["rest", "workflows", "run"] else ["rest", "executions"], body, roles);
  }

  lemma StartRead(verb: string, run: bool)
    requires verb == "POST" || verb == "PUT" || verb == "PATCH" || verb == "DELETE"
    ensures var path := if run then "/rest/workflows/run" else "/rest/executions";
            BodyRead(verb, path) && (Sanitized(verb, path) <==> run)
  {
    assert "/rest/executions"[6] != "/rest/workflows"[6];
    assert "/rest/workflows/run" == "/rest/workflows" + "/run";
  }

  // ---------- the workflow a body names ----------

  /** A non-empty workflowData.id wins, then workflowId; any other body names none. */
  lemma WorkflowNamed(fields: map<string, Json>)
    ensures WorkflowID(Empty) == "" && WorkflowID(NotAnObject) == ""
    ensures forall inner, id :: Lookup(fields, "workflowData") == Some(JObject(inner)) && Lookup(inner, "id") == Some(JString(id)) && id != "" ==>
              WorkflowID(Object(fields)) == id
    ensures (forall inner, id :: Lookup(fields, "workflowData") == Some(JObject(inner)) && Lookup(inner, "id") == Some(JString(id)) ==> id == "") ==>
            && (forall id :: Lookup(fields, "workflowId") == Some(JString(id)) ==> WorkflowID(Object(fields)) == id)
            && ((forall id :: Lookup(fields, "workflowId") != Some(JString(id))) ==> WorkflowID(Object(fields)) == "")
  {
    if Lookup(fields, "workflowId").Some? && Lookup(fields, "workflowId").value.JString? {
      assert Lookup(fields, "workflowId") == Some(JString(fields["workflowId"].s));
    }
    if Lookup(fields, "workflowData").Some? && fields["workflowData"].JObject? {
      var inner := fields["workflowData"].fields;
      assert Lookup(fields, "workflowData") == Some(JObject(inner));
      if "id" in inner && inner["id"].JString? {
        assert Lookup(inner, "id") == Some(JString(inner["id"].s));
      }
    }
  }
}
