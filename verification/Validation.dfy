/**
 Validation of a ticket request (knox-proxy/jit/handler.go). Time stamps arrive already
 parsed (None when they are not RFC 3339); strings are ASCII.
 */
module Validation {
  import opened Options
  import opened Tickets
  import opened Texts

  const MAX_INT64: int := 0x7fff_ffff_ffff_ffff
  const MIN_INT64: int := -0x8000_0000_0000_0000

  /** Go's time.Duration: nanoseconds in an int64. */
  type Duration = d: int | MIN_INT64 <= d <= MAX_INT64

  /** Go's Time.Sub, which saturates instead of overflowing. */
  function Sub(t: Instant, u: Instant): Duration {
    if t - u > MAX_INT64 then MAX_INT64 else if t - u < MIN_INT64 then MIN_INT64 else t - u
  }

  datatype CreateRequest = CreateRequest(
    workflowID: string, accessType: seq<string>,
    periodStart: Option<Instant>, periodEnd: Option<Instant>, description: string)

  datatype Error =
    | WorkflowRequired | WorkflowInvalid
    | AccessRequired | AccessInvalid(value: string)
    | StartMalformed | EndMalformed | EndNotAfterStart | TooLong
    | DescriptionRequired | DescriptionTooShort

  predicate IsIdChar(c: char) {
    'a' <= c <= 'z' || 'A' <= c <= 'Z' || '0' <= c <= '9' || c == '-' || c == '_'
  }

  /** The regular expression ^[a-zA-Z0-9\-_]+$, shared by tickets and the policy engine. */
  predicate IsValidID(s: string) {
    s != "" && forall i :: 0 <= i < |s| ==> IsIdChar(s[i])
  }

  predicate IsSpace(c: char) {
    c in {' ', '\t', '\n', '\r', '\U{0B}', '\U{0C}'}
  }

  function TrimSpace(s: string): string {
    if s == "" then ""
    else if IsSpace(s[0]) then TrimSpace(s[1..])
    else if IsSpace(s[|s| - 1]) then TrimSpace(s[..|s| - 1])
    else s
  }

  predicate Blank(c: char) {
    c == ' ' || c == '\t' || c == '\n' || c == '\r' || c == '\U{0B}' || c == '\U{0C}'
  }

  /** Trimming takes all blanks off both ends, and nothing else. */
  lemma {:induction false} TrimSpaceTrims(s: string) returns (i: nat, j: nat)
    ensures i <= j <= |s| && TrimSpace(s) == s[i..j]
    ensures forall k :: 0 <= k < i || j <= k < |s| ==> Blank(s[k])
    ensures i < j ==> !Blank(s[i]) && !Blank(s[j - 1])
    decreases |s|
  {
    if s != "" && IsSpace(s[0]) {
      i, j := TrimSpaceTrims(s[1..]);
      assert s[1..][i..j] == s[i + 1..j + 1];
      assert forall k :: 1 <= k < |s| ==> s[k] == s[1..][k - 1];
      i, j := i + 1, j + 1;
    } else if s != "" && IsSpace(s[|s| - 1]) {
      i, j := TrimSpaceTrims(s[..|s| - 1]);
      assert s[..|s| - 1][i..j] == s[i..j];
    } else {
      i, j := 0, |s|;
    }
  }

  /** sort.Strings and strings.Join on accepted access types, which are only "edit" and "run". */
  function AccessString(access: seq<string>): string {
    JoinWith(Only(access, "edit") + Only(access, "run"), ',')
  }

  function Only(access: seq<string>, which: string): seq<string> {
    if access == [] then []
    else (if access[0] == which then [which] else []) + Only(access[1..], which)
  }

  lemma {:induction false} OnlyCounts(access: seq<string>, which: string, a: string)
    ensures multiset(Only(access, which))[a] == if a == which then multiset(access)[a] else 0
    ensures forall i :: 0 <= i < |Only(access, which)| ==> Only(access, which)[i] == which
  {
    if access != [] {
      OnlyCounts(access[1..], which, a);
      assert access == [access[0]] + access[1..];
    }
  }

  lemma BothCount(access: seq<string>, a: string)
    requires forall x :: x in access ==> x == "run" || x == "edit"
    ensures multiset(Only(access, "edit") + Only(access, "run"))[a] == multiset(access)[a]
  {
    OnlyCounts(access, "edit", a);
    OnlyCounts(access, "run", a);
    assert a != "run" && a != "edit" ==> a !in access;
  }

  predicate EditsFirst(parts: seq<string>) {
    forall i, j :: 0 <= i < j < |parts| ==> parts[i] == "edit" || parts[j] == "run"
  }

  lemma EditsThenRuns(access: seq<string>)
    ensures EditsFirst(Only(access, "edit") + Only(access, "run"))
    ensures AllWithout(Only(access, "edit") + Only(access, "run"), ',')
  {
    OnlyCounts(access, "edit", "");
    OnlyCounts(access, "run", "");
  }

  /** The stored text, split at its commas, is the accepted access types in sorted order. */
  lemma AccessStringReads(access: seq<string>)
    requires access != [] && forall a :: a in access ==> a == "run" || a == "edit"
    ensures multiset(SplitAt(AccessString(access), ',')) == multiset(access)
    ensures EditsFirst(SplitAt(AccessString(access), ','))
  {
    var parts := Only(access, "edit") + Only(access, "run");
    forall a
      ensures multiset(parts)[a] == multiset(access)[a]
    {
      BothCount(access, a);
    }
    assert multiset(parts) == multiset(access);
    assert |multiset(parts)| == |multiset(access)| > 0;
    EditsThenRuns(access);
    SplitJoin(parts, ',');
  }

  /** A stamp that does not parse is the zero time, and either zero time switches both period checks off. */
  predicate PeriodChecked(req: CreateRequest) {
    req.periodStart.Some? && req.periodEnd.Some? && req.periodStart.value != 0 && req.periodEnd.value != 0
  }

  predicate PeriodAccepted(start: Instant, end: Instant, maxDuration: Duration) {
    start == 0 || end == 0 || (start < end && Sub(end, start) <= maxDuration)
  }

  /** All the period's length and direction aside. */
  predicate AcceptableApart(req: CreateRequest) {
    && IsValidID(req.workflowID)
    && req.accessType != [] && (forall a :: a in req.accessType ==> a in {"run", "edit"})
    && req.periodStart.Some? && req.periodEnd.Some?
    && |TrimSpace(req.description)| >= 10
  }

  predicate Acceptable(req: CreateRequest, maxDuration: Duration) {
    AcceptableApart(req) && PeriodAccepted(req.periodStart.value, req.periodEnd.value, maxDuration)
  }

  /** What each message says about the request. */
  predicate Complaint(req: CreateRequest, maxDuration: Duration, e: Error) {
    match e
    case WorkflowRequired => req.workflowID == ""
    case WorkflowInvalid => req.workflowID != "" && !IsValidID(req.workflowID)
    case AccessRequired => req.accessType == []
    case AccessInvalid(a) => a in req.accessType && a != "run" && a != "edit"
    case StartMalformed => req.periodStart.None?
    case EndMalformed => req.periodEnd.None?
    case EndNotAfterStart => PeriodChecked(req) && req.periodEnd.value <= req.periodStart.value
    case TooLong => PeriodChecked(req) && Sub(req.periodEnd.value, req.periodStart.value) > maxDuration
    case DescriptionRequired => TrimSpace(req.description) == ""
    case DescriptionTooShort => 0 < |TrimSpace(req.description)| < 10
  }

  method AccessErrors(access: seq<string>) returns (errs: seq<Error>)
    ensures forall e :: e in errs <==> e.AccessInvalid? && e.value in access && e.value != "run" && e.value != "edit"
    ensures forall v :: multiset(errs)[AccessInvalid(v)] == if v == "run" || v == "edit" then 0 else multiset(access)[v]
  {
    errs := [];
    for i := 0 to |access|
      invariant forall e :: e in errs <==> e.AccessInvalid? && e.value in access[..i] && e.value != "run" && e.value != "edit"
      invariant forall v :: multiset(errs)[AccessInvalid(v)] == if v == "run" || v == "edit" then 0 else multiset(access[..i])[v]
    {
      assert access[..i + 1] == access[..i] + [access[i]];
      if access[i] != "run" && access[i] != "edit" {
        errs := errs + [AccessInvalid(access[i])];
      }
    }
    assert access[..|access|] == access;
  }

  method ValidateCreateRequest(req: CreateRequest, maxDuration: Duration) returns (errs: seq<Error>)
    ensures forall e :: e in errs <==> Complaint(req, maxDuration, e)
    ensures errs == [] <==> Acceptable(req, maxDuration)
  {
    errs := [];
    if req.workflowID == "" {
      errs := errs + [WorkflowRequired];
    } else if !IsValidID(req.workflowID) {
      errs := errs + [WorkflowInvalid];
    }
    var accessErrs := AccessErrors(req.accessType);
    if |req.accessType| == 0 {
      errs := errs + [AccessRequired];
    } else {
      errs := errs + accessErrs;
    }
    if req.periodStart.None? {
      errs := errs + [StartMalformed];
    }
    if req.periodEnd.None? {
      errs := errs + [EndMalformed];
    }
    if PeriodChecked(req) {
      var start, end := req.periodStart.value, req.periodEnd.value;
      if !(end > start) {
        errs := errs + [EndNotAfterStart];
      }
      if Sub(end, start) > maxDuration {
        errs := errs + [TooLong];
      }
    }
    var trimmed := TrimSpace(req.description);
    if trimmed == "" {
      errs := errs + [DescriptionRequired];
    } else if |trimmed| < 10 {
      errs := errs + [DescriptionTooShort];
    }
    assert forall e :: e in errs <==> Complaint(req, maxDuration, e);
    SilentIffAcceptable(req, maxDuration, errs);
  }

  lemma SilentIffAcceptable(req: CreateRequest, maxDuration: Duration, errs: seq<Error>)
    requires forall e :: e in errs <==> Complaint(req, maxDuration, e)
    ensures errs == [] <==> Acceptable(req, maxDuration)
  {
    NoComplaint(req, maxDuration);
    if errs != [] {
      assert errs[0] in errs;
    }
  }

  lemma NoComplaint(req: CreateRequest, maxDuration: Duration)
    ensures Acceptable(req, maxDuration) <==> forall e :: !Complaint(req, maxDuration, e)
  {
    if forall e :: !Complaint(req, maxDuration, e) {
      assert !Complaint(req, maxDuration, WorkflowRequired) && !Complaint(req, maxDuration, WorkflowInvalid);
      assert !Complaint(req, maxDuration, AccessRequired);
      forall a | a in req.accessType
        ensures a in {"run", "edit"}
      {
        assert !Complaint(req, maxDuration, AccessInvalid(a));
      }
      assert !Complaint(req, maxDuration, StartMalformed) && !Complaint(req, maxDuration, EndMalformed);
      assert !Complaint(req, maxDuration, EndNotAfterStart) && !Complaint(req, maxDuration, TooLong);
      assert !Complaint(req, maxDuration, DescriptionRequired) && !Complaint(req, maxDuration, DescriptionTooShort);
    }
  }

  /** Away from the zero time, the saturating test is exact for every period iff the limit is below MaxInt64. */
  lemma PeriodTestExact(maxDuration: Duration)
    ensures maxDuration < MAX_INT64 <==>
      forall start, end | start != 0 && end != 0 ::
        PeriodAccepted(start, end, maxDuration) <==> start < end && end - start <= maxDuration
  {
    if maxDuration >= MAX_INT64 {
      assert PeriodAccepted(1, MAX_INT64 + 2, maxDuration);
    }
  }

  lemma {:induction false} TrimmedSpan(s: string)
    ensures |TrimSpace(s)| >= 10 <==> exists i, k :: 0 <= i <= k < |s| && k - i >= 9 && !Blank(s[i]) && !Blank(s[k])
  {
    var a, b := TrimSpaceTrims(s);
    if |TrimSpace(s)| >= 10 {
      assert 0 <= a <= b - 1 < |s| && b - 1 - a >= 9 && !Blank(s[a]) && !Blank(s[b - 1]);
    }
  }

  /**
   What is accepted: a workflow id of letters, digits, dashes and underscores, access types
   among run and edit, two time stamps with a true period within the limit or a zero time, and
   a description that is ten characters long from its first to its last that is not blank.
   */
  lemma AcceptableMeans(req: CreateRequest, maxDuration: Duration)
    requires maxDuration < MAX_INT64
    ensures Acceptable(req, maxDuration) <==>
      && req.workflowID != ""
      && (forall i :: 0 <= i < |req.workflowID| ==>
            var c := req.workflowID[i];
            'a' <= c <= 'z' || 'A' <= c <= 'Z' || '0' <= c <= '9' || c == '-' || c == '_')
      && req.accessType != [] && (forall a :: a in req.accessType ==> a == "run" || a == "edit")
      && req.periodStart.Some? && req.periodEnd.Some?
      && (req.periodStart == Some(0) || req.periodEnd == Some(0)
          || 0 < req.periodEnd.value - req.periodStart.value <= maxDuration)
      && (exists i, k :: 0 <= i <= k < |req.description| && k - i >= 9
                         && !Blank(req.description[i]) && !Blank(req.description[k]))
  {
    TrimmedSpan(req.description);
    PeriodTestExact(maxDuration);
    assert forall i :: 0 <= i < |req.workflowID| ==> (IsIdChar(req.workflowID[i]) <==>
      (var c := req.workflowID[i]; 'a' <= c <= 'z' || 'A' <= c <= 'Z' || '0' <= c <= '9' || c == '-' || c == '_'));
  }

  /**
   With the limit below MaxInt64, the period test is right for every end iff the start is not
   the zero time, and for every start iff the end is not.
   */
  lemma PeriodTestRightIff(maxDuration: Duration, bound: Instant)
    requires maxDuration < MAX_INT64
    ensures bound != 0 <==>
      forall end | end != 0 :: PeriodAccepted(bound, end, maxDuration) <==> bound < end && end - bound <= maxDuration
    ensures bound != 0 <==>
      forall start | start != 0 :: PeriodAccepted(start, bound, maxDuration) <==> start < bound && bound - start <= maxDuration
  {
    assert PeriodAccepted(0, -1, maxDuration) && PeriodAccepted(1, 0, maxDuration);
  }

  /**
   For an otherwise acceptable request, acceptance means a true, bounded period when neither
   stamp is the zero time, and nothing at all when one is.
   */
  lemma AcceptedPeriod(req: CreateRequest, maxDuration: Duration)
    requires maxDuration < MAX_INT64 && AcceptableApart(req)
    ensures Acceptable(req, maxDuration) <==>
      (PeriodChecked(req) ==> 0 < req.periodEnd.value - req.periodStart.value <= maxDuration)
  {
    PeriodTestExact(maxDuration);
  }

  /** The zero time escapes both checks: a period that ends before it starts is accepted. */
  lemma ZeroTimeEscapes(maxDuration: Duration)
    ensures var req := CreateRequest("wf", ["run"], Some(5), Some(0), "0123456789");
            Acceptable(req, maxDuration) && req.periodEnd.value < req.periodStart.value
  {
    var req := CreateRequest("wf", ["run"], Some(5), Some(0), "0123456789");
    assert TrimSpace("0123456789") == "0123456789";
    assert req.accessType == ["run"];
  }
}
