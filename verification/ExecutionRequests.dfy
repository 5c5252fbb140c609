/** Execution requests (internal/execution/request.go): one consumed approval and one
    allowing policy evaluation bound to a logical operation. SHA-256 is a parameter. */
module ExecutionRequests {
  import opened Text
  import opened Receipts
  import opened Approvals

  // ---------------------------------------------------------------- length-prefixed framing

  function Framed(parts: seq<string>): string {
    if parts == [] then ""
    else Framed(parts[..|parts| - 1]) + Prefixed(parts[|parts| - 1])
  }

  function Prefixed(part: string): string { NatToString(ByteLength(part)) + [':'] + part }

  const NEWLINE: char := '\n'
  const EXECUTION_DOMAIN := "WIZPAY_MCP_EXECUTION_V1\n"
  const REQUEST_DOMAIN := "WIZPAY_MCP_EXECUTION_REQUEST_V1\n"
  const EVALUATION_DOMAIN := "WIZPAY_MCP_POLICY_EVALUATION_REFERENCE_V1\n"

  /** The text the source feeds to SHA-256. */
  method Preimage(domain: string, parts: seq<string>) returns (written: string)
    ensures written == domain + Framed(parts)
  {
    written := domain;
    var i := 0;
    while i < |parts|
      invariant i <= |parts|
      invariant written == domain + Framed(parts[..i])
    {
      assert parts[..i + 1][..i] == parts[..i];
      written := written + Prefixed(parts[i]);
      i := i + 1;
    }
    assert parts[..i] == parts;
  }

  /** The same text, read from the front. */
  function FromFront(parts: seq<string>): string {
    if parts == [] then "" else Prefixed(parts[0]) + FromFront(parts[1..])
  }

  lemma {:induction false} FramedFromFront(parts: seq<string>)
    ensures Framed(parts) == FromFront(parts)
  {
    if parts != [] {
      FromFrontSnoc(parts[..|parts| - 1], parts[|parts| - 1]);
      FramedFromFront(parts[..|parts| - 1]);
      assert parts == parts[..|parts| - 1] + [parts[|parts| - 1]];
    }
  }

  lemma {:induction false} FromFrontSnoc(parts: seq<string>, part: string)
    ensures FromFront(parts + [part]) == FromFront(parts) + Prefixed(part)
  {
    if parts == [] {
      assert parts + [part] == [part];
      assert [part][1..] == [];
    } else {
      assert (parts + [part])[1..] == parts[1..] + [part];
      FromFrontSnoc(parts[1..], part);
    }
  }

  /** Texts of equal byte length that start the same text are equal. */
  lemma {:induction false} SamePrefix(a: string, x: string, b: string, y: string)
    requires a + x == b + y && ByteLength(a) == ByteLength(b)
    ensures a == b && x == y
  {
    if a == "" || b == "" {
      assert a == b == "";
      assert a + x == x && b + y == y;
    } else {
      assert (a + x)[0] == a[0] && (b + y)[0] == b[0];
      assert (a + x)[1..] == a[1..] + x && (b + y)[1..] == b[1..] + y;
      SamePrefix(a[1..], x, b[1..], y);
      assert a == [a[0]] + a[1..] && b == [b[0]] + b[1..];
    }
  }

  /** Texts cut at the first occurrence of a separator. */
  lemma CutAtFirst(m: string, t: string, n: string, u: string, sep: char)
    requires sep !in m && sep !in n && m + [sep] + t == n + [sep] + u
    ensures m == n && t == u
  {
    IndexOfFirst(m, sep, t);
    IndexOfFirst(n, sep, u);
    var s := m + [sep] + t;
    assert m == s[..|m|] && n == s[..|n|];
    assert t == s[|m| + 1..] && u == s[|n| + 1..];
  }

  lemma PrefixedIsInjective(a: string, x: string, b: string, y: string)
    requires Prefixed(a) + x == Prefixed(b) + y
    ensures a == b && x == y
  {
    hide ByteLength, NatToString;
    var m, n := NatToString(ByteLength(a)), NatToString(ByteLength(b));
    assert Prefixed(a) + x == m + [':'] + (a + x);
    assert Prefixed(b) + y == n + [':'] + (b + y);
    CutAtFirst(m, a + x, n, b + y, ':');
    ParsePrint(ByteLength(a));
    ParsePrint(ByteLength(b));
    SamePrefix(a, x, b, y);
  }

  lemma {:induction false} FromFrontIsInjective(a: seq<string>, b: seq<string>)
    requires FromFront(a) == FromFront(b)
    ensures a == b
  {
    if a != [] && b != [] {
      PrefixedIsInjective(a[0], FromFront(a[1..]), b[0], FromFront(b[1..]));
      FromFrontIsInjective(a[1..], b[1..]);
      assert a == [a[0]] + a[1..] && b == [b[0]] + b[1..];
    }
  }

  /** Framing is injective: different lists of parts, also of different lengths, are never
      written alike. */
  lemma FramingIsInjective(a: seq<string>, b: seq<string>)
    requires Framed(a) == Framed(b)
    ensures a == b
  {
    FramedFromFront(a);
    FramedFromFront(b);
    FromFrontIsInjective(a, b);
  }

  /** A domain is one line. */
  predicate IsDomain(d: string) { d != "" && d[|d| - 1] == NEWLINE && NEWLINE !in d[..|d| - 1] }

  /** Domains separate: preimages agree only for the same domain and the same parts. */
  lemma PreimageIsInjective(d: string, a: seq<string>, e: string, b: seq<string>)
    requires IsDomain(d) && IsDomain(e) && d + Framed(a) == e + Framed(b)
    ensures d == e && a == b
  {
    hide Framed;
    var x, y := d[..|d| - 1], e[..|e| - 1];
    assert d == x + [NEWLINE] && e == y + [NEWLINE];
    CutAtFirst(x, Framed(a), y, Framed(b), NEWLINE);
    FramingIsInjective(a, b);
  }

  lemma DomainsAreLines()
    ensures IsDomain(EXECUTION_DOMAIN) && IsDomain(REQUEST_DOMAIN) && IsDomain(EVALUATION_DOMAIN)
  {
  }

  // ---------------------------------------------------------------- requests

  const REQUEST_VERSION := 1

  datatype IntentStatus = Draft | Created | ApprovedIntent | ReadyForExecution | OtherStatus

  /** The parts of an intent that authorization reads; `valid` is what Intent.Validate answers. */
  datatype Intent = Intent(
    id: string, version: uint64, digest: string, valid: bool, status: IntentStatus, owner: Owner,
    expiresAt: Time, deadline: Time, policyReference: string)

  datatype Outcome = Allow | Deny | RequireReview

  datatype Stage = BeforeApproval | BeforeExecution

  datatype PolicyResult = PolicyResult(
    policyID: string, policyVersion: uint64, intentID: string, intentVersion: uint64, intentDigest: string,
    stage: Stage, decision: Outcome, evaluatedAt: Time, findings: nat)

  /** `sha` maps a preimage to its hexadecimal digest, `print` an instant to its RFC 3339 text. */
  datatype Hashing = Hashing(sha: string -> string, instant: Time -> string, operation: Intent -> Option<Operation>)

  datatype Request = Request(
    requestID: string, requestKey: string, version: uint64, executionID: string,
    operationKey: string, operationVersion: uint64, intentID: string, intentVersion: uint64, intentDigest: string,
    approvalID: string, approvalVersion: uint64, policyID: string, policyVersion: uint64,
    policyEvaluationKey: string, stage: Stage, policyEvaluatedAt: Time, createdAt: Time)

  function StageName(s: Stage): string { if s == BeforeExecution then "BEFORE_EXECUTION" else "BEFORE_APPROVAL" }

  function OutcomeName(o: Outcome): string {
    match o
    case Allow => "ALLOW"
    case Deny => "DENY"
    case RequireReview => "REQUIRE_REVIEW"
  }

  function ExecutionIDOf(h: Hashing, key: string, version: uint64): string {
    "exec_" + h.sha(EXECUTION_DOMAIN + Framed([key, NatToString(version)]))
  }

  function EvaluationKeyOf(h: Hashing, r: PolicyResult): string {
    var parts := [r.policyID, NatToString(r.policyVersion), r.intentID, NatToString(r.intentVersion), r.intentDigest,
                  StageName(r.stage), h.instant(r.evaluatedAt), OutcomeName(r.decision)];
    h.sha(EVALUATION_DOMAIN + Framed(parts))
  }

  function RequestKeyOf(
    h: Hashing, key: string, version: uint64, approvalID: string, approvalVersion: uint64, evaluation: string): string {
    h.sha(REQUEST_DOMAIN + Framed([key, NatToString(version), approvalID, NatToString(approvalVersion), evaluation]))
  }

  /** The policy evaluation a request names. */
  function EvaluationOf(r: Request): PolicyResult {
    PolicyResult(r.policyID, r.policyVersion, r.intentID, r.intentVersion, r.intentDigest, r.stage, Allow,
                 r.policyEvaluatedAt, 0)
  }

  predicate ValidRequest(h: Hashing, r: Request) {
    && ValidText(r.requestID) && ValidText(r.requestKey) && ValidText(r.executionID) && ValidText(r.operationKey)
    && ValidText(r.intentID) && ValidText(r.intentDigest) && ValidText(r.approvalID) && ValidText(r.policyID)
    && ValidText(r.policyEvaluationKey)
    && r.version == REQUEST_VERSION && r.operationVersion != 0 && r.intentVersion != 0 && r.approvalVersion != 0
    && r.policyVersion != 0 && r.stage == BeforeExecution
    && r.policyEvaluatedAt != 0 && r.createdAt != 0 && r.policyEvaluatedAt <= r.createdAt
    && r.executionID == ExecutionIDOf(h, r.operationKey, r.operationVersion)
    && r.policyEvaluationKey == EvaluationKeyOf(h, EvaluationOf(r))
    && r.requestKey == RequestKeyOf(h, r.operationKey, r.operationVersion, r.approvalID, r.approvalVersion,
                                    r.policyEvaluationKey)
    && r.requestID == "exreq_" + r.requestKey
  }

  predicate ApprovalMatches(i: Intent, a: Approval, op: Operation) {
    && a.status == Consumed && a.decision == ApprovedDecision
    && a.binding.intentID == i.id && a.binding.intentVersion == i.version && a.binding.intentDigest == i.digest
    && a.binding.owner == i.owner
    && a.operationKey == op.key && a.operationVersion == op.version
  }

  predicate EvaluationMatches(i: Intent, a: Approval, p: PolicyResult) {
    && p.decision == Allow && p.stage == BeforeExecution && p.findings == 0 && p.policyID != "" && p.policyVersion != 0
    && p.intentID == i.id && p.intentVersion == i.version && p.intentDigest == i.digest
    && p.evaluatedAt != 0 && p.evaluatedAt <= a.consumedAt
    && i.policyReference == p.policyID + ":" + NatToString(p.policyVersion)
  }

  function Bound(h: Hashing, i: Intent, a: Approval, p: PolicyResult, op: Operation): Request {
    var evaluation := EvaluationKeyOf(h, p);
    var key := RequestKeyOf(h, op.key, op.version, a.binding.approvalID, a.binding.version, evaluation);
    Request("exreq_" + key, key, REQUEST_VERSION, ExecutionIDOf(h, op.key, op.version), op.key, op.version,
            i.id, i.version, i.digest, a.binding.approvalID, a.binding.version, p.policyID, p.policyVersion,
            evaluation, p.stage, p.evaluatedAt, a.consumedAt)
  }

  function NewRequest(h: Hashing, i: Intent, a: Approval, p: PolicyResult, at: Time): Option<Request> {
    if !i.valid || !ValidApproval(a) || at == 0 then None
    else if i.status != ApprovedIntent && i.status != ReadyForExecution then None
    else if at >= i.expiresAt || at >= i.deadline then None
    else if h.operation(i).None? then None
    else
      var op := h.operation(i).value;
      if !ApprovalMatches(i, a, op) || a.consumedAt > at || !EvaluationMatches(i, a, p) then None
      else
        var r := Bound(h, i, a, p, op);
        if ValidRequest(h, r) then Some(r) else None
  }

  /** Every accepted request names exactly that consumed approval, that intent digest and an
      ALLOW evaluation made no later than the consumption, which is no later than the request. */
  lemma RequestBinds(h: Hashing, i: Intent, a: Approval, p: PolicyResult, at: Time)
    requires NewRequest(h, i, a, p, at).Some?
    ensures var r := NewRequest(h, i, a, p, at).value;
            && ValidRequest(h, r)
            && a.status == Consumed && a.decision == ApprovedDecision && a.binding.owner == i.owner
            && r.approvalID == a.binding.approvalID && r.approvalVersion == a.binding.version
            && r.operationKey == a.operationKey && r.operationVersion == a.operationVersion
            && r.intentDigest == a.binding.intentDigest == i.digest == p.intentDigest
            && r.intentID == a.binding.intentID && r.intentVersion == a.binding.intentVersion
            && p.decision == Allow && p.stage == BeforeExecution
            && r.policyID == p.policyID && r.policyVersion == p.policyVersion
            && r.policyEvaluatedAt == p.evaluatedAt <= r.createdAt == a.consumedAt <= at < i.expiresAt
            && r.policyEvaluationKey == EvaluationKeyOf(h, p)
  {
    hide ValidBinding, Framed;
  }

  /** With a collision-free hash, the request key determines the authority behind it. */
  lemma RequestKeyDetermines(h: Hashing, a: Request, b: Request)
    requires Injective(h.sha) && ValidRequest(h, a) && ValidRequest(h, b) && a.requestKey == b.requestKey
    ensures a.operationKey == b.operationKey && a.operationVersion == b.operationVersion
    ensures a.approvalID == b.approvalID && a.approvalVersion == b.approvalVersion
    ensures a.policyID == b.policyID && a.policyVersion == b.policyVersion
    ensures a.intentID == b.intentID && a.intentVersion == b.intentVersion && a.intentDigest == b.intentDigest
    ensures a.executionID == b.executionID && h.instant(a.policyEvaluatedAt) == h.instant(b.policyEvaluatedAt)
  {
    DomainsAreLines();
    KeyDetermines(h, a, b);
    EvaluationDetermines(h, EvaluationOf(a), EvaluationOf(b));
  }

  lemma KeyDetermines(h: Hashing, a: Request, b: Request)
    requires Injective(h.sha) && IsDomain(REQUEST_DOMAIN)
    requires RequestKeyOf(h, a.operationKey, a.operationVersion, a.approvalID, a.approvalVersion, a.policyEvaluationKey)
          == RequestKeyOf(h, b.operationKey, b.operationVersion, b.approvalID, b.approvalVersion, b.policyEvaluationKey)
    ensures a.operationKey == b.operationKey && a.operationVersion == b.operationVersion
    ensures a.approvalID == b.approvalID && a.approvalVersion == b.approvalVersion
    ensures a.policyEvaluationKey == b.policyEvaluationKey
  {
    hide Framed, IsDomain, NatToString;
    var x := [a.operationKey, NatToString(a.operationVersion), a.approvalID, NatToString(a.approvalVersion),
              a.policyEvaluationKey];
    var y := [b.operationKey, NatToString(b.operationVersion), b.approvalID, NatToString(b.approvalVersion),
              b.policyEvaluationKey];
    PreimageIsInjective(REQUEST_DOMAIN, x, REQUEST_DOMAIN, y);
    assert x[0] == y[0] && x[1] == y[1] && x[2] == y[2] && x[3] == y[3] && x[4] == y[4];
    ParsePrint(a.operationVersion);
    ParsePrint(b.operationVersion);
    ParsePrint(a.approvalVersion);
    ParsePrint(b.approvalVersion);
  }

  lemma EvaluationDetermines(h: Hashing, a: PolicyResult, b: PolicyResult)
    requires Injective(h.sha) && IsDomain(EVALUATION_DOMAIN) && EvaluationKeyOf(h, a) == EvaluationKeyOf(h, b)
    ensures a.policyID == b.policyID && a.policyVersion == b.policyVersion
    ensures a.intentID == b.intentID && a.intentVersion == b.intentVersion && a.intentDigest == b.intentDigest
    ensures h.instant(a.evaluatedAt) == h.instant(b.evaluatedAt)
  {
    hide Framed, IsDomain, NatToString, StageName, OutcomeName;
    var x := [a.policyID, NatToString(a.policyVersion), a.intentID, NatToString(a.intentVersion), a.intentDigest,
              StageName(a.stage), h.instant(a.evaluatedAt), OutcomeName(a.decision)];
    var y := [b.policyID, NatToString(b.policyVersion), b.intentID, NatToString(b.intentVersion), b.intentDigest,
              StageName(b.stage), h.instant(b.evaluatedAt), OutcomeName(b.decision)];
    PreimageIsInjective(EVALUATION_DOMAIN, x, EVALUATION_DOMAIN, y);
    assert x[0] == y[0] && x[1] == y[1] && x[2] == y[2] && x[3] == y[3] && x[4] == y[4] && x[6] == y[6];
    ParsePrint(a.policyVersion);
    ParsePrint(b.policyVersion);
    ParsePrint(a.intentVersion);
    ParsePrint(b.intentVersion);
  }
}
