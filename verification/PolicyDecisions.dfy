/** What a policy decides, rule kind by rule kind, over the intent itself: exactly when an
    evaluation allows, why it refuses, and which rules it reports
    (internal/policies/evaluator.go). */
module PolicyDecisions {
  import opened Text
  import opened Receipts
  import opened Amounts
  import opened Intents
  import opened Ordering
  import opened Policies

  // ---------------------------------------------------------------- what an intent touches

  function PayrollSource(p: Payroll): Token { if p.tokenIn == NO_TOKEN then p.token else p.tokenIn }

  /** The token an intent spends. */
  function Spent(f: Financial): Token {
    match f
    case SendPayment(token, _, _) => token
    case PayrollPayment(p) => PayrollSource(p)
    case SwapPayment(s) => s.inputToken
    case BridgePayment(token, _, _, _, _) => token
    case AnsPayment(token, _, _) => token
  }

  /** How much of it, in base units: a same-token payroll with its highest fee of one
      percent, a cross-token payroll with its gross input. */
  function Spending(f: Financial): Option<int> {
    match f
    case SendPayment(_, amount, _) => ParseBig(amount.baseUnits)
    case PayrollPayment(p) =>
      if ValidSameToken(p) then Some(BaseUnits(p.total) + BaseUnits(p.total) / 100)
      else if ValidCrossToken(p) then Some(BaseUnits(p.crossToken.value.grossInput))
      else ParseBig(p.total.baseUnits)
    case SwapPayment(s) => ParseBig(s.inputAmount.baseUnits)
    case BridgePayment(_, amount, _, _, _) => ParseBig(amount.baseUnits)
    case AnsPayment(_, cost, _) => ParseBig(cost.baseUnits)
  }

  function Chains(f: Financial): set<string> {
    match f
    case SendPayment(token, _, _) => {token.chainID}
    case PayrollPayment(p) => {PayrollSource(p).chainID}
    case SwapPayment(s) => {s.inputToken.chainID, s.outputToken.chainID}
    case BridgePayment(_, _, from, to, _) => {from, to}
    case AnsPayment(token, _, _) => {token.chainID}
  }

  function Tokens(f: Financial): set<Token> {
    if f.SwapPayment? then {f.swap.inputToken, f.swap.outputToken} else {Spent(f)}
  }

  function Recipients(f: Financial): set<string> {
    match f
    case SendPayment(_, _, recipient) => {recipient}
    case PayrollPayment(p) => set r | r in p.recipients :: r.address
    case SwapPayment(_) => {}
    case BridgePayment(_, _, _, _, destination) => {destination}
    case AnsPayment(_, _, controller) => {controller}
  }

  /** The times an intent must be done by; the earliest one binds. */
  function Ends(i: Intent): set<Time> {
    {i.deadline, i.expiresAt}
    + (if i.financial.PayrollPayment? && ValidCrossToken(i.financial.payroll)
       then {i.financial.payroll.crossToken.value.deadline} else {})
  }

  predicate Listed(t: Token, tokens: seq<TokenReference>) {
    exists u | u in tokens :: TokenKey(u) == TokenKey(ReferenceOf(t))
  }

  // ---------------------------------------------------------------- one rule

  predicate Passes(body: RuleBody, i: Intent, at: Time) {
    var f := i.financial;
    match body
    case OperationAllowlist(operations) => KindOf(f) in operations
    case SpendingLimit(types, token, maximum) =>
      KindOf(f) in types ==>
        && TokenKey(token) == TokenKey(ReferenceOf(Spent(f)))
        && Spending(f).Some? && ParseBig(maximum.baseUnits).Some?
        && Spending(f).value <= ParseBig(maximum.baseUnits).value
    case ChainAllowlist(chains) => forall c | c in Chains(f) :: c in chains
    case TokenAllowlist(tokens) => forall t | t in Tokens(f) :: Listed(t, tokens)
    case RecipientAllowlist(recipients) => forall r | r in Recipients(f) :: r in recipients
    case Expiration(maxLifetime, minimumRemaining) =>
      && (maxLifetime > 0 ==> exists end | end in Ends(i) :: end - i.createdAt <= maxLifetime * SECOND)
      && (minimumRemaining > 0 ==> forall end | end in Ends(i) :: end - at >= minimumRemaining * SECOND)
  }

  /** The rule is violated, for that reason. */
  predicate Breaks(body: RuleBody, i: Intent, at: Time, reason: Reason) {
    var f := i.financial;
    match body
    case OperationAllowlist(operations) => KindOf(f) !in operations && reason == OperationNotAllowed
    case SpendingLimit(types, token, maximum) =>
      && KindOf(f) in types
      && (if TokenKey(token) != TokenKey(ReferenceOf(Spent(f))) then reason == TokenNotAllowed else
            && Spending(f).Some? && ParseBig(maximum.baseUnits).Some?
            && Spending(f).value > ParseBig(maximum.baseUnits).value && reason == SpendingLimitExceeded)
    case ChainAllowlist(chains) => (exists c | c in Chains(f) :: c !in chains) && reason == ChainNotAllowed
    case TokenAllowlist(tokens) => (exists t | t in Tokens(f) :: !Listed(t, tokens)) && reason == TokenNotAllowed
    case RecipientAllowlist(recipients) =>
      (exists r | r in Recipients(f) :: r !in recipients) && reason == RecipientNotAllowed
    case Expiration(maxLifetime, minimumRemaining) =>
      && reason == ExpirationConstraintViolated
      && (|| (maxLifetime > 0 && forall end | end in Ends(i) :: end - i.createdAt > maxLifetime * SECOND)
          || (minimumRemaining > 0 && exists end | end in Ends(i) :: end - at < minimumRemaining * SECOND))
  }

  // ---------------------------------------------------------------- the view holds what the intent touches

  lemma SourceIs(p: Payroll)
    ensures SourceToken(p) == PayrollSource(p)
  {
  }

  lemma ViewSpends(i: Intent)
    ensures var v := RawView(i);
            && v.kind == KindOf(i.financial) && v.createdAt == i.createdAt
            && v.spendToken == ReferenceOf(Spent(i.financial))
            && ParseBig(v.spendAmount.baseUnits) == Spending(i.financial)
  {
    hide ValidSameToken, ValidCrossToken, ParseBig, IsPhase12, BaseUnits;
    if i.financial.PayrollPayment? {
      var p := i.financial.payroll;
      SourceIs(p);
      PayrollSpending(p);
    }
  }

  lemma PayrollSpending(p: Payroll)
    ensures ParseBig(PayrollSpend(p).baseUnits) == Spending(PayrollPayment(p))
  {
    hide ValidSameToken, ValidCrossToken, ParseBig, BaseUnits, ValidAmount, MaximumExposure;
    if ValidSameToken(p) {
      SameTokenAmount(p);
      ExposureUnits(p.total);
      ValidUnits(MaximumExposure(p.total));
    } else if ValidCrossToken(p) {
      CrossTokenAmount(p);
      ValidUnits(p.crossToken.value.grossInput);
    }
  }

  lemma ValidUnits(a: Amount)
    requires ValidAmount(a)
    ensures ParseBig(a.baseUnits) == Some(BaseUnits(a))
  {
  }

  lemma SameTokenAmount(p: Payroll)
    requires ValidSameToken(p)
    ensures ValidAmount(p.total)
  {
  }

  lemma CrossTokenAmount(p: Payroll)
    requires ValidCrossToken(p)
    ensures p.crossToken.Some? && ValidAmount(p.crossToken.value.grossInput) && !ValidSameToken(p)
  {
  }

  lemma ViewLists(i: Intent)
    ensures var v := RawView(i);
            && (forall c :: c in v.chains <==> c in Chains(i.financial))
            && (forall r :: r in v.recipients <==> r in Recipients(i.financial))
            && (forall t :: t in v.tokens <==> exists u | u in Tokens(i.financial) :: t == ReferenceOf(u))
  {
    hide ValidSameToken, ValidCrossToken, PayrollSpend, IsPhase12;
    var v := RawView(i);
    match i.financial
    case PayrollPayment(p) =>
      SourceIs(p);
      assert v.chains == [PayrollSource(p).chainID] && v.tokens == [ReferenceOf(PayrollSource(p))];
      forall r ensures r in v.recipients <==> r in Recipients(i.financial) {
        if r in v.recipients {
          var k :| 0 <= k < |v.recipients| && v.recipients[k] == r;
          assert p.recipients[k] in p.recipients;
        }
        if r in Recipients(i.financial) {
          var recipient :| recipient in p.recipients && recipient.address == r;
          var k :| 0 <= k < |p.recipients| && p.recipients[k] == recipient;
          assert v.recipients[k] == r;
        }
      }
    case SwapPayment(s) =>
      assert v.tokens == [ReferenceOf(s.inputToken), ReferenceOf(s.outputToken)];
      assert v.chains == [s.inputToken.chainID, s.outputToken.chainID];
    case _ =>
  }

  lemma ViewEnds(i: Intent)
    ensures var end := RawView(i).effectiveDeadline;
            end in Ends(i) && forall e | e in Ends(i) :: end <= e
  {
    hide ValidSameToken, ValidCrossToken, PayrollSpend, IsPhase12;
    if i.financial.PayrollPayment? && ValidCrossToken(i.financial.payroll) {
      CrossTokenAmount(i.financial.payroll);
    }
  }

  lemma KeysListed(i: Intent, tokens: seq<TokenReference>)
    ensures AllIn(Keys(RawView(i).tokens, TokenKey), Keys(tokens, TokenKey)) <==>
            forall t | t in Tokens(i.financial) :: Listed(t, tokens)
  {
    ViewLists(i);
    hide TokenKey, RawView, Tokens, ReferenceOf;
    var v := RawView(i).tokens;
    if AllIn(Keys(v, TokenKey), Keys(tokens, TokenKey)) {
      forall t | t in Tokens(i.financial) ensures Listed(t, tokens) {
        assert ReferenceOf(t) in v;
        var k :| 0 <= k < |v| && v[k] == ReferenceOf(t);
        assert Keys(v, TokenKey)[k] == TokenKey(ReferenceOf(t));
        assert TokenKey(ReferenceOf(t)) in Keys(tokens, TokenKey);
        var j :| 0 <= j < |tokens| && Keys(tokens, TokenKey)[j] == TokenKey(ReferenceOf(t));
        assert tokens[j] in tokens;
      }
    }
    if forall t | t in Tokens(i.financial) :: Listed(t, tokens) {
      forall key | key in Keys(v, TokenKey) ensures key in Keys(tokens, TokenKey) {
        var k :| 0 <= k < |v| && Keys(v, TokenKey)[k] == key;
        assert v[k] in v;
        var t :| t in Tokens(i.financial) && v[k] == ReferenceOf(t);
        assert Listed(t, tokens);
        var u :| u in tokens && TokenKey(u) == TokenKey(ReferenceOf(t));
        var j :| 0 <= j < |tokens| && tokens[j] == u;
        assert Keys(tokens, TokenKey)[j] == key;
      }
    }
  }

  /** What a rule says of an intent, in the intent's own terms. */
  lemma VerdictIff(body: RuleBody, i: Intent, at: Time)
    ensures Verdict(body, RawView(i), at) == Some(None) <==> Passes(body, i, at)
    ensures forall reason :: Verdict(body, RawView(i), at) == Some(Some(reason)) <==> Breaks(body, i, at, reason)
  {
    hide TokenKey, ParseBig, RawView, Spending, Spent, Chains, Tokens, Recipients, Ends, ReferenceOf, Keys, Listed;
    match body
    case OperationAllowlist(_) => ViewSpends(i);
    case SpendingLimit(_, _, _) => ViewSpends(i);
    case ChainAllowlist(_) => ViewLists(i);
    case TokenAllowlist(tokens) => KeysListed(i, tokens);
    case RecipientAllowlist(_) => ViewLists(i);
    case Expiration(_, _) =>
      ViewSpends(i);
      ViewEnds(i);
  }

  // ---------------------------------------------------------------- the policy itself

  predicate InForce(p: Policy, at: Time) { p.status == ActivePolicy && p.validFrom <= at < p.expiresAt }

  predicate Named(p: Policy, i: Intent) { i.policyReference == p.policyID + ":" + NatToString(p.version) }

  predicate InScope(p: Policy, i: Intent) {
    && i.userID == p.userID
    && (p.walletBindingID == "" || i.walletBindingID == p.walletBindingID)
    && (p.scopeTypes == [] || KindOf(i.financial) in p.scopeTypes)
  }

  /** The refusals that come before any rule, each with exactly its cause. */
  predicate Refuses(p: Policy, i: Intent, at: Time, reason: Reason) {
    match reason
    case PolicyDisabled => p.status == DisabledPolicy
    case PolicyExpired => p.status == ExpiredPolicy || (p.status in {DraftPolicy, ActivePolicy} && at >= p.expiresAt)
    case PolicyDraft => p.status == DraftPolicy && at < p.expiresAt
    case PolicyNotEffective => p.status == ActivePolicy && at < p.validFrom && at < p.expiresAt
    case PolicyReferenceMismatch => InForce(p, at) && !Named(p, i)
    case ScopeMismatch => InForce(p, at) && Named(p, i) && !InScope(p, i)
    case _ => false
  }

  lemma RefusesIff(p: Policy, i: Intent, at: Time)
    ensures Gate(p, i, at).None? <==> InForce(p, at) && Named(p, i) && InScope(p, i)
    ensures forall reason :: Gate(p, i, at) == Some(reason) <==> Refuses(p, i, at, reason)
  {
    hide NatToString;
  }

  /** The evaluation is not refused with an error: policy and intent are valid, the intent is
      at the right stage and not past its end, and the caller is its owner. */
  predicate Presented(p: Policy, i: Intent, caller: Caller, at: Time, stage: Stage) {
    && ValidPolicy(p) && i.valid && at != 0
    && (stage == BeforeApproval ==> i.status == Created) && (stage == BeforeExecution ==> i.status == Approved)
    && at < i.deadline && at < i.expiresAt
    && caller.matchesOwner && caller.authorizable
  }

  // ---------------------------------------------------------------- the decision

  predicate Decides(e: Option<Evaluation>, d: Decision) { e.Some? && e.value.decision == d }

  lemma RulesAreStrict(p: Policy, r: Rule)
    requires ValidPolicy(p) && r in p.rules
    ensures r.onViolation != Allow
  {
    var k :| 0 <= k < |p.rules| && p.rules[k] == r;
    assert ValidRule(p.rules[k]);
  }

  /** ALLOW exactly when the policy is in force, named by the intent and covers it, and every
      rule passes. */
  lemma AllowIff(p: Policy, i: Intent, caller: Caller, at: Time, stage: Stage)
    ensures Decides(Meaning(p, i, caller, at, stage), Allow) <==>
              && Presented(p, i, caller, at, stage) && InForce(p, at) && Named(p, i) && InScope(p, i)
              && forall r | r in p.rules :: Passes(r.body, i, at)
  {
    hide Verdict, Applied, Gate, InForce, Named, InScope, Passes, Breaks, ValidPolicy, RawView, Refusal;
    RefusesIff(p, i, at);
    if Presented(p, i, caller, at, stage) && Gate(p, i, at).None? {
      forall r | r in p.rules
        ensures r.onViolation != Allow
        ensures Verdict(r.body, RawView(i), at) == Some(None) <==> Passes(r.body, i, at)
      {
        RulesAreStrict(p, r);
        VerdictIff(r.body, i, at);
      }
      AppliedIff(p.rules, RawView(i), at);
      if Applied(p.rules, RawView(i), at).Some? {
        WorstOfViolated(p.rules, RawView(i), at);
      }
    }
    RefusalDenies(p, i, at);
  }

  lemma RefusalDenies(p: Policy, i: Intent, at: Time)
    ensures Gate(p, i, at).Some? ==> Refusal(Gate(p, i, at).value).decision == Deny
  {
    hide Gate;
  }

  predicate Broken(body: RuleBody, i: Intent, at: Time) { exists reason :: Breaks(body, i, at, reason) }

  predicate Applies(p: Policy, i: Intent, at: Time) { InForce(p, at) && Named(p, i) && InScope(p, i) }

  /** A rule is violated, or passes, or cannot be evaluated. */
  lemma VerdictIsBroken(body: RuleBody, i: Intent, at: Time)
    ensures var v := Verdict(body, RawView(i), at);
            && (v == Some(None) <==> Passes(body, i, at))
            && (v.Some? && v.value.Some? <==> Broken(body, i, at))
  {
    VerdictIff(body, i, at);
    hide Verdict, Passes, Breaks;
    var v := Verdict(body, RawView(i), at);
    if v.Some? && v.value.Some? {
      assert Breaks(body, i, at, v.value.value);
    }
  }

  /** DENY, REQUIRE_REVIEW and error, exactly. */
  lemma DecisionIff(p: Policy, i: Intent, caller: Caller, at: Time, stage: Stage)
    ensures var e := Meaning(p, i, caller, at, stage);
            && (e.None? <==>
                  || !Presented(p, i, caller, at, stage)
                  || (&& Applies(p, i, at)
                      && exists r | r in p.rules :: !Passes(r.body, i, at) && !Broken(r.body, i, at)))
            && (Decides(e, Deny) <==>
                  && e.Some?
                  && (Applies(p, i, at) ==>
                        exists r | r in p.rules :: r.onViolation == Deny && Broken(r.body, i, at)))
            && (Decides(e, RequireReview) <==>
                  && e.Some? && Applies(p, i, at)
                  && (exists r | r in p.rules :: Broken(r.body, i, at))
                  && forall r | r in p.rules && Broken(r.body, i, at) :: r.onViolation == RequireReview)
  {
    hide Verdict, Applied, Gate, InForce, Named, InScope, Passes, Broken, ValidPolicy, RawView, Refusal;
    RefusesIff(p, i, at);
    RefusalDenies(p, i, at);
    if Presented(p, i, caller, at, stage) && Gate(p, i, at).None? {
      forall r | r in p.rules
        ensures r.onViolation != Allow
        ensures Verdict(r.body, RawView(i), at) == Some(None) <==> Passes(r.body, i, at)
        ensures Violated(r, RawView(i), at) <==> Broken(r.body, i, at)
      {
        RulesAreStrict(p, r);
        VerdictIsBroken(r.body, i, at);
      }
      AppliedIff(p.rules, RawView(i), at);
      if Applied(p.rules, RawView(i), at).Some? {
        WorstOfViolated(p.rules, RawView(i), at);
      }
      hide Violated;
    }
  }

  /** A refused intent is denied with that one reason. */
  lemma RefusalReason(p: Policy, i: Intent, caller: Caller, at: Time, stage: Stage, reason: Reason)
    requires Presented(p, i, caller, at, stage) && Refuses(p, i, at, reason)
    ensures Meaning(p, i, caller, at, stage) == Some(Evaluation(Deny, [Finding("", Deny, reason)]))
  {
    RefusesIff(p, i, at);
    hide Gate, Refuses, ValidPolicy;
  }

  lemma {:induction false} AppliedFindings(rules: seq<Rule>, view: View, at: Time, f: Finding)
    requires Applied(rules, view, at).Some?
    ensures f in Applied(rules, view, at).value.findings <==>
            exists r | r in rules ::
              f == Finding(r.ruleID, r.onViolation, f.reason) && Verdict(r.body, view, at) == Some(Some(f.reason))
  {
    hide Verdict;
    if rules != [] {
      var front, last := rules[..|rules| - 1], rules[|rules| - 1];
      assert rules == front + [last];
      AppliedFindings(front, view, at, f);
    }
  }

  /** The findings of an applied policy are exactly the violated rules, each with its own
      decision and reason. */
  lemma FindingsIff(p: Policy, i: Intent, caller: Caller, at: Time, stage: Stage, f: Finding)
    requires Presented(p, i, caller, at, stage) && Applies(p, i, at) && Meaning(p, i, caller, at, stage).Some?
    ensures f in Meaning(p, i, caller, at, stage).value.findings <==>
            exists r | r in p.rules ::
              f == Finding(r.ruleID, r.onViolation, f.reason) && Breaks(r.body, i, at, f.reason)
  {
    hide Verdict, Applied, Gate, InForce, Named, InScope, Breaks, ValidPolicy, RawView;
    RefusesIff(p, i, at);
    AppliedFindings(p.rules, RawView(i), at, f);
    forall r | r in p.rules
      ensures Verdict(r.body, RawView(i), at) == Some(Some(f.reason)) <==> Breaks(r.body, i, at, f.reason)
    {
      VerdictIff(r.body, i, at);
    }
  }
}
