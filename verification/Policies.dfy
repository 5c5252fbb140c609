/** Policy evaluation (internal/policies/evaluator.go, internal/policies/rules.go,
    internal/policies/types.go, internal/policies/policy.go). */
module Policies {
  import opened Text
  import opened Receipts
  import opened Amounts
  import opened Intents
  import opened Ordering

  // ---------------------------------------------------------------- intents as policies see them

  datatype IntentType = SendType | PayrollType | SwapType | BridgeType | AnsType

  function TypeName(t: IntentType): string {
    match t
    case SendType => "SEND"
    case PayrollType => "PAYROLL"
    case SwapType => "SWAP"
    case BridgeType => "BRIDGE"
    case AnsType => "ANS_REGISTRATION"
  }

  lemma TypeNameInjective(a: IntentType, b: IntentType)
    requires TypeName(a) == TypeName(b)
    ensures a == b
  {
    assert |TypeName(SendType)| == 4 && |TypeName(PayrollType)| == 7 && |TypeName(SwapType)| == 4;
    assert |TypeName(BridgeType)| == 6 && |TypeName(AnsType)| == 16;
    assert TypeName(SendType)[1] != TypeName(SwapType)[1];
  }

  datatype Financial
    = SendPayment(token: Token, amount: Amount, recipient: string)
    | PayrollPayment(payroll: Payroll)
    | SwapPayment(swap: Swap)
    | BridgePayment(sourceToken: Token, sourceAmount: Amount, sourceChain: string, destinationChain: string,
                    destination: string)
    | AnsPayment(costToken: Token, cost: Amount, controller: string)

  function KindOf(f: Financial): IntentType {
    match f
    case SendPayment(_, _, _) => SendType
    case PayrollPayment(_) => PayrollType
    case SwapPayment(_) => SwapType
    case BridgePayment(_, _, _, _, _) => BridgeType
    case AnsPayment(_, _, _) => AnsType
  }

  datatype IntentStatus = Draft | Created | Approved | Closed

  /** `valid` is what Intent.Validate answers. */
  datatype Intent = Intent(
    financial: Financial, valid: bool, status: IntentStatus, createdAt: Time, expiresAt: Time, deadline: Time,
    policyReference: string, userID: string, walletBindingID: string)

  datatype TokenReference = TokenReference(chainID: string, standard: string, address: string, decimals: nat)

  function ReferenceOf(t: Token): TokenReference { TokenReference(t.chainID, t.standard, t.address, t.decimals) }

  const NUL := '\0'

  function TokenKey(t: TokenReference): string {
    t.chainID + [NUL] + (t.standard + [NUL] + (NormalizeAddress(t.address) + [NUL] + NatToString(t.decimals)))
  }

  predicate ValidReference(t: TokenReference) {
    ValidChainID(t.chainID) && ValidText(t.standard) && ValidText(t.address) && t.decimals <= MAX_DECIMALS
  }

  datatype View = View(
    kind: IntentType, spendToken: TokenReference, spendAmount: Amount, chains: seq<string>,
    tokens: seq<TokenReference>, recipients: seq<string>, createdAt: Time, effectiveDeadline: Time)

  /** payrollMaximumEmployerExposure: obligations plus the highest contract fee on them. */
  function MaximumExposure(obligations: Amount): Amount {
    if !ValidAmount(obligations) then obligations else
      var base := BaseUnits(obligations);
      var total := base + base * MAX_FEE_BPS / BPS;
      Amount(CanonicalDecimal(total, obligations.decimals), NatToString(total), obligations.decimals)
  }

  lemma ExposureUnits(obligations: Amount)
    requires ValidAmount(obligations)
    ensures ValidAmount(MaximumExposure(obligations))
    ensures var base := BaseUnits(obligations);
            BaseUnits(MaximumExposure(obligations)) == base + base * MAX_FEE_BPS / BPS
  {
    var base := BaseUnits(obligations);
    PrintedIsValid(base + base * MAX_FEE_BPS / BPS, obligations.decimals);
  }

  predicate IsPhase12(p: Payroll) {
    || p.schemaVersion >= PHASE12 || p.variant != NoVariant || p.tokenIn != NO_TOKEN || p.crossToken.Some?
    || exists i | 0 <= i < |p.recipients| ::
         var r := p.recipients[i];
         r.tokenOut != NO_TOKEN || r.amountIn != NO_AMOUNT || r.minAmountOut != NO_AMOUNT
  }

  function SourceToken(p: Payroll): Token { if IsPhase12(p) && p.tokenIn != NO_TOKEN then p.tokenIn else p.token }

  function PayrollSpend(p: Payroll): Amount {
    if ValidSameToken(p) then MaximumExposure(p.total)
    else if ValidCrossToken(p) then p.crossToken.value.grossInput
    else p.total
  }

  function Earlier(a: Time, b: Time): Time { if a < b then a else b }

  function RecipientAddresses(rs: seq<Recipient>): (addresses: seq<string>)
    ensures |addresses| == |rs| && forall i | 0 <= i < |rs| :: addresses[i] == rs[i].address
  {
    seq(|rs|, i requires 0 <= i < |rs| => rs[i].address)
  }

  function Unique(keys: seq<string>): seq<string> {
    if |keys| < 2 then keys
    else if keys[|keys| - 2] == keys[|keys| - 1] then Unique(keys[..|keys| - 1])
    else Unique(keys[..|keys| - 1]) + [keys[|keys| - 1]]
  }

  function Same(s: string): string { s }

  function UniqueTokens(tokens: seq<TokenReference>): seq<TokenReference> {
    if |tokens| < 2 then tokens
    else if TokenKey(tokens[|tokens| - 2]) == TokenKey(tokens[|tokens| - 1]) then UniqueTokens(tokens[..|tokens| - 1])
    else UniqueTokens(tokens[..|tokens| - 1]) + [tokens[|tokens| - 1]]
  }

  /** The view before its lists are sorted and made unique. */
  function RawView(i: Intent): View {
    var end := Earlier(i.deadline, i.expiresAt);
    match i.financial
    case SendPayment(token, amount, recipient) =>
      View(SendType, ReferenceOf(token), amount, [token.chainID], [ReferenceOf(token)], [recipient], i.createdAt, end)
    case PayrollPayment(p) =>
      var source := SourceToken(p);
      View(PayrollType, ReferenceOf(source), PayrollSpend(p), [source.chainID], [ReferenceOf(source)],
           RecipientAddresses(p.recipients), i.createdAt,
           if !ValidSameToken(p) && ValidCrossToken(p) then Earlier(p.crossToken.value.deadline, end) else end)
    case SwapPayment(s) =>
      View(SwapType, ReferenceOf(s.inputToken), s.inputAmount, [s.inputToken.chainID, s.outputToken.chainID],
           [ReferenceOf(s.inputToken), ReferenceOf(s.outputToken)], [], i.createdAt, end)
    case BridgePayment(token, amount, from, to, destination) =>
      View(BridgeType, ReferenceOf(token), amount, [from, to], [ReferenceOf(token)], [destination], i.createdAt, end)
    case AnsPayment(token, cost, controller) =>
      View(AnsType, ReferenceOf(token), cost, [token.chainID], [ReferenceOf(token)], [controller], i.createdAt, end)
  }

  /** newIntentView. */
  function NewView(i: Intent): View {
    var raw := RawView(i);
    raw.(chains := Unique(SortBy(raw.chains, Same)), recipients := Unique(SortBy(raw.recipients, Same)),
         tokens := UniqueTokens(SortBy(raw.tokens, TokenKey)))
  }

  lemma {:induction false} UniqueLast(keys: seq<string>)
    requires keys != []
    ensures Unique(keys) != [] && Unique(keys)[|Unique(keys)| - 1] == keys[|keys| - 1]
  {
    if |keys| >= 2 {
      UniqueLast(keys[..|keys| - 1]);
    }
  }

  lemma {:induction false} UniqueIsStrict(keys: seq<string>)
    requires Ordered(keys)
    ensures StrictlyOrdered(Unique(keys))
  {
    if |keys| >= 2 {
      var front, last := keys[..|keys| - 1], keys[|keys| - 1];
      UniqueIsStrict(front);
      UniqueLast(front);
      var kept := Unique(front);
      if front[|front| - 1] != last {
        Trichotomy(front[|front| - 1], last);
        forall k | 0 <= k < |kept| - 1 ensures Before(kept[k], last) {
          Transitivity(kept[k], front[|front| - 1], last);
        }
      }
    }
  }

  /** uniqueSorted: sorts, then keeps each value that differs from the last one kept. */
  method UniqueSorted(values: seq<string>) returns (result: seq<string>)
    ensures result == Unique(SortBy(values, Same))
    ensures StrictlyOrdered(result)
  {
    var ordered := SortBy(values, Same);
    result := [];
    var i := 0;
    while i < |ordered|
      invariant i <= |ordered|
      invariant result == Unique(ordered[..i])
    {
      assert ordered[..i + 1][..i] == ordered[..i];
      if i > 0 {
        UniqueLast(ordered[..i]);
      }
      if result == [] || result[|result| - 1] != ordered[i] {
        result := result + [ordered[i]];
      }
      i := i + 1;
    }
    assert ordered[..i] == ordered;
    SortOrders(values, Same);
    assert forall s :: Same(s) == s;
    UniqueIsStrict(ordered);
  }

  lemma {:induction false} UniqueKeeps(keys: seq<string>)
    ensures forall s :: s in Unique(keys) <==> s in keys
  {
    if |keys| >= 2 {
      UniqueKeeps(keys[..|keys| - 1]);
      assert keys == keys[..|keys| - 1] + [keys[|keys| - 1]];
    }
  }

  lemma UniqueSortedMembers(values: seq<string>)
    ensures forall s :: s in Unique(SortBy(values, Same)) <==> s in values
  {
    SameMembers(values, Same);
    UniqueKeeps(SortBy(values, Same));
  }

  lemma KeysSnoc(tokens: seq<TokenReference>, last: TokenReference)
    ensures Keys(tokens + [last], TokenKey) == Keys(tokens, TokenKey) + [TokenKey(last)]
  {
    hide TokenKey;
  }

  lemma {:induction false} UniqueTokensKeep(tokens: seq<TokenReference>)
    ensures forall k :: k in Keys(UniqueTokens(tokens), TokenKey) <==> k in Keys(tokens, TokenKey)
  {
    hide TokenKey, Keys;
    if |tokens| >= 2 {
      var front, last := tokens[..|tokens| - 1], tokens[|tokens| - 1];
      UniqueTokensKeep(front);
      assert tokens == front + [last];
      KeysSnoc(front, last);
      KeysSnoc(UniqueTokens(front), last);
      assert Keys(front, TokenKey)[|front| - 1] == TokenKey(tokens[|tokens| - 2]);
    }
  }

  lemma UniqueTokensMembers(tokens: seq<TokenReference>)
    ensures forall k :: k in Keys(UniqueTokens(SortBy(tokens, TokenKey)), TokenKey) <==> k in Keys(tokens, TokenKey)
  {
    UniqueTokensKeep(SortBy(tokens, TokenKey));
    KeysOfSorted(tokens, TokenKey);
  }

  lemma KeysOfSorted<T>(items: seq<T>, key: T -> string)
    ensures forall k :: k in Keys(SortBy(items, key), key) <==> k in Keys(items, key)
  {
    SameMembers(items, key);
    var s := SortBy(items, key);
    forall k ensures k in Keys(s, key) <==> k in Keys(items, key) {
      if k in Keys(s, key) {
        var i :| 0 <= i < |s| && Keys(s, key)[i] == k;
        assert s[i] in items;
        var j :| 0 <= j < |items| && items[j] == s[i];
        assert Keys(items, key)[j] == k;
      }
      if k in Keys(items, key) {
        var i :| 0 <= i < |items| && Keys(items, key)[i] == k;
        assert items[i] in s;
        var j :| 0 <= j < |s| && s[j] == items[i];
        assert Keys(s, key)[j] == k;
      }
    }
  }

  // ---------------------------------------------------------------- rules

  datatype Decision = Allow | Deny | RequireReview

  datatype Reason = PolicyDraft | PolicyNotEffective | PolicyDisabled | PolicyExpired | PolicyReferenceMismatch
    | ScopeMismatch | OperationNotAllowed | SpendingLimitExceeded | ChainNotAllowed | TokenNotAllowed
    | RecipientNotAllowed | ExpirationConstraintViolated

  datatype RuleBody
    = SpendingLimit(types: seq<IntentType>, token: TokenReference, maximum: Amount)
    | OperationAllowlist(operations: seq<IntentType>)
    | ChainAllowlist(chains: seq<string>)
    | TokenAllowlist(tokens: seq<TokenReference>)
    | RecipientAllowlist(recipients: seq<string>)
    | Expiration(maxLifetimeSeconds: uint64, minimumRemainingSeconds: uint64)

  datatype Rule = Rule(ruleID: string, onViolation: Decision, body: RuleBody)

  /** normalizeRule sorts every list the evaluator searches. */
  function NormalizeBody(body: RuleBody): RuleBody {
    match body
    case SpendingLimit(types, token, maximum) => SpendingLimit(SortBy(types, TypeName), token, maximum)
    case OperationAllowlist(operations) => OperationAllowlist(SortBy(operations, TypeName))
    case ChainAllowlist(chains) => ChainAllowlist(SortBy(chains, Same))
    case TokenAllowlist(tokens) => TokenAllowlist(SortBy(tokens, TokenKey))
    case RecipientAllowlist(recipients) => RecipientAllowlist(SortBy(recipients, Same))
    case Expiration(_, _) => body
  }

  predicate AllIn(values: seq<string>, allowed: seq<string>) { forall s | s in values :: s in allowed }

  /** What one rule says about an intent: an error, no violation, or a reason. Lists are read
      as sets: this is the meaning the evaluator computes by searching sorted ones. */
  function Verdict(body: RuleBody, view: View, at: Time): Option<Option<Reason>> {
    match body
    case OperationAllowlist(operations) => Some(if view.kind in operations then None else Some(OperationNotAllowed))
    case SpendingLimit(types, token, maximum) =>
      if view.kind !in types then Some(None)
      else if TokenKey(token) != TokenKey(view.spendToken) then Some(Some(TokenNotAllowed))
      else if ParseBig(maximum.baseUnits).None? || ParseBig(view.spendAmount.baseUnits).None? then None
      else Some(if ParseBig(view.spendAmount.baseUnits).value > ParseBig(maximum.baseUnits).value
                then Some(SpendingLimitExceeded) else None)
    case ChainAllowlist(chains) => Some(if AllIn(view.chains, chains) then None else Some(ChainNotAllowed))
    case TokenAllowlist(tokens) =>
      Some(if AllIn(Keys(view.tokens, TokenKey), Keys(tokens, TokenKey)) then None else Some(TokenNotAllowed))
    case RecipientAllowlist(recipients) =>
      Some(if AllIn(view.recipients, recipients) then None else Some(RecipientNotAllowed))
    case Expiration(maxLifetime, minimumRemaining) =>
      var lifetime, remaining := view.effectiveDeadline - view.createdAt, view.effectiveDeadline - at;
      Some(if (maxLifetime > 0 && lifetime > maxLifetime * SECOND)
              || (minimumRemaining > 0 && remaining < minimumRemaining * SECOND)
           then Some(ExpirationConstraintViolated) else None)
  }

  predicate Searchable(body: RuleBody) {
    match body
    case SpendingLimit(types, _, _) => OrderedBy(types, TypeName)
    case OperationAllowlist(operations) => OrderedBy(operations, TypeName)
    case ChainAllowlist(chains) => OrderedBy(chains, Same)
    case TokenAllowlist(tokens) => OrderedBy(tokens, TokenKey)
    case RecipientAllowlist(recipients) => OrderedBy(recipients, Same)
    case Expiration(_, _) => true
  }

  lemma NormalizedIsSearchable(body: RuleBody)
    ensures Searchable(NormalizeBody(body))
  {
    match body
    case SpendingLimit(types, _, _) => SortOrders(types, TypeName);
    case OperationAllowlist(operations) => SortOrders(operations, TypeName);
    case ChainAllowlist(chains) => SortOrders(chains, Same);
    case TokenAllowlist(tokens) => SortOrders(tokens, TokenKey);
    case RecipientAllowlist(recipients) => SortOrders(recipients, Same);
    case Expiration(_, _) =>
  }

  /** Sorting its lists does not change what a rule says. */
  lemma NormalizedVerdict(body: RuleBody, view: View, at: Time)
    ensures Verdict(NormalizeBody(body), view, at) == Verdict(body, view, at)
  {
    match body
    case SpendingLimit(types, _, _) => SameMembers(types, TypeName);
    case OperationAllowlist(operations) => SameMembers(operations, TypeName);
    case ChainAllowlist(chains) => SameMembers(chains, Same);
    case TokenAllowlist(tokens) => KeysOfSorted(tokens, TokenKey);
    case RecipientAllowlist(recipients) => SameMembers(recipients, Same);
    case Expiration(_, _) =>
  }

  /** Nor does sorting and deduplicating the view. */
  lemma ViewVerdict(body: RuleBody, i: Intent, at: Time)
    ensures Verdict(body, NewView(i), at) == Verdict(body, RawView(i), at)
  {
    var raw := RawView(i);
    UniqueSortedMembers(raw.chains);
    UniqueSortedMembers(raw.recipients);
    UniqueTokensMembers(raw.tokens);
  }

  method ContainsType(types: seq<IntentType>, target: IntentType) returns (found: bool)
    requires OrderedBy(types, TypeName)
    ensures found <==> target in types
  {
    var keys := Keys(types, TypeName);
    found := Contains(keys, TypeName(target));
    if found {
      var i :| 0 <= i < |keys| && keys[i] == TypeName(target);
      TypeNameInjective(types[i], target);
    }
  }

  method AllAllowed(values: seq<string>, allowed: seq<string>) returns (ok: bool)
    requires Ordered(allowed)
    ensures ok <==> AllIn(values, allowed)
  {
    for i := 0 to |values|
      invariant forall k | 0 <= k < i :: values[k] in allowed
    {
      var found := Contains(allowed, values[i]);
      if !found {
        return false;
      }
    }
    return true;
  }

  /** evaluateRule, by binary search. */
  method EvaluateRule(body: RuleBody, view: View, at: Time) returns (verdict: Option<Option<Reason>>)
    requires Searchable(body)
    ensures verdict == Verdict(body, view, at)
  {
    hide TokenKey, ParseBig;
    match body {
      case OperationAllowlist(operations) =>
        var found := ContainsType(operations, view.kind);
        return Some(if found then None else Some(OperationNotAllowed));
      case SpendingLimit(types, token, maximum) =>
        var covered := ContainsType(types, view.kind);
        if !covered {
          return Some(None);
        }
        if TokenKey(token) != TokenKey(view.spendToken) {
          return Some(Some(TokenNotAllowed));
        }
        var limit, amount := ParseBig(maximum.baseUnits), ParseBig(view.spendAmount.baseUnits);
        if limit.None? || amount.None? {
          return None;
        }
        return Some(if amount.value > limit.value then Some(SpendingLimitExceeded) else None);
      case ChainAllowlist(chains) =>
        var ok := AllAllowed(view.chains, chains);
        return Some(if ok then None else Some(ChainNotAllowed));
      case TokenAllowlist(tokens) =>
        var ok := AllAllowed(Keys(view.tokens, TokenKey), Keys(tokens, TokenKey));
        return Some(if ok then None else Some(TokenNotAllowed));
      case RecipientAllowlist(recipients) =>
        var ok := AllAllowed(view.recipients, recipients);
        return Some(if ok then None else Some(RecipientNotAllowed));
      case Expiration(maxLifetime, minimumRemaining) =>
        var lifetime, remaining := view.effectiveDeadline - view.createdAt, view.effectiveDeadline - at;
        if maxLifetime > 0 && lifetime > maxLifetime * SECOND {
          return Some(Some(ExpirationConstraintViolated));
        }
        if minimumRemaining > 0 && remaining < minimumRemaining * SECOND {
          return Some(Some(ExpirationConstraintViolated));
        }
        return Some(None);
    }
  }

  // ---------------------------------------------------------------- decisions

  /** combineDecision. */
  function Combine(current: Decision, next: Decision): Decision {
    if current == Deny || next == Deny then Deny
    else if current == RequireReview || next == RequireReview then RequireReview
    else Allow
  }

  datatype Finding = Finding(ruleID: string, decision: Decision, reason: Reason)

  datatype Evaluation = Evaluation(decision: Decision, findings: seq<Finding>)

  /** The rules applied in order; an error in any of them is an error. */
  function Applied(rules: seq<Rule>, view: View, at: Time): Option<Evaluation> {
    if rules == [] then Some(Evaluation(Allow, [])) else
      var rule := rules[|rules| - 1];
      var before, verdict := Applied(rules[..|rules| - 1], view, at), Verdict(rule.body, view, at);
      if before.None? || verdict.None? then None
      else if verdict.value.None? then before
      else Some(Evaluation(Combine(before.value.decision, rule.onViolation),
                           before.value.findings + [Finding(rule.ruleID, rule.onViolation, verdict.value.value)]))
  }

  predicate Violated(rule: Rule, view: View, at: Time) {
    Verdict(rule.body, view, at).Some? && Verdict(rule.body, view, at).value.Some?
  }

  /** The decision is the worst one among the violated rules: DENY over REQUIRE_REVIEW over
      ALLOW, and findings name exactly the violated rules. */
  lemma DecisionIsWorst(rules: seq<Rule>, view: View, at: Time)
    requires Applied(rules, view, at).Some?
    requires forall r | r in rules :: r.onViolation != Allow
    ensures var e := Applied(rules, view, at).value;
            && (e.decision == Deny <==> exists r | r in rules :: Violated(r, view, at) && r.onViolation == Deny)
            && (e.decision == Allow <==> forall r | r in rules :: !Violated(r, view, at))
            && (e.decision == Allow <==> e.findings == [])
            && (forall f | f in e.findings :: exists r | r in rules :: Violated(r, view, at) && r.ruleID == f.ruleID)
            && (forall r | r in rules && Violated(r, view, at) :: exists f | f in e.findings :: f.ruleID == r.ruleID)
  {
    hide *;
    WorstOfViolated(rules, view, at);
    EveryViolationFound(rules, view, at);
  }

  lemma {:induction false} WorstOfViolated(rules: seq<Rule>, view: View, at: Time)
    requires Applied(rules, view, at).Some?
    requires forall r | r in rules :: r.onViolation != Allow
    ensures var e := Applied(rules, view, at).value;
            && (e.decision == Deny <==> exists r | r in rules :: Violated(r, view, at) && r.onViolation == Deny)
            && (e.decision == Allow <==> forall r | r in rules :: !Violated(r, view, at))
            && (e.decision == Allow <==> e.findings == [])
            && (forall f | f in e.findings :: exists r | r in rules :: Violated(r, view, at) && r.ruleID == f.ruleID)
  {
    if rules != [] {
      var front, last := rules[..|rules| - 1], rules[|rules| - 1];
      assert rules == front + [last];
      WorstOfViolated(front, view, at);
      hide Verdict;
      if Violated(last, view, at) {
        assert last in rules;
        var f := Finding(last.ruleID, last.onViolation, Verdict(last.body, view, at).value.value);
        assert Applied(rules, view, at).value.findings == Applied(front, view, at).value.findings + [f];
      } else {
        assert Applied(rules, view, at) == Applied(front, view, at);
      }
    }
  }

  lemma {:induction false} EveryViolationFound(rules: seq<Rule>, view: View, at: Time)
    requires Applied(rules, view, at).Some?
    ensures forall r | r in rules && Violated(r, view, at) ::
              exists f | f in Applied(rules, view, at).value.findings :: f.ruleID == r.ruleID
  {
    hide Verdict, Violated;
    if rules != [] {
      var front, last := rules[..|rules| - 1], rules[|rules| - 1];
      assert rules == front + [last];
      FindingsGrow(rules, view, at);
      EveryViolationFound(front, view, at);
    }
  }

  /** The last rule's finding, if it is violated, follows those of the rules before it. */
  lemma FindingsGrow(rules: seq<Rule>, view: View, at: Time)
    requires rules != [] && Applied(rules, view, at).Some?
    ensures var front, last := rules[..|rules| - 1], rules[|rules| - 1];
            && Applied(front, view, at).Some?
            && (forall f | f in Applied(front, view, at).value.findings :: f in Applied(rules, view, at).value.findings)
            && (Violated(last, view, at) ==>
                  exists f | f in Applied(rules, view, at).value.findings :: f.ruleID == last.ruleID)
  {
    hide Verdict;
    var last := rules[|rules| - 1];
    if Violated(last, view, at) {
      var found := Applied(rules, view, at).value.findings;
      assert found[|found| - 1] in found;
    }
  }

  /** Exactly when evaluation reports an error instead of a decision. */
  lemma {:induction false} AppliedIff(rules: seq<Rule>, view: View, at: Time)
    ensures Applied(rules, view, at).Some? <==> forall r | r in rules :: Verdict(r.body, view, at).Some?
  {
    if rules != [] {
      AppliedIff(rules[..|rules| - 1], view, at);
      assert rules == rules[..|rules| - 1] + [rules[|rules| - 1]];
    }
  }

  // ---------------------------------------------------------------- policies

  datatype PolicyStatus = DraftPolicy | ActivePolicy | DisabledPolicy | ExpiredPolicy

  datatype Policy = Policy(
    policyID: string, version: uint64, name: string, userID: string, walletBindingID: string,
    scopeTypes: seq<IntentType>, rules: seq<Rule>, status: PolicyStatus,
    createdAt: Time, validFrom: Time, expiresAt: Time, revision: uint64)

  const MAX_RULES := 100
  const MAX_DURATION_SECONDS := 9_223_372_036

  predicate Distinct<T(==)>(items: seq<T>) { forall i, j | 0 <= i < j < |items| :: items[i] != items[j] }

  predicate ValidBody(body: RuleBody) {
    match body
    case SpendingLimit(types, token, maximum) =>
      && types != [] && Distinct(types) && ValidReference(token) && ValidAmount(maximum)
      && maximum.baseUnits != "0" && maximum.decimals == token.decimals
    case OperationAllowlist(operations) => operations != [] && Distinct(operations)
    case ChainAllowlist(chains) =>
      chains != [] && Distinct(chains) && forall i | 0 <= i < |chains| :: ValidChainID(chains[i])
    case TokenAllowlist(tokens) =>
      && tokens != [] && Distinct(Keys(tokens, TokenKey))
      && forall i | 0 <= i < |tokens| :: ValidReference(tokens[i])
    case RecipientAllowlist(recipients) =>
      recipients != [] && Distinct(recipients) && forall i | 0 <= i < |recipients| :: ValidText(recipients[i])
    case Expiration(maxLifetime, minimumRemaining) =>
      && (maxLifetime != 0 || minimumRemaining != 0)
      && maxLifetime <= MAX_DURATION_SECONDS && minimumRemaining <= MAX_DURATION_SECONDS
  }

  predicate ValidRule(rule: Rule) { ValidText(rule.ruleID) && rule.onViolation != Allow && ValidBody(rule.body) }

  predicate ValidRules(rules: seq<Rule>) {
    && 0 < |rules| <= MAX_RULES
    && (forall i | 0 <= i < |rules| :: ValidRule(rules[i]))
    && (forall i, j | 0 <= i < j < |rules| :: rules[i].ruleID != rules[j].ruleID)
    && (forall i | 0 < i < |rules| :: !Before(rules[i].ruleID, rules[i - 1].ruleID))
  }

  predicate ValidPolicy(p: Policy) {
    && ValidText(p.policyID) && ValidText(p.name) && p.version != 0 && p.revision != 0
    && ValidText(p.userID) && (p.walletBindingID != "" ==> ValidText(p.walletBindingID))
    && Distinct(p.scopeTypes)
    && ValidRules(p.rules)
    && p.createdAt != 0 && p.validFrom != 0 && p.createdAt <= p.validFrom < p.expiresAt
  }

  function PolicyReference(p: Policy): string { p.policyID + ":" + NatToString(p.version) }

  datatype Stage = BeforeApproval | BeforeExecution

  /** `authorizable`: identity and wallet binding may authorize; `matchesOwner`: they are the
      ones the intent names. Both are answers of the identity and wallet components. */
  datatype Caller = Caller(authorizable: bool, matchesOwner: bool)

  function Refusal(reason: Reason): Evaluation { Evaluation(Deny, [Finding("", Deny, reason)]) }

  /** Why the policy denies before any rule is looked at. */
  function Gate(p: Policy, i: Intent, at: Time): Option<Reason> {
    if p.status == DisabledPolicy then Some(PolicyDisabled)
    else if p.status == ExpiredPolicy || at >= p.expiresAt then Some(PolicyExpired)
    else if p.status != ActivePolicy then Some(PolicyDraft)
    else if at < p.validFrom then Some(PolicyNotEffective)
    else if i.policyReference != PolicyReference(p) then Some(PolicyReferenceMismatch)
    else if p.userID != i.userID || (p.walletBindingID != "" && p.walletBindingID != i.walletBindingID)
            || !(p.scopeTypes == [] || KindOf(i.financial) in p.scopeTypes) then Some(ScopeMismatch)
    else None
  }

  predicate Admissible(p: Policy, i: Intent, caller: Caller, at: Time, stage: Stage) {
    && ValidPolicy(p) && i.valid && at != 0
    && i.status == (if stage == BeforeApproval then Created else Approved)
    && at < i.expiresAt && at < i.deadline
    && caller.authorizable && caller.matchesOwner
  }

  /** What an evaluation means, with every list of the policy and of the intent read as a set. */
  function Meaning(p: Policy, i: Intent, caller: Caller, at: Time, stage: Stage): Option<Evaluation> {
    if !Admissible(p, i, caller, at, stage) then None
    else if Gate(p, i, at).Some? then Some(Refusal(Gate(p, i, at).value))
    else Applied(p.rules, RawView(i), at)
  }

  method ApplyRules(rules: seq<Rule>, i: Intent, at: Time) returns (result: Option<Evaluation>)
    ensures result == Applied(rules, RawView(i), at)
  {
    var view, raw := NewView(i), RawView(i);
    var decision, findings := Allow, [];
    var n := 0;
    while n < |rules|
      invariant n <= |rules|
      invariant Applied(rules[..n], raw, at) == Some(Evaluation(decision, findings))
    {
      var rule := rules[n];
      assert rules[..n + 1][..n] == rules[..n];
      var normalized := NormalizeBody(rule.body);
      NormalizedIsSearchable(rule.body);
      NormalizedVerdict(rule.body, view, at);
      ViewVerdict(rule.body, i, at);
      var verdict := EvaluateRule(normalized, view, at);
      if verdict.None? {
        AppliedIff(rules, raw, at);
        return None;
      }
      if verdict.value.Some? {
        findings := findings + [Finding(rule.ruleID, rule.onViolation, verdict.value.value)];
        decision := Combine(decision, rule.onViolation);
      }
      n := n + 1;
    }
    assert rules[..n] == rules;
    return Some(Evaluation(decision, findings));
  }

  /** evaluate: what the sorted, searched and deduplicated form computes is the meaning. */
  method Evaluate(p: Policy, i: Intent, caller: Caller, at: Time, stage: Stage) returns (result: Option<Evaluation>)
    ensures result == Meaning(p, i, caller, at, stage)
  {
    if !Admissible(p, i, caller, at, stage) {
      return None;
    }
    var gate := Gate(p, i, at);
    if gate.Some? {
      return Some(Refusal(gate.value));
    }
    result := ApplyRules(p.rules, i, at);
  }

  lemma AllowMeans(p: Policy, i: Intent, caller: Caller, at: Time, stage: Stage)
    requires Meaning(p, i, caller, at, stage).Some?
    ensures Meaning(p, i, caller, at, stage).value.decision == Allow <==>
            Gate(p, i, at).None? && forall r | r in p.rules :: !Violated(r, RawView(i), at)
  {
    if Gate(p, i, at).None? {
      DecisionIsWorst(p.rules, RawView(i), at);
    }
  }

  // ---------------------------------------------------------------- token identity

  predicate FreeOfNul(s: string) { NUL !in s }

  lemma TextIsFreeOfNul(s: string)
    requires ValidText(s)
    ensures FreeOfNul(s)
  {
  }

  /** Keys are equal exactly for the same chain, standard, address up to letter case, and
      decimals. */
  lemma TokenKeyInjective(a: TokenReference, b: TokenReference)
    requires ValidReference(a) && ValidReference(b)
    ensures TokenKey(a) == TokenKey(b) <==>
              && a.chainID == b.chainID && a.standard == b.standard && a.decimals == b.decimals
              && NormalizeAddress(a.address) == NormalizeAddress(b.address)
  {
    if TokenKey(a) == TokenKey(b) {
      KeyParts(a);
      KeyParts(b);
      ParsePrint(a.decimals);
      ParsePrint(b.decimals);
      var x, y := Split(TokenKey(a), NUL), Split(TokenKey(b), NUL);
      assert x[0] == y[0] && x[1] == y[1] && x[2] == y[2] && x[3] == y[3];
    }
  }

  lemma KeyParts(t: TokenReference)
    requires ValidReference(t)
    ensures Split(TokenKey(t), NUL) == [t.chainID, t.standard, NormalizeAddress(t.address), NatToString(t.decimals)]
  {
    TextIsFreeOfNul(t.standard);
    TextIsFreeOfNul(t.address);
    NormalFreeOfNul(t.address);
    SplitFour(t.chainID, t.standard, NormalizeAddress(t.address), NatToString(t.decimals));
  }

  lemma SplitFour(a: string, b: string, c: string, d: string)
    requires FreeOfNul(a) && FreeOfNul(b) && FreeOfNul(c) && FreeOfNul(d)
    ensures Split(a + [NUL] + (b + [NUL] + (c + [NUL] + d)), NUL) == [a, b, c, d]
  {
    SplitAlone(d);
    hide Split;
    var cd := c + [NUL] + d;
    var bcd := b + [NUL] + cd;
    SplitFirst(c, NUL, d);
    SplitFirst(b, NUL, cd);
    SplitFirst(a, NUL, bcd);
  }

  lemma SplitAlone(s: string)
    requires FreeOfNul(s)
    ensures Split(s, NUL) == [s]
  {
    IndexOfNone(s, NUL);
  }

  lemma NormalFreeOfNul(s: string)
    requires ValidText(s) && FreeOfNul(s)
    ensures FreeOfNul(NormalizeAddress(s))
  {
  }
}
