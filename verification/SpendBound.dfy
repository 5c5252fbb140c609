/** Approval-time policy against settlement-time evidence: what an ALLOW decision bounds. */
module SpendBound {
  import opened Text
  import opened Receipts
  import opened Amounts
  import opened Intents
  import opened Policies
  import opened DomainResults
  import PayrollVerifier
  import SwapVerifier

  /** A spending-limit rule of an active policy that covers the intent's type. */
  predicate Limits(policy: Policy, i: Intent, rule: Rule) {
    rule in policy.rules && rule.body.SpendingLimit? && KindOf(i.financial) in rule.body.types
  }

  predicate Allows(policy: Policy, i: Intent, caller: Caller, at: Time, stage: Stage) {
    var e := Meaning(policy, i, caller, at, stage);
    e.Some? && e.value.decision == Allow
  }

  lemma MaximumIsValid(policy: Policy, rule: Rule)
    requires ValidPolicy(policy) && rule in policy.rules && rule.body.SpendingLimit?
    ensures ValidAmount(rule.body.maximum) && ValidReference(rule.body.token)
  {
    var k :| 0 <= k < |policy.rules| && policy.rules[k] == rule;
    assert ValidRule(policy.rules[k]);
  }

  lemma UnitsParse(a: Amount)
    requires ValidAmount(a)
    ensures ParseBig(a.baseUnits) == Some(BaseUnits(a))
  {
  }

  /** An allowed intent spends the rule's token, at most its maximum. */
  lemma AllowBounds(policy: Policy, i: Intent, caller: Caller, at: Time, stage: Stage, rule: Rule)
    requires Allows(policy, i, caller, at, stage) && Limits(policy, i, rule)
    requires ValidAmount(RawView(i).spendAmount) && RawView(i).kind == KindOf(i.financial)
    ensures ValidPolicy(policy) && ValidAmount(rule.body.maximum) && ValidReference(rule.body.token)
    ensures BaseUnits(RawView(i).spendAmount) <= BaseUnits(rule.body.maximum)
    ensures TokenKey(rule.body.token) == TokenKey(RawView(i).spendToken)
  {
    hide RawView, ValidPolicy, TokenKey, Applied, ValidAmount, BaseUnits, ValidReference;
    AllowMeans(policy, i, caller, at, stage);
    AppliedIff(policy.rules, RawView(i), at);
    MaximumIsValid(policy, rule);
    UnitsParse(rule.body.maximum);
    UnitsParse(RawView(i).spendAmount);
    assert !Violated(rule, RawView(i), at);
    assert Verdict(rule.body, RawView(i), at).Some?;
  }

  // ---------------------------------------------------------------- payroll

  /** The employer's input as the batch event reports it. */
  function ReportedInput(abi: PayrollVerifier.Abi, p: Payroll, receipt: Receipt): Option<int> {
    var c := PayrollVerifier.Collect(abi, ValidCrossToken(p), PayrollVerifier.NO_EVENTS, receipt.logs);
    if c.Collected? && |c.events.batches| == 1 then Some(c.events.batches[0].totalInput) else None
  }

  lemma SameTokenInput(abi: PayrollVerifier.Abi, wallet: string, callData: Bytes, p: Payroll, receipt: Receipt)
    requires PayrollVerifier.SameToken(abi, wallet, callData, p, receipt).status == DomainVerified
    requires !ValidCrossToken(p)
    ensures ValidSameToken(p) && ReportedInput(abi, p, receipt).Some?
    ensures ReportedInput(abi, p, receipt).value <= BaseUnits(p.total) + BaseUnits(p.total) * MAX_FEE_BPS / BPS
  {
    hide AddressesEqual, ValidCrossToken, PayrollVerifier.SameToken, BaseUnits;
    PayrollVerifier.SameTokenDecides(abi, wallet, callData, p, receipt);
    SameTokenChecked(abi, wallet, callData, p, receipt);
    PayrollVerifier.SameTokenIsPhase12(p);
    SameTokenTotal(p);
  }

  lemma SameTokenChecked(abi: PayrollVerifier.Abi, wallet: string, callData: Bytes, p: Payroll, receipt: Receipt)
    requires PayrollVerifier.SameTokenTransaction(abi, wallet, callData, p, receipt).None?
    ensures ValidSameToken(p)
  {
    hide AddressesEqual, ValidSameToken, ValidLogs, PayrollVerifier.SameTokenCallMatches;
  }

  lemma PayrollSpendUnits(p: Payroll)
    requires ValidSameToken(p) || ValidCrossToken(p)
    ensures ValidAmount(PayrollSpend(p))
    ensures ValidSameToken(p) ==>
              BaseUnits(PayrollSpend(p)) == BaseUnits(p.total) + BaseUnits(p.total) * MAX_FEE_BPS / BPS
    ensures ValidCrossToken(p) ==> PayrollSpend(p) == p.crossToken.value.grossInput
  {
    VariantsExclude(p);
    if ValidSameToken(p) {
      PayrollTotalIsValid(p);
      ExposureUnits(p.total);
    } else {
      CrossGrossIsValid(p);
    }
  }

  lemma PayrollTotalIsValid(p: Payroll)
    requires ValidSameToken(p)
    ensures ValidAmount(p.total)
  {
  }

  lemma CrossGrossIsValid(p: Payroll)
    requires ValidCrossToken(p)
    ensures ValidAmount(p.crossToken.value.grossInput)
  {
  }

  /** If the policy allows a payroll and its receipt later verifies, the input reported on
      chain, fees included, is at most the maximum of every covering spending limit. */
  lemma PayrollBounded(
    policy: Policy, i: Intent, caller: Caller, at: Time, stage: Stage, rule: Rule,
    abi: PayrollVerifier.Abi, wallet: string, callData: Bytes, receipt: Receipt)
    requires i.financial.PayrollPayment?
    requires Allows(policy, i, caller, at, stage) && Limits(policy, i, rule)
    requires PayrollVerifier.Verdict(abi, wallet, callData, i.financial.payroll, receipt).status == DomainVerified
    ensures ReportedInput(abi, i.financial.payroll, receipt).Some?
    ensures ReportedInput(abi, i.financial.payroll, receipt).value <= BaseUnits(rule.body.maximum)
    ensures TokenKey(rule.body.token) == TokenKey(ReferenceOf(SourceToken(i.financial.payroll)))
  {
    var p := i.financial.payroll;
    PayrollInput(abi, wallet, callData, p, receipt);
    PayrollSpendUnits(p);
    PayrollView(i);
    hide *;
    AllowBounds(policy, i, caller, at, stage, rule);
  }

  lemma PayrollView(i: Intent)
    requires i.financial.PayrollPayment?
    ensures RawView(i).kind == KindOf(i.financial) == PayrollType
    ensures RawView(i).spendAmount == PayrollSpend(i.financial.payroll)
    ensures RawView(i).spendToken == ReferenceOf(SourceToken(i.financial.payroll))
  {
    hide PayrollSpend, ValidSameToken, ValidCrossToken, SourceToken;
  }

  lemma PayrollInput(abi: PayrollVerifier.Abi, wallet: string, callData: Bytes, p: Payroll, receipt: Receipt)
    requires PayrollVerifier.Verdict(abi, wallet, callData, p, receipt).status == DomainVerified
    ensures ReportedInput(abi, p, receipt).Some? && (ValidSameToken(p) || ValidCrossToken(p))
    ensures ReportedInput(abi, p, receipt).value <= BaseUnits(PayrollSpend(p))
  {
    if ValidCrossToken(p) {
      PayrollVerifier.CrossTokenConserves(abi, wallet, callData, p, receipt);
    } else {
      SameTokenInput(abi, wallet, callData, p, receipt);
    }
    PayrollSpendUnits(p);
    hide ValidSameToken, ValidCrossTimeline, BaseUnits, PayrollSpend, PayrollVerifier.Verdict, PayrollVerifier.Collect;
  }

  // ---------------------------------------------------------------- swap

  lemma SwapBounded(
    policy: Policy, i: Intent, caller: Caller, at: Time, stage: Stage, rule: Rule,
    abi: SwapVerifier.Abi, wallet: string, callData: Bytes, receipt: Receipt)
    requires i.financial.SwapPayment? && ValidSwap(i.financial.swap, 0, 0, 0)
    requires Allows(policy, i, caller, at, stage) && Limits(policy, i, rule)
    requires SwapVerifier.Verdict(abi, wallet, callData, i.financial.swap, receipt).status == DomainVerified
    ensures SwapVerifier.Executed(abi, receipt.logs).Some? && |SwapVerifier.Executed(abi, receipt.logs).value| == 1
    ensures SwapVerifier.Executed(abi, receipt.logs).value[0].amountIn <= BaseUnits(rule.body.maximum)
    ensures TokenKey(rule.body.token) == TokenKey(ReferenceOf(i.financial.swap.inputToken))
  {
    SwapVerifier.SlippageHonoured(abi, wallet, callData, i.financial.swap, receipt);
    SwapInputIsValid(i.financial.swap);
    SwapView(i);
    hide *;
    AllowBounds(policy, i, caller, at, stage, rule);
  }

  lemma SwapView(i: Intent)
    requires i.financial.SwapPayment?
    ensures RawView(i).kind == KindOf(i.financial) == SwapType
    ensures RawView(i).spendAmount == i.financial.swap.inputAmount
    ensures RawView(i).spendToken == ReferenceOf(i.financial.swap.inputToken)
  {
  }

  lemma SwapInputIsValid(p: Swap)
    requires ValidSwap(p, 0, 0, 0)
    ensures ValidAmount(p.inputAmount)
  {
  }
}
