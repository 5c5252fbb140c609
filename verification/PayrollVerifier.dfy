/** Domain verification of payroll receipts (internal/payroll/verifier.go). ABI packing and
    hashing are parameters: topics, call and event decoders, and the reference hash. */
module PayrollVerifier {
  import opened Text
  import opened Receipts
  import opened Amounts
  import opened Intents
  import opened DomainResults

  datatype PaymentEvent = PaymentEvent(
    referenceHash: Bytes, employer: string, tokenOut: string, recipient: string, paymentIndex: int, amountOut: int)

  /** PayrollReferenceConsumed and PayrollBatchExecuted carry the same totals; only the
      former has a reference hash. */
  datatype Totals = Totals(
    employer: string, tokenIn: string, tokenOut: string, totalInput: int, totalOutput: int, totalFees: int,
    recipientCount: int, referenceID: string)

  datatype ReferenceEvent = ReferenceEvent(referenceHash: Bytes, totals: Totals)

  datatype SwapEvent = SwapEvent(
    referenceHash: Bytes, employer: string, tokenIn: string, tokenOut: string,
    grossInput: int, feeAmount: int, netAmountIn: int, amountOut: int, minTotalOut: int)

  datatype RefundEvent = RefundEvent(referenceHash: Bytes, employer: string, tokenOut: string, amount: int)

  datatype SameTokenCall = SameTokenCall(
    token: string, recipients: seq<string>, amounts: seq<int>, referenceID: string)

  datatype Payout = Payout(recipient: string, amount: int)

  datatype CrossTokenCall = CrossTokenCall(
    tokenIn: string, tokenOut: string, grossInput: int, minTotalOut: int, minHopPriceX36: int, deadline: int,
    referenceID: string, payouts: seq<Payout>)

  datatype Abi = Abi(
    paymentTopic: Bytes, referenceTopic: Bytes, batchTopic: Bytes, swapTopic: Bytes, surplusTopic: Bytes,
    payment: ReceiptLog -> Option<PaymentEvent>,
    reference: ReceiptLog -> Option<ReferenceEvent>,
    batch: ReceiptLog -> Option<Totals>,
    swap: ReceiptLog -> Option<SwapEvent>,
    surplus: ReceiptLog -> Option<RefundEvent>,
    sameTokenCall: Bytes -> Option<SameTokenCall>,
    crossTokenCall: Bytes -> Option<CrossTokenCall>,
    referenceHash: (string, string) -> Option<Bytes>,
    quantity: string -> Option<nat>)

  // ---------------------------------------------------------------- events

  datatype Events = Events(
    payments: seq<PaymentEvent>, references: seq<ReferenceEvent>, batches: seq<Totals>,
    swaps: seq<SwapEvent>, refunds: seq<RefundEvent>)

  const NO_EVENTS := Events([], [], [], [], [])

  datatype Collected = Collected(events: Events) | Stopped(code: string)

  datatype LogKind = Foreign | PaymentLog | ReferenceLog | BatchLog | SwapLog | SurplusLog

  function KindOf(abi: Abi, log: ReceiptLog): LogKind {
    if !AddressesEqual(log.address, PAYROLL_CONTRACT) || |log.topics| == 0 then Foreign
    else if log.topics[0] == abi.paymentTopic then PaymentLog
    else if log.topics[0] == abi.referenceTopic then ReferenceLog
    else if log.topics[0] == abi.batchTopic then BatchLog
    else if log.topics[0] == abi.swapTopic then SwapLog
    else if log.topics[0] == abi.surplusTopic then SurplusLog
    else Foreign
  }

  /** One log added to the events; `crossToken` says whether swap events are expected. */
  function Add(abi: Abi, crossToken: bool, events: Events, log: ReceiptLog): Collected {
    match KindOf(abi, log)
    case Foreign => Collected(events)
    case PaymentLog =>
      var e := abi.payment(log);
      if e.None? then Stopped("PAYROLL_PAYMENT_MALFORMED")
      else Collected(events.(payments := events.payments + [e.value]))
    case ReferenceLog =>
      var e := abi.reference(log);
      if e.None? then Stopped("PAYROLL_REFERENCE_MALFORMED")
      else Collected(events.(references := events.references + [e.value]))
    case BatchLog =>
      var e := abi.batch(log);
      if e.None? then Stopped("PAYROLL_BATCH_MALFORMED") else Collected(events.(batches := events.batches + [e.value]))
    case SwapLog =>
      if !crossToken then Stopped("CROSS_TOKEN_EVENT_PRESENT") else
        var e := abi.swap(log);
        if e.None? then Stopped("PAYROLL_SWAP_MALFORMED") else Collected(events.(swaps := events.swaps + [e.value]))
    case SurplusLog =>
      if !crossToken then Stopped("CROSS_TOKEN_EVENT_PRESENT") else
        var e := abi.surplus(log);
        if e.None? then Stopped("PAYROLL_SURPLUS_MALFORMED")
        else Collected(events.(refunds := events.refunds + [e.value]))
  }

  function Collect(abi: Abi, crossToken: bool, events: Events, logs: seq<ReceiptLog>): Collected
    decreases |logs|
  {
    if logs == [] then Collected(events) else
      var next := Add(abi, crossToken, events, logs[0]);
      if next.Stopped? then next else Collect(abi, crossToken, next.events, logs[1..])
  }

  method CollectEvents(abi: Abi, crossToken: bool, logs: seq<ReceiptLog>) returns (collected: Collected)
    ensures collected == Collect(abi, crossToken, NO_EVENTS, logs)
  {
    var events := NO_EVENTS;
    var i := 0;
    while i < |logs|
      invariant i <= |logs|
      invariant Collect(abi, crossToken, NO_EVENTS, logs) == Collect(abi, crossToken, events, logs[i..])
    {
      var next := Add(abi, crossToken, events, logs[i]);
      assert logs[i..][0] == logs[i] && logs[i..][1..] == logs[i + 1..];
      if next.Stopped? {
        return next;
      }
      events := next.events;
      i := i + 1;
    }
    return Collected(events);
  }

  // ---------------------------------------------------------------- same token

  predicate SameLine(call: SameTokenCall, p: Payroll, i: nat)
    requires i < |p.recipients| && i < |call.recipients| && i < |call.amounts|
  {
    AddressesEqual(call.recipients[i], p.recipients[i].address) && call.amounts[i] == UnitsIn(p.recipients[i])
  }

  predicate SameTokenCallMatches(p: Payroll, call: SameTokenCall) {
    && AddressesEqual(call.token, p.tokenIn.address) && call.referenceID == p.referenceID
    && |call.recipients| == |p.recipients| && |call.amounts| == |p.recipients|
    && forall i | 0 <= i < |p.recipients| :: SameLine(call, p, i)
  }

  /** None, or the result of the checks up to the logs. */
  function SameTokenTransaction(
    abi: Abi, wallet: string, callData: Bytes, p: Payroll, receipt: Receipt
  ): Option<DomainResult> {
    if Envelope(wallet, PAYROLL_CONTRACT, receipt).Some? then Envelope(wallet, PAYROLL_CONTRACT, receipt)
    else if abi.quantity(receipt.value) != Some(0) then Some(Failed("TRANSACTION_VALUE_NONZERO"))
    else if receipt.input != callData then Some(Failed("TRANSACTION_CALLDATA_PLAN_MISMATCH"))
    else
      var call := abi.sameTokenCall(receipt.input);
      if call.None? then Some(Failed("TRANSACTION_CALLDATA_INVALID"))
      else if !ValidSameToken(p) then Some(Failed("INTENT_NOT_SAME_TOKEN"))
      else if !SameTokenCallMatches(p, call.value) then Some(Failed("TRANSACTION_FINANCIAL_MISMATCH"))
      else if !ValidLogs(receipt.logs) then Some(Failed("RECEIPT_LOGS_MALFORMED"))
      else None
  }

  /** Payment events in order, each for its line, all under one reference hash. */
  function PaymentProblem(
    wallet: string, tokenOut: string, units: Recipient -> nat, rs: seq<Recipient>, payments: seq<PaymentEvent>, i: nat
  ): Option<string>
    requires |payments| == |rs| && i <= |rs|
    decreases |rs| - i
  {
    if i == |rs| then None
    else if payments[i].paymentIndex != i then Some("PAYROLL_PAYMENT_INDEX_MISMATCH")
    else if !Pays(wallet, tokenOut, units, rs[i], payments[i]) then Some("PAYROLL_PAYMENT_MISMATCH")
    else if payments[i].referenceHash != payments[0].referenceHash then Some("PAYROLL_REFERENCE_HASH_MISMATCH")
    else PaymentProblem(wallet, tokenOut, units, rs, payments, i + 1)
  }

  predicate Pays(wallet: string, tokenOut: string, units: Recipient -> nat, r: Recipient, payment: PaymentEvent) {
    && AddressesEqual(payment.employer, wallet) && AddressesEqual(payment.tokenOut, tokenOut)
    && AddressesEqual(payment.recipient, r.address) && payment.amountOut == units(r)
  }

  predicate Names(t: Totals, wallet: string, tokenIn: string, tokenOut: string, referenceID: string) {
    && AddressesEqual(t.employer, wallet) && AddressesEqual(t.tokenIn, tokenIn) && AddressesEqual(t.tokenOut, tokenOut)
    && t.referenceID == referenceID
  }

  predicate SameTokenTotals(total: nat, count: nat, a: Totals, b: Totals) {
    && a.recipientCount == count && b.recipientCount == count
    && a.totalOutput == total && b.totalOutput == total
    && a.totalInput == b.totalInput && a.totalFees == b.totalFees
    && a.totalFees <= total * MAX_FEE_BPS / BPS
    && a.totalInput == total + a.totalFees
  }

  const SAME_TOKEN_VERIFIED := DomainResult(DomainVerified, "SAME_TOKEN_PAYROLL_VERIFIED")

  function SameTokenEvents(wallet: string, p: Payroll, events: Events): DomainResult {
    var rs, token := p.recipients, p.tokenIn.address;
    if |events.payments| != |rs| then Failed("PAYROLL_PAYMENT_COUNT_MISMATCH")
    else if |events.references| != 1 || |events.batches| != 1 then Failed("PAYROLL_AGGREGATE_EVENT_COUNT_MISMATCH")
    else
      var problem := PaymentProblem(wallet, token, UnitsIn, rs, events.payments, 0);
      var reference, batch := events.references[0], events.batches[0];
      if problem.Some? then Failed(problem.value)
      else if !(ReferenceHashOf(events.payments) == reference.referenceHash
                && Names(reference.totals, wallet, token, token,
                         p.referenceID)) then Failed("PAYROLL_REFERENCE_MISMATCH")
      else if !Names(batch, wallet, token, token, p.referenceID) then Failed("PAYROLL_BATCH_MISMATCH")
      else if !SameTokenTotals(SumIn(rs), |rs|, reference.totals, batch) then Failed("PAYROLL_AGGREGATE_TOTAL_MISMATCH")
      else SAME_TOKEN_VERIFIED
  }

  function ZeroHash(): (hash: Bytes)
    ensures |hash| == 32 && forall i | 0 <= i < 32 :: hash[i] == 0
  {
    seq(32, _ => 0)
  }

  function ReferenceHashOf(payments: seq<PaymentEvent>): Bytes {
    if payments == [] then ZeroHash() else payments[0].referenceHash
  }

  /** Verify for a payroll that is not cross-token. */
  function SameToken(abi: Abi, wallet: string, callData: Bytes, p: Payroll, receipt: Receipt): DomainResult {
    var stopped := SameTokenTransaction(abi, wallet, callData, p, receipt);
    if stopped.Some? then stopped.value else
      var collected := Collect(abi, false, NO_EVENTS, receipt.logs);
      if collected.Stopped? then Failed(collected.code) else SameTokenEvents(wallet, p, collected.events)
  }

  // ---------------------------------------------------------------- cross token

  predicate CrossLine(call: CrossTokenCall, p: Payroll, i: nat)
    requires i < |p.recipients| && i < |call.payouts|
  {
    && AddressesEqual(call.payouts[i].recipient, p.recipients[i].address)
    && call.payouts[i].amount == UnitsOut(p.recipients[i])
  }

  predicate CrossCallHead(p: Payroll, call: CrossTokenCall)
    requires p.crossToken.Some? && p.recipients != []
  {
    var c := p.crossToken.value;
    && AddressesEqual(call.tokenIn, p.tokenIn.address) && AddressesEqual(call.tokenOut,
                                                                         p.recipients[0].tokenOut.address)
    && call.grossInput == BaseUnits(c.grossInput) && call.minTotalOut == BaseUnits(c.minTotalOut)
    && ParseBig(c.minHopPriceX36) == Some(call.minHopPriceX36)
    && call.deadline == UnixSeconds(c.deadline) && call.referenceID == p.referenceID
    && |call.payouts| == |p.recipients|
  }

  predicate CrossTokenCallMatches(p: Payroll, call: CrossTokenCall)
    requires p.crossToken.Some? && p.recipients != []
  {
    CrossCallHead(p, call) && forall i | 0 <= i < |p.recipients| :: CrossLine(call, p, i)
  }

  function ExpectedValue(p: Payroll, gross: nat): nat {
    if AddressesEqual(p.tokenIn.address, USDC) then gross * NATIVE_SCALE else 0
  }

  function CrossTokenTransaction(
    abi: Abi, wallet: string, callData: Bytes, p: Payroll, receipt: Receipt
  ): Option<DomainResult>
    requires p.crossToken.Some? && p.recipients != []
  {
    if Envelope(wallet, PAYROLL_CONTRACT, receipt).Some? then Envelope(wallet, PAYROLL_CONTRACT, receipt)
    else if receipt.input != callData then Some(Failed("TRANSACTION_CALLDATA_PLAN_MISMATCH"))
    else
      var call, value := abi.crossTokenCall(receipt.input), abi.quantity(receipt.value);
      if call.None? then Some(Failed("TRANSACTION_CALLDATA_INVALID"))
      else if !CrossTokenCallMatches(p, call.value) then Some(Failed("TRANSACTION_FINANCIAL_MISMATCH"))
      else if value.None? then Some(Failed("TRANSACTION_VALUE_INVALID"))
      else if value.value != ExpectedValue(p, BaseUnits(p.crossToken.value.grossInput)) then
        Some(Failed("TRANSACTION_VALUE_MISMATCH"))
      else if !ValidLogs(receipt.logs) then Some(Failed("RECEIPT_LOGS_MALFORMED"))
      else None
  }

  /** What the swap event must say; the reason code of the first thing it does not. */
  function SwapProblem(
    wallet: string, p: Payroll, hash: Bytes, gross: nat, minimum: nat, obligations: nat, e: SwapEvent
  ): Option<string>
    requires p.recipients != []
  {
    if !(&& e.referenceHash == hash && AddressesEqual(e.employer, wallet)
         && AddressesEqual(e.tokenIn, p.tokenIn.address) && AddressesEqual(e.tokenOut, p.recipients[0].tokenOut.address)
         && e.grossInput == gross && e.minTotalOut == minimum) then Some("PAYROLL_SWAP_MISMATCH")
    else if e.netAmountIn + e.feeAmount != gross then Some("PAYROLL_FEE_ARITHMETIC_MISMATCH")
    else if e.feeAmount * BPS > gross * MAX_FEE_BPS then Some("PAYROLL_FEE_EXCEEDS_MAXIMUM")
    else if e.amountOut < minimum || e.amountOut < obligations then Some("PAYROLL_OUTPUT_BELOW_REQUIRED")
    else None
  }

  predicate PaysLine(wallet: string, tokenOut: string, hash: Bytes, r: Recipient, i: nat, payment: PaymentEvent) {
    payment.referenceHash == hash && payment.paymentIndex == i && Pays(wallet, tokenOut, UnitsOut, r, payment)
  }

  predicate CrossTokenTotals(gross: nat, obligations: nat, fee: int, count: nat, t: Totals) {
    t.totalInput == gross && t.totalOutput == obligations && t.totalFees == fee && t.recipientCount == count
  }

  predicate RefundMatches(wallet: string, tokenOut: string, hash: Bytes, surplus: int, refunds: seq<RefundEvent>) {
    && |refunds| == 1 && refunds[0].referenceHash == hash && AddressesEqual(refunds[0].employer, wallet)
    && AddressesEqual(refunds[0].tokenOut, tokenOut) && refunds[0].amount == surplus
  }

  const CROSS_TOKEN_VERIFIED := DomainResult(DomainVerified, "CROSS_TOKEN_PAYROLL_VERIFIED")

  function CrossTokenEvents(abi: Abi, wallet: string, p: Payroll, events: Events): DomainResult
    requires p.crossToken.Some? && p.recipients != []
  {
    var c, rs, tokenOut := p.crossToken.value, p.recipients, p.recipients[0].tokenOut.address;
    var gross, minimum, obligations := BaseUnits(c.grossInput), BaseUnits(c.minTotalOut), SumOut(rs);
    if |events.swaps| != 1 || |events.references| != 1 || |events.batches| != 1 || |events.payments| != |rs| then
      Failed("PAYROLL_EVENT_COUNT_MISMATCH")
    else if abi.referenceHash(wallet, p.referenceID).None? then Failed("PAYROLL_REFERENCE_HASH_INVALID")
    else
      var hash := abi.referenceHash(wallet, p.referenceID).value;
      var swap, reference, batch := events.swaps[0], events.references[0], events.batches[0];
      var problem := SwapProblem(wallet, p, hash, gross, minimum, obligations, swap);
      if problem.Some? then Failed(problem.value)
      else if exists i | 0 <= i < |rs| :: !PaysLine(wallet, tokenOut, hash, rs[i], i, events.payments[i]) then
        Failed("PAYROLL_PAYMENT_MISMATCH")
      else if !(&& reference.referenceHash == hash
                && Names(reference.totals, wallet, p.tokenIn.address, tokenOut, p.referenceID)
                && CrossTokenTotals(gross, obligations, swap.feeAmount, |rs|, reference.totals)) then
        Failed("PAYROLL_REFERENCE_MISMATCH")
      else if !(&& Names(batch, wallet, p.tokenIn.address, tokenOut, p.referenceID)
                && CrossTokenTotals(gross, obligations, swap.feeAmount, |rs|, batch)) then
        Failed("PAYROLL_BATCH_MISMATCH")
      else if swap.amountOut > obligations
              && !RefundMatches(wallet, tokenOut, hash, swap.amountOut - obligations, events.refunds) then
        Failed("PAYROLL_SURPLUS_MISMATCH")
      else if swap.amountOut == obligations && events.refunds != [] then Failed("PAYROLL_UNEXPECTED_SURPLUS")
      else CROSS_TOKEN_VERIFIED
  }

  function CrossTokenVerdict(abi: Abi, wallet: string, callData: Bytes, p: Payroll, receipt: Receipt): DomainResult
    requires p.crossToken.Some? && p.recipients != []
  {
    var stopped := CrossTokenTransaction(abi, wallet, callData, p, receipt);
    if stopped.Some? then stopped.value else
      var collected := Collect(abi, true, NO_EVENTS, receipt.logs);
      if collected.Stopped? then Failed(collected.code) else CrossTokenEvents(abi, wallet, p, collected.events)
  }

  /** Verify, once intent and plan are bound. */
  function Verdict(abi: Abi, wallet: string, callData: Bytes, p: Payroll, receipt: Receipt): DomainResult {
    if ValidCrossToken(p) then CrossTokenVerdict(abi, wallet, callData, p, receipt)
    else SameToken(abi, wallet, callData, p, receipt)
  }

  // ---------------------------------------------------------------- as computed

  lemma SumExtends(rs: seq<Recipient>, units: Recipient -> nat, i: nat)
    requires i < |rs|
    ensures Sum(rs[..i + 1], units) == Sum(rs[..i], units) + units(rs[i])
  {
    assert rs[..i + 1][..i] == rs[..i];
  }

  /** Compares the decoded call line by line while adding up the total. */
  method MatchSameTokenCall(p: Payroll, call: SameTokenCall) returns (ok: bool, total: nat)
    ensures ok <==> SameTokenCallMatches(p, call)
    ensures ok ==> total == SumIn(p.recipients)
  {
    hide AddressesEqual;
    total := 0;
    var rs := p.recipients;
    if !AddressesEqual(call.token, p.tokenIn.address) || call.referenceID != p.referenceID
       || |call.recipients| != |rs| || |call.amounts| != |rs| {
      return false, total;
    }
    var i := 0;
    while i < |rs|
      invariant i <= |rs|
      invariant forall k | 0 <= k < i :: SameLine(call, p, k)
      invariant total == Sum(rs[..i], UnitsIn)
    {
      if !SameLine(call, p, i) {
        return false, total;
      }
      SumExtends(rs, UnitsIn, i);
      total := total + UnitsIn(rs[i]);
      i := i + 1;
    }
    assert rs[..i] == rs;
    return true, total;
  }

  method CheckPayments(wallet: string, tokenOut: string, rs: seq<Recipient>, payments: seq<PaymentEvent>)
    returns (problem: Option<string>)
    requires |payments| == |rs|
    ensures problem == PaymentProblem(wallet, tokenOut, UnitsIn, rs, payments, 0)
  {
    var i := 0;
    while i < |rs|
      invariant i <= |rs|
      invariant PaymentProblem(wallet, tokenOut, UnitsIn, rs, payments, 0)
             == PaymentProblem(wallet, tokenOut, UnitsIn, rs, payments, i)
    {
      if payments[i].paymentIndex != i {
        return Some("PAYROLL_PAYMENT_INDEX_MISMATCH");
      }
      if !Pays(wallet, tokenOut, UnitsIn, rs[i], payments[i]) {
        return Some("PAYROLL_PAYMENT_MISMATCH");
      }
      if payments[i].referenceHash != payments[0].referenceHash {
        return Some("PAYROLL_REFERENCE_HASH_MISMATCH");
      }
      i := i + 1;
    }
    return None;
  }

  method JudgeSameTokenEvents(wallet: string, p: Payroll, total: nat, events: Events) returns (result: DomainResult)
    requires total == SumIn(p.recipients)
    ensures result == SameTokenEvents(wallet, p, events)
  {
    var rs, token := p.recipients, p.tokenIn.address;
    if |events.payments| != |rs| {
      return Failed("PAYROLL_PAYMENT_COUNT_MISMATCH");
    }
    if |events.references| != 1 || |events.batches| != 1 {
      return Failed("PAYROLL_AGGREGATE_EVENT_COUNT_MISMATCH");
    }
    var problem := CheckPayments(wallet, token, rs, events.payments);
    if problem.Some? {
      return Failed(problem.value);
    }
    var reference, batch := events.references[0], events.batches[0];
    if reference.referenceHash != ReferenceHashOf(events.payments)
       || !Names(reference.totals, wallet, token, token, p.referenceID) {
      return Failed("PAYROLL_REFERENCE_MISMATCH");
    }
    if !Names(batch, wallet, token, token, p.referenceID) {
      return Failed("PAYROLL_BATCH_MISMATCH");
    }
    if !SameTokenTotals(total, |rs|, reference.totals, batch) {
      return Failed("PAYROLL_AGGREGATE_TOTAL_MISMATCH");
    }
    return SAME_TOKEN_VERIFIED;
  }

  method VerifySameToken(abi: Abi, wallet: string, callData: Bytes, p: Payroll, receipt: Receipt)
    returns (result: DomainResult)
    ensures result == SameToken(abi, wallet, callData, p, receipt)
  {
    var stopped := Envelope(wallet, PAYROLL_CONTRACT, receipt);
    if stopped.Some? {
      return stopped.value;
    }
    if abi.quantity(receipt.value) != Some(0) {
      return Failed("TRANSACTION_VALUE_NONZERO");
    }
    if receipt.input != callData {
      return Failed("TRANSACTION_CALLDATA_PLAN_MISMATCH");
    }
    var call := abi.sameTokenCall(receipt.input);
    if call.None? {
      return Failed("TRANSACTION_CALLDATA_INVALID");
    }
    var executable := ValidateSameToken(p);
    if !executable {
      return Failed("INTENT_NOT_SAME_TOKEN");
    }
    var matches, total := MatchSameTokenCall(p, call.value);
    if !matches {
      return Failed("TRANSACTION_FINANCIAL_MISMATCH");
    }
    if !ValidLogs(receipt.logs) {
      return Failed("RECEIPT_LOGS_MALFORMED");
    }
    var collected := CollectEvents(abi, false, receipt.logs);
    if collected.Stopped? {
      return Failed(collected.code);
    }
    result := JudgeSameTokenEvents(wallet, p, total, collected.events);
  }

  method MatchCrossTokenCall(p: Payroll, call: CrossTokenCall) returns (ok: bool, obligations: nat)
    requires p.crossToken.Some? && p.recipients != []
    ensures ok <==> CrossTokenCallMatches(p, call)
    ensures ok ==> obligations == SumOut(p.recipients)
  {
    hide AddressesEqual;
    obligations := 0;
    var rs := p.recipients;
    if !CrossCallHead(p, call) {
      return false, obligations;
    }
    var i := 0;
    while i < |rs|
      invariant i <= |rs|
      invariant forall k | 0 <= k < i :: CrossLine(call, p, k)
      invariant obligations == Sum(rs[..i], UnitsOut)
    {
      if !CrossLine(call, p, i) {
        return false, obligations;
      }
      SumExtends(rs, UnitsOut, i);
      obligations := obligations + UnitsOut(rs[i]);
      i := i + 1;
    }
    assert rs[..i] == rs;
    return true, obligations;
  }

  method CheckPayouts(
    wallet: string, tokenOut: string, hash: Bytes, rs: seq<Recipient>, payments: seq<PaymentEvent>
  ) returns (ok: bool)
    requires |payments| == |rs|
    ensures ok <==> forall i | 0 <= i < |rs| :: PaysLine(wallet, tokenOut, hash, rs[i], i, payments[i])
  {
    hide AddressesEqual;
    var i := 0;
    while i < |rs|
      invariant i <= |rs|
      invariant forall k | 0 <= k < i :: PaysLine(wallet, tokenOut, hash, rs[k], k, payments[k])
    {
      if !PaysLine(wallet, tokenOut, hash, rs[i], i, payments[i]) {
        return false;
      }
      i := i + 1;
    }
    return true;
  }

  method JudgeCrossTokenEvents(abi: Abi, wallet: string, p: Payroll, obligations: nat, events: Events)
    returns (result: DomainResult)
    requires p.crossToken.Some? && p.recipients != [] && obligations == SumOut(p.recipients)
    ensures result == CrossTokenEvents(abi, wallet, p, events)
  {
    hide AddressesEqual;
    var c, rs, tokenOut := p.crossToken.value, p.recipients, p.recipients[0].tokenOut.address;
    var gross, minimum := BaseUnits(c.grossInput), BaseUnits(c.minTotalOut);
    if |events.swaps| != 1 || |events.references| != 1 || |events.batches| != 1 || |events.payments| != |rs| {
      return Failed("PAYROLL_EVENT_COUNT_MISMATCH");
    }
    var expected := abi.referenceHash(wallet, p.referenceID);
    if expected.None? {
      return Failed("PAYROLL_REFERENCE_HASH_INVALID");
    }
    var hash, swap := expected.value, events.swaps[0];
    var problem := SwapProblem(wallet, p, hash, gross, minimum, obligations, swap);
    if problem.Some? {
      return Failed(problem.value);
    }
    var paid := CheckPayouts(wallet, tokenOut, hash, rs, events.payments);
    if !paid {
      return Failed("PAYROLL_PAYMENT_MISMATCH");
    }
    var reference, batch := events.references[0], events.batches[0];
    if reference.referenceHash != hash || !Names(reference.totals, wallet, p.tokenIn.address, tokenOut, p.referenceID)
       || !CrossTokenTotals(gross, obligations, swap.feeAmount, |rs|, reference.totals) {
      return Failed("PAYROLL_REFERENCE_MISMATCH");
    }
    if !Names(batch, wallet, p.tokenIn.address, tokenOut, p.referenceID)
       || !CrossTokenTotals(gross, obligations, swap.feeAmount, |rs|, batch) {
      return Failed("PAYROLL_BATCH_MISMATCH");
    }
    var surplus := swap.amountOut - obligations;
    if surplus > 0 {
      if !RefundMatches(wallet, tokenOut, hash, surplus, events.refunds) {
        return Failed("PAYROLL_SURPLUS_MISMATCH");
      }
    } else if |events.refunds| != 0 {
      return Failed("PAYROLL_UNEXPECTED_SURPLUS");
    }
    return CROSS_TOKEN_VERIFIED;
  }

  method VerifyCrossToken(abi: Abi, wallet: string, callData: Bytes, p: Payroll, receipt: Receipt)
    returns (result: DomainResult)
    requires p.crossToken.Some? && p.recipients != []
    ensures result == CrossTokenVerdict(abi, wallet, callData, p, receipt)
  {
    var stopped := Envelope(wallet, PAYROLL_CONTRACT, receipt);
    if stopped.Some? {
      return stopped.value;
    }
    if receipt.input != callData {
      return Failed("TRANSACTION_CALLDATA_PLAN_MISMATCH");
    }
    var call := abi.crossTokenCall(receipt.input);
    if call.None? {
      return Failed("TRANSACTION_CALLDATA_INVALID");
    }
    var matches, obligations := MatchCrossTokenCall(p, call.value);
    if !matches {
      return Failed("TRANSACTION_FINANCIAL_MISMATCH");
    }
    var value := abi.quantity(receipt.value);
    if value.None? {
      return Failed("TRANSACTION_VALUE_INVALID");
    }
    if value.value != ExpectedValue(p, BaseUnits(p.crossToken.value.grossInput)) {
      return Failed("TRANSACTION_VALUE_MISMATCH");
    }
    if !ValidLogs(receipt.logs) {
      return Failed("RECEIPT_LOGS_MALFORMED");
    }
    var collected := CollectEvents(abi, true, receipt.logs);
    if collected.Stopped? {
      return Failed(collected.code);
    }
    result := JudgeCrossTokenEvents(abi, wallet, p, obligations, collected.events);
  }

  method Verify(abi: Abi, wallet: string, callData: Bytes, p: Payroll, receipt: Receipt) returns (result: DomainResult)
    ensures result == Verdict(abi, wallet, callData, p, receipt)
  {
    var crossToken := ValidateCrossTokenTimeline(p, 0, 0, 0, "");
    if crossToken {
      result := VerifyCrossToken(abi, wallet, callData, p, receipt);
    } else {
      result := VerifySameToken(abi, wallet, callData, p, receipt);
    }
  }

  // ---------------------------------------------------------------- what VERIFIED means

  lemma {:induction false} NoPaymentProblem(
    wallet: string, tokenOut: string, units: Recipient -> nat, rs: seq<Recipient>, payments: seq<PaymentEvent>, i: nat)
    requires |payments| == |rs| && i <= |rs|
    ensures PaymentProblem(wallet, tokenOut, units, rs, payments, i).None? <==>
              forall k | i <= k < |rs| :: PaysInOrder(wallet, tokenOut, units, rs, payments, k)
    decreases |rs| - i
  {
    hide AddressesEqual;
    if i < |rs| {
      NoPaymentProblem(wallet, tokenOut, units, rs, payments, i + 1);
      assert (forall k | i <= k < |rs| :: PaysInOrder(wallet, tokenOut, units, rs, payments, k)) <==>
             (PaysInOrder(wallet, tokenOut, units, rs, payments, i)
              && forall k | i + 1 <= k < |rs| :: PaysInOrder(wallet, tokenOut, units, rs, payments, k));
    }
  }

  predicate PaysInOrder(
    wallet: string, tokenOut: string, units: Recipient -> nat, rs: seq<Recipient>, payments: seq<PaymentEvent>, k: nat)
    requires |payments| == |rs| && k < |rs|
  {
    && payments[k].paymentIndex == k && Pays(wallet, tokenOut, units, rs[k], payments[k])
    && payments[k].referenceHash == payments[0].referenceHash
  }

  /** Same-token settlement, independent of the order of checks: one payment event per line
      in order, one reference and one batch event, and totals that add up. */
  predicate SettlesSameToken(wallet: string, p: Payroll, events: Events) {
    var rs, token := p.recipients, p.tokenIn.address;
    && |events.payments| == |rs| && |events.references| == 1 && |events.batches| == 1
    && (forall k | 0 <= k < |rs| :: PaysInOrder(wallet, token, UnitsIn, rs, events.payments, k))
    && events.references[0].referenceHash == ReferenceHashOf(events.payments)
    && Names(events.references[0].totals, wallet, token, token, p.referenceID)
    && Names(events.batches[0], wallet, token, token, p.referenceID)
    && SameTokenTotals(SumIn(rs), |rs|, events.references[0].totals, events.batches[0])
  }

  lemma SameTokenEventsIff(wallet: string, p: Payroll, events: Events)
    ensures SameTokenEvents(wallet, p, events).status == DomainVerified <==> SettlesSameToken(wallet, p, events)
  {
    hide AddressesEqual, Names, Pays, SameTokenTotals, PaymentProblem, PaysInOrder, Sum;
    if |events.payments| == |p.recipients| {
      NoPaymentProblem(wallet, p.tokenIn.address, UnitsIn, p.recipients, events.payments, 0);
    }
  }

  /** Accepted exactly when the transaction is the planned one and its payroll events settle
      the intent. */
  lemma SameTokenDecides(abi: Abi, wallet: string, callData: Bytes, p: Payroll, receipt: Receipt)
    ensures SameToken(abi, wallet, callData, p, receipt).status == DomainVerified <==>
              && SameTokenTransaction(abi, wallet, callData, p, receipt).None?
              && Collect(abi, false, NO_EVENTS, receipt.logs).Collected?
              && SettlesSameToken(wallet, p, Collect(abi, false, NO_EVENTS, receipt.logs).events)
  {
    TransactionNeverVerifies(abi, wallet, callData, p, receipt);
    var collected := Collect(abi, false, NO_EVENTS, receipt.logs);
    if collected.Collected? {
      SameTokenEventsIff(wallet, p, collected.events);
    }
  }

  lemma TransactionNeverVerifies(abi: Abi, wallet: string, callData: Bytes, p: Payroll, receipt: Receipt)
    ensures var stopped := SameTokenTransaction(abi, wallet, callData, p, receipt);
            && (stopped.Some? ==> stopped.value.status != DomainVerified)
            && (stopped.None? ==> ValidLogs(receipt.logs))
  {
    hide AddressesEqual, ValidSameToken, SameTokenCallMatches, ValidLogs;
  }

  lemma CrossTransactionNeverVerifies(abi: Abi, wallet: string, callData: Bytes, p: Payroll, receipt: Receipt)
    requires p.crossToken.Some? && p.recipients != []
    ensures var stopped := CrossTokenTransaction(abi, wallet, callData, p, receipt);
            && (stopped.Some? ==> stopped.value.status != DomainVerified)
            && (stopped.None? ==> ValidLogs(receipt.logs))
  {
    hide AddressesEqual, CrossTokenCallMatches, ValidLogs;
  }

  // ---------------------------------------------------------------- foreign logs

  /** The logs the verifier looks at. */
  function Core(abi: Abi, logs: seq<ReceiptLog>): seq<ReceiptLog> {
    if logs == [] then []
    else (if KindOf(abi, logs[0]) == Foreign then [] else [logs[0]]) + Core(abi, logs[1..])
  }

  lemma {:induction false} CollectReadsCore(abi: Abi, crossToken: bool, events: Events, logs: seq<ReceiptLog>)
    ensures Collect(abi, crossToken, events, logs) == Collect(abi, crossToken, events, Core(abi, logs))
    decreases |logs|
  {
    if logs != [] {
      var next := Add(abi, crossToken, events, logs[0]);
      var core := Core(abi, logs);
      if KindOf(abi, logs[0]) == Foreign {
        assert core == Core(abi, logs[1..]);
      } else {
        assert core[0] == logs[0] && core[1..] == Core(abi, logs[1..]);
      }
      if next.Collected? {
        CollectReadsCore(abi, crossToken, next.events, logs[1..]);
      }
    }
  }

  lemma {:induction false} ForeignLogIsNoCore(
    abi: Abi, before: seq<ReceiptLog>, log: ReceiptLog, after: seq<ReceiptLog>)
    requires KindOf(abi, log) == Foreign
    ensures Core(abi, before + [log] + after) == Core(abi, before + after)
  {
    hide AddressesEqual;
    if before == [] {
      assert before + [log] + after == [log] + after && before + after == after;
      assert ([log] + after)[1..] == after;
      assert Core(abi, [log] + after) == [] + Core(abi, after);
    } else {
      assert (before + [log] + after)[1..] == before[1..] + [log] + after;
      assert (before + after)[1..] == before[1..] + after;
      ForeignLogIsNoCore(abi, before[1..], log, after);
    }
  }

  lemma SameTokenReadsCore(
    abi: Abi, wallet: string, callData: Bytes, p: Payroll, receipt: Receipt, logs: seq<ReceiptLog>)
    requires ValidLogs(receipt.logs) && ValidLogs(logs) && Core(abi, logs) == Core(abi, receipt.logs)
    ensures SameToken(abi, wallet, callData, p, receipt.(logs := logs)) == SameToken(abi, wallet, callData, p, receipt)
  {
    hide AddressesEqual, ValidSameToken, SameTokenEvents, SameTokenCallMatches, ValidLogs, Collect, Core;
    CollectReadsCore(abi, false, NO_EVENTS, logs);
    CollectReadsCore(abi, false, NO_EVENTS, receipt.logs);
  }

  lemma CrossTokenReadsCore(
    abi: Abi, wallet: string, callData: Bytes, p: Payroll, receipt: Receipt, logs: seq<ReceiptLog>)
    requires p.crossToken.Some? && p.recipients != []
    requires ValidLogs(receipt.logs) && ValidLogs(logs) && Core(abi, logs) == Core(abi, receipt.logs)
    ensures CrossTokenVerdict(abi, wallet, callData, p, receipt.(logs := logs))
         == CrossTokenVerdict(abi, wallet, callData, p, receipt)
  {
    hide AddressesEqual, CrossTokenEvents, CrossTokenCallMatches, ExpectedValue, ValidLogs, Collect, Core;
    CollectReadsCore(abi, true, NO_EVENTS, logs);
    CollectReadsCore(abi, true, NO_EVENTS, receipt.logs);
  }

  /** Receipts that differ only in well-formed foreign logs get the same result, as long as
      both stay within the log bound. */
  lemma ForeignLogsIgnored(
    abi: Abi, wallet: string, callData: Bytes, p: Payroll, receipt: Receipt, logs: seq<ReceiptLog>)
    requires ValidLogs(receipt.logs) && ValidLogs(logs) && Core(abi, logs) == Core(abi, receipt.logs)
    ensures Verdict(abi, wallet, callData, p, receipt.(logs := logs)) == Verdict(abi, wallet, callData, p, receipt)
  {
    if ValidCrossToken(p) {
      CrossTokenReadsCore(abi, wallet, callData, p, receipt, logs);
    } else {
      SameTokenReadsCore(abi, wallet, callData, p, receipt, logs);
    }
  }

  /** Past the bound a receipt that would verify is refused, whatever it holds. */
  lemma TooManyLogsRefused(abi: Abi, wallet: string, callData: Bytes, p: Payroll, receipt: Receipt)
    requires |receipt.logs| > MAX_RECEIPT_LOGS
    ensures Verdict(abi, wallet, callData, p, receipt).status != DomainVerified
  {
    if ValidCrossToken(p) {
      CrossTransactionNeverVerifies(abi, wallet, callData, p, receipt);
    } else {
      TransactionNeverVerifies(abi, wallet, callData, p, receipt);
    }
  }

  predicate WellFormed(logs: seq<ReceiptLog>) { forall i | 0 <= i < |logs| :: ValidLog(logs[i]) }

  lemma VerifiedHasValidLogs(abi: Abi, wallet: string, callData: Bytes, p: Payroll, receipt: Receipt)
    requires Verdict(abi, wallet, callData, p, receipt).status == DomainVerified
    ensures ValidLogs(receipt.logs)
  {
    if ValidCrossToken(p) {
      CrossTransactionNeverVerifies(abi, wallet, callData, p, receipt);
    } else {
      TransactionNeverVerifies(abi, wallet, callData, p, receipt);
    }
  }

  /** A verified receipt to which well-formed foreign logs are added, or from which they are
      removed, still verifies exactly when it holds at most 64 logs. */
  lemma ForeignLogsIffBound(
    abi: Abi, wallet: string, callData: Bytes, p: Payroll, receipt: Receipt, logs: seq<ReceiptLog>)
    requires Verdict(abi, wallet, callData, p, receipt).status == DomainVerified
    requires WellFormed(logs) && Core(abi, logs) == Core(abi, receipt.logs)
    ensures Verdict(abi, wallet, callData, p, receipt.(logs := logs)).status == DomainVerified <==>
            |logs| <= MAX_RECEIPT_LOGS
  {
    hide Verdict, Core;
    VerifiedHasValidLogs(abi, wallet, callData, p, receipt);
    if |logs| <= MAX_RECEIPT_LOGS {
      ForeignLogsIgnored(abi, wallet, callData, p, receipt, logs);
    } else {
      TooManyLogsRefused(abi, wallet, callData, p, receipt.(logs := logs));
    }
  }

  /** A log of the zero address without topics. */
  function ForeignLog(): ReceiptLog { ReceiptLog("0x" + Zeros(40), [], [], 0, false, "") }

  function Padding(n: nat): (logs: seq<ReceiptLog>)
    ensures |logs| == n && forall i | 0 <= i < n :: logs[i] == ForeignLog()
  {
    seq(n, _ => ForeignLog())
  }

  lemma {:induction false} PaddingIsNoCore(abi: Abi, logs: seq<ReceiptLog>, n: nat)
    ensures Core(abi, logs + Padding(n)) == Core(abi, logs)
  {
    if n == 0 {
      assert logs + Padding(0) == logs;
    } else {
      PaddingIsNoCore(abi, logs, n - 1);
      ForeignLogIsNoCore(abi, logs + Padding(n - 1), ForeignLog(), []);
      assert logs + Padding(n) == logs + Padding(n - 1) + [ForeignLog()] + [];
      assert logs + Padding(n - 1) + [] == logs + Padding(n - 1);
    }
  }

  lemma ForeignLogIsValid()
    ensures ValidLog(ForeignLog())
  {
    var address := "0x" + Zeros(40);
    assert address[..2] == "0x" && forall i | 2 <= i < 42 :: address[i] == '0';
  }

  /** Every verified receipt, padded with empty foreign logs, verifies with 64 of them in all
      and is refused with 65. */
  lemma SixtyFifthLogRefused(abi: Abi, wallet: string, callData: Bytes, p: Payroll, receipt: Receipt)
    requires Verdict(abi, wallet, callData, p, receipt).status == DomainVerified
    ensures |receipt.logs| <= MAX_RECEIPT_LOGS
    ensures var fits := receipt.logs + Padding(64 - |receipt.logs|);
            |fits| == 64 && Verdict(abi, wallet, callData, p, receipt.(logs := fits)).status == DomainVerified
    ensures var exceeds := receipt.logs + Padding(65 - |receipt.logs|);
            |exceeds| == 65 && Verdict(abi, wallet, callData, p, receipt.(logs := exceeds)).status != DomainVerified
  {
    hide Verdict, Core, ValidLog;
    VerifiedHasValidLogs(abi, wallet, callData, p, receipt);
    ForeignLogIsValid();
    PaddingIsNoCore(abi, receipt.logs, 64 - |receipt.logs|);
    PaddingIsNoCore(abi, receipt.logs, 65 - |receipt.logs|);
    ForeignLogsIffBound(abi, wallet, callData, p, receipt, receipt.logs + Padding(64 - |receipt.logs|));
    ForeignLogsIffBound(abi, wallet, callData, p, receipt, receipt.logs + Padding(65 - |receipt.logs|));
  }

  // ---------------------------------------------------------------- conservation

  function SumPaid(payments: seq<PaymentEvent>): int {
    if payments == [] then 0 else SumPaid(payments[..|payments| - 1]) + payments[|payments| - 1].amountOut
  }

  lemma {:induction false} PaidIsOwed(rs: seq<Recipient>, units: Recipient -> nat, payments: seq<PaymentEvent>)
    requires |payments| == |rs| && forall i | 0 <= i < |rs| :: payments[i].amountOut == units(rs[i])
    ensures SumPaid(payments) == Sum(rs, units)
  {
    if rs != [] {
      PaidIsOwed(rs[..|rs| - 1], units, payments[..|payments| - 1]);
    }
  }

  /** A verified same-token receipt: what the employer paid is exactly what the recipients
      got plus fees, and fees are at most one percent. */
  lemma SameTokenConserves(abi: Abi, wallet: string, callData: Bytes, p: Payroll, receipt: Receipt)
    requires SameToken(abi, wallet, callData, p, receipt).status == DomainVerified
    ensures Collect(abi, false, NO_EVENTS, receipt.logs).Collected?
    ensures var e := Collect(abi, false, NO_EVENTS, receipt.logs).events;
            && |e.batches| == 1 && |e.payments| == |p.recipients|
            && e.batches[0].totalInput == SumPaid(e.payments) + e.batches[0].totalFees
            && BPS * e.batches[0].totalFees <= MAX_FEE_BPS * SumPaid(e.payments)
            && SumPaid(e.payments) == BaseUnits(p.total)
  {
    SameTokenDecides(abi, wallet, callData, p, receipt);
    var e := Collect(abi, false, NO_EVENTS, receipt.logs).events;
    SettledSameConserves(wallet, p, e);
    SameTokenIsPhase12(p);
    SameTokenTotal(p);
  }

  lemma SameTokenIsPhase12(p: Payroll)
    requires ValidSameToken(p)
    ensures ValidPhase12(p)
  {
  }

  lemma SettledSameConserves(wallet: string, p: Payroll, e: Events)
    requires SettlesSameToken(wallet, p, e)
    ensures e.batches[0].totalInput == SumPaid(e.payments) + e.batches[0].totalFees
    ensures BPS * e.batches[0].totalFees <= MAX_FEE_BPS * SumPaid(e.payments)
    ensures SumPaid(e.payments) == SumIn(p.recipients)
  {
    var rs := p.recipients;
    forall i | 0 <= i < |rs| ensures e.payments[i].amountOut == UnitsIn(rs[i]) {
      assert PaysInOrder(wallet, p.tokenIn.address, UnitsIn, rs, e.payments, i);
    }
    PaidIsOwed(rs, UnitsIn, e.payments);
  }

  /** The swap event, field by field: the approved swap of this employer, the input split
      into net and a fee of at most one percent, the output enough for minimum and obligations. */
  predicate Swaps(wallet: string, p: Payroll, hash: Bytes, gross: nat, minimum: nat, obligations: nat, e: SwapEvent)
    requires p.recipients != []
  {
    && e.referenceHash == hash && AddressesEqual(e.employer, wallet)
    && AddressesEqual(e.tokenIn, p.tokenIn.address) && AddressesEqual(e.tokenOut, p.recipients[0].tokenOut.address)
    && e.grossInput == gross == e.netAmountIn + e.feeAmount
    && BPS * e.feeAmount <= MAX_FEE_BPS * gross
    && e.minTotalOut == minimum <= e.amountOut && obligations <= e.amountOut
  }

  lemma NoSwapProblem(wallet: string, p: Payroll, hash: Bytes, gross: nat, minimum: nat, obligations: nat, e: SwapEvent)
    requires p.recipients != []
    ensures SwapProblem(wallet, p, hash, gross, minimum, obligations, e).None? <==>
            Swaps(wallet, p, hash, gross, minimum, obligations, e)
  {
    hide AddressesEqual;
  }

  /** Cross-token settlement, independent of the order of checks. */
  predicate SettlesCrossToken(abi: Abi, wallet: string, p: Payroll, e: Events)
    requires p.crossToken.Some? && p.recipients != []
  {
    var c, rs, tokenOut := p.crossToken.value, p.recipients, p.recipients[0].tokenOut.address;
    var gross, minimum, obligations := BaseUnits(c.grossInput), BaseUnits(c.minTotalOut), SumOut(rs);
    var hash := abi.referenceHash(wallet, p.referenceID);
    && |e.swaps| == 1 && |e.references| == 1 && |e.batches| == 1 && |e.payments| == |rs| && hash.Some?
    && Swaps(wallet, p, hash.value, gross, minimum, obligations, e.swaps[0])
    && (forall i | 0 <= i < |rs| :: PaysLine(wallet, tokenOut, hash.value, rs[i], i, e.payments[i]))
    && e.references[0].referenceHash == hash.value
    && Names(e.references[0].totals, wallet, p.tokenIn.address, tokenOut, p.referenceID)
    && CrossTokenTotals(gross, obligations, e.swaps[0].feeAmount, |rs|, e.references[0].totals)
    && Names(e.batches[0], wallet, p.tokenIn.address, tokenOut, p.referenceID)
    && CrossTokenTotals(gross, obligations, e.swaps[0].feeAmount, |rs|, e.batches[0])
    && (if e.swaps[0].amountOut > obligations
        then RefundMatches(wallet, tokenOut, hash.value, e.swaps[0].amountOut - obligations, e.refunds)
        else e.refunds == [])
  }

  lemma CrossTokenEventsIff(abi: Abi, wallet: string, p: Payroll, e: Events)
    requires p.crossToken.Some? && p.recipients != []
    ensures CrossTokenEvents(abi, wallet, p, e).status == DomainVerified <==> SettlesCrossToken(abi, wallet, p, e)
  {
    hide AddressesEqual, Names, Pays, Sum, SwapProblem, Swaps;
    var c, hash := p.crossToken.value, abi.referenceHash(wallet, p.referenceID);
    if |e.swaps| == 1 && hash.Some? {
      NoSwapProblem(wallet, p, hash.value, BaseUnits(c.grossInput), BaseUnits(c.minTotalOut), SumOut(p.recipients),
                    e.swaps[0]);
      SwapDelivers(wallet, p, hash.value, BaseUnits(c.grossInput), BaseUnits(c.minTotalOut), SumOut(p.recipients),
                   e.swaps[0]);
    }
  }

  lemma SwapDelivers(wallet: string, p: Payroll, hash: Bytes, gross: nat, minimum: nat, obligations: nat, e: SwapEvent)
    requires p.recipients != []
    ensures Swaps(wallet, p, hash, gross, minimum, obligations, e) ==> e.amountOut >= obligations
  {
    hide AddressesEqual;
  }

  lemma CrossTokenDecides(abi: Abi, wallet: string, callData: Bytes, p: Payroll, receipt: Receipt)
    requires p.crossToken.Some? && p.recipients != []
    ensures CrossTokenVerdict(abi, wallet, callData, p, receipt).status == DomainVerified <==>
              && CrossTokenTransaction(abi, wallet, callData, p, receipt).None?
              && Collect(abi, true, NO_EVENTS, receipt.logs).Collected?
              && SettlesCrossToken(abi, wallet, p, Collect(abi, true, NO_EVENTS, receipt.logs).events)
  {
    hide CrossTokenEvents, SettlesCrossToken;
    CrossTransactionNeverVerifies(abi, wallet, callData, p, receipt);
    var collected := Collect(abi, true, NO_EVENTS, receipt.logs);
    if collected.Collected? {
      CrossTokenEventsIff(abi, wallet, p, collected.events);
    }
  }

  function SumRefunded(refunds: seq<RefundEvent>): int {
    if refunds == [] then 0 else SumRefunded(refunds[..|refunds| - 1]) + refunds[|refunds| - 1].amount
  }

  lemma SettledCrossConserves(abi: Abi, wallet: string, p: Payroll, e: Events)
    requires p.crossToken.Some? && p.recipients != [] && SettlesCrossToken(abi, wallet, p, e)
    ensures var swap, gross := e.swaps[0], BaseUnits(p.crossToken.value.grossInput);
            && gross == swap.netAmountIn + swap.feeAmount
            && BPS * swap.feeAmount <= MAX_FEE_BPS * gross
            && swap.amountOut == SumPaid(e.payments) + SumRefunded(e.refunds)
            && SumPaid(e.payments) == SumOut(p.recipients)
            && SumRefunded(e.refunds) >= 0 && (SumRefunded(e.refunds) == 0 <==> e.refunds == [])
            && e.batches[0].totalInput == gross && e.batches[0].totalFees == swap.feeAmount
            && swap.amountOut >= BaseUnits(p.crossToken.value.minTotalOut)
  {
    hide AddressesEqual, Names, Sum;
    var rs := p.recipients;
    forall i | 0 <= i < |rs| ensures e.payments[i].amountOut == UnitsOut(rs[i]) {
      assert PaysLine(wallet, rs[0].tokenOut.address, abi.referenceHash(wallet, p.referenceID).value, rs[i], i,
                      e.payments[i]);
    }
    PaidIsOwed(rs, UnitsOut, e.payments);
    if e.refunds != [] {
      assert e.refunds[..0] == [];
      assert SumRefunded(e.refunds) == e.refunds[0].amount;
    }
  }

  /** A verified cross-token receipt conserves value: the gross input is what was swapped plus
      a fee of at most one percent, the swap output is what the recipients got in intent order
      plus the refund, which is zero exactly when no refund event exists, and the native
      value is the gross input scaled for USDC and zero for EURC. */
  lemma CrossTokenConserves(abi: Abi, wallet: string, callData: Bytes, p: Payroll, receipt: Receipt)
    requires ValidCrossToken(p)
    requires Verdict(abi, wallet, callData, p, receipt).status == DomainVerified
    ensures Collect(abi, true, NO_EVENTS, receipt.logs).Collected?
    ensures var e := Collect(abi, true, NO_EVENTS, receipt.logs).events;
            var gross := BaseUnits(p.crossToken.value.grossInput);
            && |e.swaps| == 1 && |e.batches| == 1
            && gross == e.swaps[0].netAmountIn + e.swaps[0].feeAmount
            && BPS * e.swaps[0].feeAmount <= MAX_FEE_BPS * gross
            && e.swaps[0].amountOut == SumPaid(e.payments) + SumRefunded(e.refunds)
            && SumPaid(e.payments) == BaseUnits(p.total)
            && (SumRefunded(e.refunds) == 0 <==> e.refunds == [])
            && |e.payments| == |p.recipients|
            && (forall i | 0 <= i < |e.payments| :: e.payments[i].amountOut == UnitsOut(p.recipients[i]))
            && abi.quantity(receipt.value) == Some(if p.tokenIn.symbol == "USDC" then gross * NATIVE_SCALE else 0)
            && e.batches[0].totalInput == gross
  {
    CrossTokenDecides(abi, wallet, callData, p, receipt);
    var e := Collect(abi, true, NO_EVENTS, receipt.logs).events;
    CrossTokenSettled(abi, wallet, p, e);
    CrossTokenFunded(abi, wallet, callData, p, receipt);
  }

  lemma CrossTokenSettled(abi: Abi, wallet: string, p: Payroll, e: Events)
    requires ValidCrossToken(p) && SettlesCrossToken(abi, wallet, p, e)
    ensures var gross := BaseUnits(p.crossToken.value.grossInput);
            && |e.swaps| == 1 && |e.batches| == 1
            && gross == e.swaps[0].netAmountIn + e.swaps[0].feeAmount
            && BPS * e.swaps[0].feeAmount <= MAX_FEE_BPS * gross
            && e.swaps[0].amountOut == SumPaid(e.payments) + SumRefunded(e.refunds)
            && SumPaid(e.payments) == BaseUnits(p.total)
            && (SumRefunded(e.refunds) == 0 <==> e.refunds == [])
            && |e.payments| == |p.recipients|
            && (forall i | 0 <= i < |e.payments| :: e.payments[i].amountOut == UnitsOut(p.recipients[i]))
            && e.batches[0].totalInput == gross
  {
    SettledCrossConserves(abi, wallet, p, e);
    CrossTokenTotal(p, 0, 0, 0, "");
    hide AddressesEqual, Names, Sum;
    var rs := p.recipients;
    forall i | 0 <= i < |rs| ensures e.payments[i].amountOut == UnitsOut(rs[i]) {
      assert PaysLine(wallet, rs[0].tokenOut.address, abi.referenceHash(wallet, p.referenceID).value, rs[i], i,
                      e.payments[i]);
    }
  }

  lemma EqualAddressesAgree(a: string, b: string)
    requires AddressesEqual(a, b)
    ensures |a| == |b| == 42 && LowerChar(a[2]) == LowerChar(b[2])
  {
    assert Trim(a) == a && Trim(b) == b;
    assert Lower(a)[2] == LowerChar(a[2]) && Lower(b)[2] == LowerChar(b[2]);
  }

  lemma CanonicalTokensDiffer(t: Token)
    requires CanonicalPayrollToken(t)
    ensures AddressesEqual(t.address, USDC) <==> t.symbol == "USDC"
  {
    hide AddressesEqual;
    if AddressesEqual(t.address, USDC) && AddressesEqual(t.address, EURC) {
      EqualAddressesAgree(t.address, USDC);
      EqualAddressesAgree(t.address, EURC);
    }
  }

  lemma CrossTokenIsCanonical(p: Payroll)
    requires ValidCrossToken(p)
    ensures CanonicalPayrollToken(p.tokenIn)
  {
  }

  lemma TransactionValue(abi: Abi, wallet: string, callData: Bytes, p: Payroll, receipt: Receipt)
    requires p.crossToken.Some? && p.recipients != []
    requires CrossTokenTransaction(abi, wallet, callData, p, receipt).None?
    ensures abi.quantity(receipt.value) == Some(ExpectedValue(p, BaseUnits(p.crossToken.value.grossInput)))
  {
    hide AddressesEqual, CrossTokenCallMatches, ExpectedValue, ValidLogs, BaseUnits;
  }

  lemma CrossTokenFunded(abi: Abi, wallet: string, callData: Bytes, p: Payroll, receipt: Receipt)
    requires ValidCrossToken(p) && CrossTokenTransaction(abi, wallet, callData, p, receipt).None?
    ensures var gross := BaseUnits(p.crossToken.value.grossInput);
            abi.quantity(receipt.value) == Some(if p.tokenIn.symbol == "USDC" then gross * NATIVE_SCALE else 0)
  {
    CrossTokenIsCanonical(p);
    CanonicalTokensDiffer(p.tokenIn);
    TransactionValue(abi, wallet, callData, p, receipt);
    hide AddressesEqual, CanonicalPayrollToken, CrossTokenTransaction, BaseUnits;
  }
}
