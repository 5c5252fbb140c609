/** What a verified payroll receipt amounts to: the planned transaction, the events its logs
    carry and the settlement they report, each spelled out field by field, and the verifier
    (internal/payroll/verifier.go) shown to accept exactly that. */
module PayrollSettlement {
  import opened Text
  import opened Receipts
  import opened Amounts
  import opened Intents
  import opened DomainResults
  import opened PayrollVerifier

  // ---------------------------------------------------------------- the planned transaction

  /** The call pays, line by line, what the intent says. */
  predicate SameCall(p: Payroll, call: SameTokenCall) {
    && AddressesEqual(call.token, p.tokenIn.address) && call.referenceID == p.referenceID
    && |call.recipients| == |call.amounts| == |p.recipients|
    && (forall i | 0 <= i < |p.recipients| :: AddressesEqual(call.recipients[i], p.recipients[i].address))
    && (forall i | 0 <= i < |p.recipients| :: call.amounts[i] == BaseUnits(p.recipients[i].amountIn))
  }

  predicate PlannedSameToken(abi: Abi, wallet: string, callData: Bytes, p: Payroll, receipt: Receipt) {
    && Sent(wallet, PAYROLL_CONTRACT, receipt) && receipt.input == callData
    && abi.quantity(receipt.value) == Some(0)
    && ValidSameToken(p) && LogsFit(receipt.logs)
    && abi.sameTokenCall(callData).Some? && SameCall(p, abi.sameTokenCall(callData).value)
  }

  lemma SameCallIff(p: Payroll, call: SameTokenCall)
    ensures SameTokenCallMatches(p, call) <==> SameCall(p, call)
  {
    hide AddressesEqual, BaseUnits;
    if |call.recipients| == |call.amounts| == |p.recipients| {
      forall i | 0 <= i < |p.recipients|
        ensures SameLine(call, p, i) <==>
                  && AddressesEqual(call.recipients[i], p.recipients[i].address)
                  && call.amounts[i] == BaseUnits(p.recipients[i].amountIn)
      {
      }
    }
  }

  lemma SameTokenPlannedIff(abi: Abi, wallet: string, callData: Bytes, p: Payroll, receipt: Receipt)
    ensures SameTokenTransaction(abi, wallet, callData, p, receipt).None? <==>
            PlannedSameToken(abi, wallet, callData, p, receipt)
  {
    EnvelopeIff(wallet, PAYROLL_CONTRACT, receipt);
    LogsFitIff(receipt.logs);
    if abi.sameTokenCall(callData).Some? {
      SameCallIff(p, abi.sameTokenCall(callData).value);
    }
    hide ValidSameToken, ValidLogs, LogsFit, Envelope, Sent, SameCall, SameTokenCallMatches;
  }

  /** The call swaps and pays out what the intent says; its deadline is the intent's, rounded
      down to the second. */
  predicate CrossCall(p: Payroll, call: CrossTokenCall)
    requires p.crossToken.Some? && p.recipients != []
  {
    var c := p.crossToken.value;
    && AddressesEqual(call.tokenIn, p.tokenIn.address)
    && AddressesEqual(call.tokenOut, p.recipients[0].tokenOut.address)
    && call.grossInput == BaseUnits(c.grossInput) && call.minTotalOut == BaseUnits(c.minTotalOut)
    && ParseBig(c.minHopPriceX36) == Some(call.minHopPriceX36)
    && 0 <= c.deadline - (call.deadline + UNIX_EPOCH) * SECOND < SECOND
    && call.referenceID == p.referenceID
    && |call.payouts| == |p.recipients|
    && (forall i | 0 <= i < |p.recipients| :: AddressesEqual(call.payouts[i].recipient, p.recipients[i].address))
    && (forall i | 0 <= i < |p.recipients| :: call.payouts[i].amount == BaseUnits(p.recipients[i].minAmountOut))
  }

  predicate PlannedCrossToken(abi: Abi, wallet: string, callData: Bytes, p: Payroll, receipt: Receipt)
    requires p.crossToken.Some? && p.recipients != []
  {
    && Sent(wallet, PAYROLL_CONTRACT, receipt) && receipt.input == callData
    && LogsFit(receipt.logs)
    && abi.crossTokenCall(callData).Some? && CrossCall(p, abi.crossTokenCall(callData).value)
    && abi.quantity(receipt.value)
       == Some(if p.tokenIn.symbol == "USDC" then BaseUnits(p.crossToken.value.grossInput) * 1_000_000_000_000 else 0)
  }

  lemma WholeSecond(t: Time, seconds: int)
    ensures seconds == UnixSeconds(t) <==> 0 <= t - (seconds + UNIX_EPOCH) * SECOND < SECOND
  {
  }

  lemma CrossCallIff(p: Payroll, call: CrossTokenCall)
    requires p.crossToken.Some? && p.recipients != []
    ensures CrossTokenCallMatches(p, call) <==> CrossCall(p, call)
  {
    WholeSecond(p.crossToken.value.deadline, call.deadline);
    hide AddressesEqual, BaseUnits, ParseBig, UnixSeconds;
    if |call.payouts| == |p.recipients| {
      forall i | 0 <= i < |p.recipients|
        ensures CrossLine(call, p, i) <==>
                  && AddressesEqual(call.payouts[i].recipient, p.recipients[i].address)
                  && call.payouts[i].amount == BaseUnits(p.recipients[i].minAmountOut)
      {
      }
    }
  }

  lemma NativeValue(p: Payroll, gross: nat)
    requires ValidCrossToken(p)
    ensures ExpectedValue(p, gross) == if p.tokenIn.symbol == "USDC" then gross * 1_000_000_000_000 else 0
  {
    CrossTokenIsCanonical(p);
    CanonicalTokensDiffer(p.tokenIn);
    hide AddressesEqual, ValidCrossToken, CanonicalPayrollToken;
  }

  lemma CrossTokenPlanned(abi: Abi, wallet: string, callData: Bytes, p: Payroll, receipt: Receipt, value: nat)
    requires p.crossToken.Some? && p.recipients != []
    requires ExpectedValue(p, BaseUnits(p.crossToken.value.grossInput)) == value
    ensures CrossTokenTransaction(abi, wallet, callData, p, receipt).None? <==>
              && Sent(wallet, PAYROLL_CONTRACT, receipt) && receipt.input == callData
              && LogsFit(receipt.logs)
              && abi.crossTokenCall(callData).Some? && CrossCall(p, abi.crossTokenCall(callData).value)
              && abi.quantity(receipt.value) == Some(value)
  {
    hide ValidLogs, LogsFit, Envelope, Sent, BaseUnits, ExpectedValue, CrossTokenCallMatches, CrossCall;
    EnvelopeIff(wallet, PAYROLL_CONTRACT, receipt);
    LogsFitIff(receipt.logs);
    if abi.crossTokenCall(callData).Some? {
      CrossCallIff(p, abi.crossTokenCall(callData).value);
    }
  }

  lemma CrossTokenPlannedIff(abi: Abi, wallet: string, callData: Bytes, p: Payroll, receipt: Receipt)
    requires ValidCrossToken(p)
    ensures CrossTokenTransaction(abi, wallet, callData, p, receipt).None? <==>
            PlannedCrossToken(abi, wallet, callData, p, receipt)
  {
    var gross := BaseUnits(p.crossToken.value.grossInput);
    NativeValue(p, gross);
    CrossTokenPlanned(abi, wallet, callData, p, receipt, ExpectedValue(p, gross));
    hide CrossTokenTransaction, LogsFit, Sent, BaseUnits, ExpectedValue, CrossCall;
  }

  // ---------------------------------------------------------------- the events

  /** The logs of the payroll contract under one topic. */
  function Logged(topic: Bytes, logs: seq<ReceiptLog>): seq<ReceiptLog> { LogsOf(PAYROLL_CONTRACT, topic, logs) }

  /** The five events have five different signatures. */
  predicate TopicsDiffer(abi: Abi) {
    && abi.paymentTopic !in {abi.referenceTopic, abi.batchTopic, abi.swapTopic, abi.surplusTopic}
    && abi.referenceTopic !in {abi.batchTopic, abi.swapTopic, abi.surplusTopic}
    && abi.batchTopic !in {abi.swapTopic, abi.surplusTopic} && abi.swapTopic != abi.surplusTopic
  }

  /** The logs carry exactly these events; swap and refund events only where a swap is due. */
  predicate Emits(abi: Abi, crossToken: bool, logs: seq<ReceiptLog>, e: Events) {
    && Decodes(abi.payment, Logged(abi.paymentTopic, logs), e.payments)
    && Decodes(abi.reference, Logged(abi.referenceTopic, logs), e.references)
    && Decodes(abi.batch, Logged(abi.batchTopic, logs), e.batches)
    && Decodes(abi.swap, Logged(abi.swapTopic, logs), e.swaps)
    && Decodes(abi.surplus, Logged(abi.surplusTopic, logs), e.refunds)
    && (!crossToken ==> e.swaps == [] && e.refunds == [])
  }

  /** Collecting reads the logs from the front; this is the same, from the back. */
  lemma {:induction false} CollectLast(
    abi: Abi, crossToken: bool, events: Events, logs: seq<ReceiptLog>, log: ReceiptLog)
    ensures Collect(abi, crossToken, events, logs + [log])
         == var before := Collect(abi, crossToken, events, logs);
            if before.Stopped? then before else Add(abi, crossToken, before.events, log)
    decreases |logs|
  {
    hide AddressesEqual;
    if logs == [] {
      assert logs + [log] == [log] && [log][1..] == [];
    } else {
      assert (logs + [log])[0] == logs[0] && (logs + [log])[1..] == logs[1..] + [log];
      var next := Add(abi, crossToken, events, logs[0]);
      if next.Collected? {
        CollectLast(abi, crossToken, next.events, logs[1..], log);
      }
    }
  }

  /** One more log: the events before it, and the one it carries. */
  lemma AddEmits(abi: Abi, crossToken: bool, logs: seq<ReceiptLog>, log: ReceiptLog, before: Events, e: Events)
    requires TopicsDiffer(abi) && Emits(abi, crossToken, logs, before)
    requires Add(abi, crossToken, before, log) == Collected(e)
    ensures Emits(abi, crossToken, logs + [log], e)
  {
    AllLogsOf(abi, logs, log);
    hide AddressesEqual, LogsOf, Decodes;
    match KindOf(abi, log)
    case Foreign =>
    case PaymentLog =>
      DecodesMore(abi.payment, Logged(abi.paymentTopic, logs), before.payments, log, abi.payment(log).value);
    case ReferenceLog =>
      DecodesMore(abi.reference, Logged(abi.referenceTopic, logs), before.references, log, abi.reference(log).value);
    case BatchLog =>
      DecodesMore(abi.batch, Logged(abi.batchTopic, logs), before.batches, log, abi.batch(log).value);
    case SwapLog =>
      DecodesMore(abi.swap, Logged(abi.swapTopic, logs), before.swaps, log, abi.swap(log).value);
    case SurplusLog =>
      DecodesMore(abi.surplus, Logged(abi.surplusTopic, logs), before.refunds, log, abi.surplus(log).value);
  }

  /** Under which topic a log counts, for all five topics at once. */
  lemma AllLogsOf(abi: Abi, logs: seq<ReceiptLog>, log: ReceiptLog)
    requires TopicsDiffer(abi)
    ensures var kind, all := KindOf(abi, log), logs + [log];
            && Logged(abi.paymentTopic, all) == Grown(Logged(abi.paymentTopic, logs), kind == PaymentLog, log)
            && Logged(abi.referenceTopic, all) == Grown(Logged(abi.referenceTopic, logs), kind == ReferenceLog, log)
            && Logged(abi.batchTopic, all) == Grown(Logged(abi.batchTopic, logs), kind == BatchLog, log)
            && Logged(abi.swapTopic, all) == Grown(Logged(abi.swapTopic, logs), kind == SwapLog, log)
            && Logged(abi.surplusTopic, all) == Grown(Logged(abi.surplusTopic, logs), kind == SurplusLog, log)
  {
    LogsOfLast(PAYROLL_CONTRACT, abi.paymentTopic, logs, log);
    LogsOfLast(PAYROLL_CONTRACT, abi.referenceTopic, logs, log);
    LogsOfLast(PAYROLL_CONTRACT, abi.batchTopic, logs, log);
    LogsOfLast(PAYROLL_CONTRACT, abi.swapTopic, logs, log);
    LogsOfLast(PAYROLL_CONTRACT, abi.surplusTopic, logs, log);
    hide AddressesEqual, LogsOf;
  }

  function Grown(logs: seq<ReceiptLog>, counts: bool, log: ReceiptLog): seq<ReceiptLog> {
    if counts then logs + [log] else logs
  }

  /** The events before the last log. */
  function Without(kind: LogKind, e: Events): Events
    requires kind == PaymentLog ==> e.payments != []
    requires kind == ReferenceLog ==> e.references != []
    requires kind == BatchLog ==> e.batches != []
    requires kind == SwapLog ==> e.swaps != []
    requires kind == SurplusLog ==> e.refunds != []
  {
    match kind
    case Foreign => e
    case PaymentLog => e.(payments := e.payments[..|e.payments| - 1])
    case ReferenceLog => e.(references := e.references[..|e.references| - 1])
    case BatchLog => e.(batches := e.batches[..|e.batches| - 1])
    case SwapLog => e.(swaps := e.swaps[..|e.swaps| - 1])
    case SurplusLog => e.(refunds := e.refunds[..|e.refunds| - 1])
  }

  lemma EmitsAdd(abi: Abi, crossToken: bool, logs: seq<ReceiptLog>, log: ReceiptLog, e: Events)
    returns (before: Events)
    requires TopicsDiffer(abi) && Emits(abi, crossToken, logs + [log], e)
    ensures Emits(abi, crossToken, logs, before) && Add(abi, crossToken, before, log) == Collected(e)
  {
    hide AddressesEqual, LogsOf, Decodes, KindOf, TopicsDiffer;
    AllLogsOf(abi, logs, log);
    match KindOf(abi, log)
    case Foreign => before := e;
    case PaymentLog =>
      DecodesLess(abi.payment, Logged(abi.paymentTopic, logs), e.payments, log);
      before := Without(PaymentLog, e);
      assert before.payments + [e.payments[|e.payments| - 1]] == e.payments;
    case ReferenceLog =>
      DecodesLess(abi.reference, Logged(abi.referenceTopic, logs), e.references, log);
      before := Without(ReferenceLog, e);
      assert before.references + [e.references[|e.references| - 1]] == e.references;
    case BatchLog =>
      DecodesLess(abi.batch, Logged(abi.batchTopic, logs), e.batches, log);
      before := Without(BatchLog, e);
      assert before.batches + [e.batches[|e.batches| - 1]] == e.batches;
    case SwapLog =>
      DecodesLess(abi.swap, Logged(abi.swapTopic, logs), e.swaps, log);
      before := Without(SwapLog, e);
      assert before.swaps + [e.swaps[|e.swaps| - 1]] == e.swaps;
    case SurplusLog =>
      DecodesLess(abi.surplus, Logged(abi.surplusTopic, logs), e.refunds, log);
      before := Without(SurplusLog, e);
      assert before.refunds + [e.refunds[|e.refunds| - 1]] == e.refunds;
  }

  /** The verifier collects exactly the events the logs carry, and stops exactly when the
      logs carry no such events. */
  lemma {:induction false} CollectsIff(abi: Abi, crossToken: bool, logs: seq<ReceiptLog>, e: Events)
    requires TopicsDiffer(abi)
    ensures Collect(abi, crossToken, NO_EVENTS, logs) == Collected(e) <==> Emits(abi, crossToken, logs, e)
    decreases |logs|
  {
    if logs == [] {
      assert Emits(abi, crossToken, logs, e) ==> e == NO_EVENTS;
    } else {
      var front, log := logs[..|logs| - 1], logs[|logs| - 1];
      assert front + [log] == logs;
      CollectLast(abi, crossToken, NO_EVENTS, front, log);
      var collected := Collect(abi, crossToken, NO_EVENTS, front);
      hide Collect, Emits, Add;
      if Collect(abi, crossToken, NO_EVENTS, logs) == Collected(e) {
        CollectsIff(abi, crossToken, front, collected.events);
        AddEmits(abi, crossToken, front, log, collected.events, e);
      }
      if Emits(abi, crossToken, logs, e) {
        var before := EmitsAdd(abi, crossToken, front, log, e);
        CollectsIff(abi, crossToken, front, before);
      }
    }
  }

  // ---------------------------------------------------------------- the settlement

  predicate Paid(
    e: PaymentEvent, wallet: string, token: string, hash: Bytes, index: nat, recipient: string, amount: nat)
  {
    && e.paymentIndex == index && e.referenceHash == hash && e.amountOut == amount
    && AddressesEqual(e.employer, wallet) && AddressesEqual(e.recipient, recipient)
    && AddressesEqual(e.tokenOut, token)
  }

  predicate Declares(
    t: Totals, wallet: string, tokenIn: string, tokenOut: string, referenceID: string, count: nat,
    input: int, output: int, fees: int)
  {
    && t.referenceID == referenceID && t.recipientCount == count
    && t.totalInput == input && t.totalOutput == output && t.totalFees == fees
    && AddressesEqual(t.employer, wallet) && AddressesEqual(t.tokenIn, tokenIn) && AddressesEqual(t.tokenOut, tokenOut)
  }

  /** One payment per line in order, under one reference hash; both totals events declare the
      intent's total, and on top of it a fee of at most one percent. */
  predicate SettledSameToken(wallet: string, p: Payroll, e: Events) {
    var rs, token, total := p.recipients, p.tokenIn.address, BaseUnits(p.total);
    && |e.payments| == |rs| && |e.references| == 1 && |e.batches| == 1
    && var fees, hash := e.batches[0].totalFees, e.references[0].referenceHash;
       && (forall i | 0 <= i < |rs| ::
             Paid(e.payments[i], wallet, token, hash, i, rs[i].address, BaseUnits(rs[i].amountIn)))
       && 100 * fees <= total
       && Declares(e.references[0].totals, wallet, token, token, p.referenceID, |rs|, total + fees, total, fees)
       && Declares(e.batches[0], wallet, token, token, p.referenceID, |rs|, total + fees, total, fees)
  }

  lemma PaidInOrder(wallet: string, token: string, rs: seq<Recipient>, payments: seq<PaymentEvent>, hash: Bytes)
    requires |payments| == |rs| > 0
    ensures (forall k | 0 <= k < |rs| :: PaysInOrder(wallet, token, UnitsIn, rs, payments, k))
            && hash == payments[0].referenceHash
       <==> (forall i | 0 <= i < |rs| ::
               Paid(payments[i], wallet, token, hash, i, rs[i].address, BaseUnits(rs[i].amountIn)))
  {
    hide AddressesEqual, BaseUnits;
    if forall k | 0 <= k < |rs| :: PaysInOrder(wallet, token, UnitsIn, rs, payments, k) {
      if hash == payments[0].referenceHash {
        forall i | 0 <= i < |rs|
          ensures Paid(payments[i], wallet, token, hash, i, rs[i].address, BaseUnits(rs[i].amountIn))
        {
          assert PaysInOrder(wallet, token, UnitsIn, rs, payments, i);
        }
      }
    }
    if forall i | 0 <= i < |rs| ::
        Paid(payments[i], wallet, token, hash, i, rs[i].address, BaseUnits(rs[i].amountIn)) {
      assert Paid(payments[0], wallet, token, hash, 0, rs[0].address, BaseUnits(rs[0].amountIn));
      forall k | 0 <= k < |rs| ensures PaysInOrder(wallet, token, UnitsIn, rs, payments, k) {
        assert Paid(payments[k], wallet, token, hash, k, rs[k].address, BaseUnits(rs[k].amountIn));
      }
    }
  }

  lemma SameTotalsIff(
    wallet: string, token: string, referenceID: string, count: nat, total: nat, a: Totals, b: Totals)
    ensures Names(a, wallet, token, token, referenceID) && Names(b, wallet, token, token, referenceID)
            && SameTokenTotals(total, count, a, b)
       <==> (&& 100 * b.totalFees <= total
             && Declares(a, wallet, token, token, referenceID, count, total + b.totalFees, total, b.totalFees)
             && Declares(b, wallet, token, token, referenceID, count, total + b.totalFees, total, b.totalFees))
  {
    hide AddressesEqual;
  }

  lemma SameSettlementIff(wallet: string, p: Payroll, e: Events)
    requires p.recipients != [] && BaseUnits(p.total) == SumIn(p.recipients)
    ensures SettlesSameToken(wallet, p, e) <==> SettledSameToken(wallet, p, e)
  {
    hide AddressesEqual, BaseUnits, Names, SameTokenTotals, Declares, Paid, PaysInOrder, SumIn;
    if |e.payments| == |p.recipients| && |e.references| == 1 && |e.batches| == 1 {
      PaidInOrder(wallet, p.tokenIn.address, p.recipients, e.payments, e.references[0].referenceHash);
      SameTotalsIff(wallet, p.tokenIn.address, p.referenceID, |p.recipients|, BaseUnits(p.total),
                    e.references[0].totals, e.batches[0]);
    }
  }

  lemma SameTokenFacts(p: Payroll)
    requires ValidSameToken(p)
    ensures p.recipients != [] && BaseUnits(p.total) == SumIn(p.recipients)
  {
    SameTokenIsPhase12(p);
    SameTokenTotal(p);
    hide Sum;
  }

  /** A same-token payroll verifies exactly when the planned transaction was executed and its
      logs carry the events that settle the intent. */
  lemma SameTokenVerifiedIff(abi: Abi, wallet: string, callData: Bytes, p: Payroll, receipt: Receipt)
    requires TopicsDiffer(abi)
    ensures SameToken(abi, wallet, callData, p, receipt).status == DomainVerified <==>
              && PlannedSameToken(abi, wallet, callData, p, receipt)
              && exists e :: Emits(abi, false, receipt.logs, e) && SettledSameToken(wallet, p, e)
  {
    hide SameToken, ValidSameToken, SettlesSameToken, SettledSameToken, Emits, Sent, LogsFit, SameCall, Collect;
    SameTokenDecides(abi, wallet, callData, p, receipt);
    SameTokenPlannedIff(abi, wallet, callData, p, receipt);
    hide SameTokenTransaction;
    if PlannedSameToken(abi, wallet, callData, p, receipt) {
      SameTokenFacts(p);
      forall e ensures Collect(abi, false, NO_EVENTS, receipt.logs) == Collected(e) <==>
                       Emits(abi, false, receipt.logs, e)
      {
        CollectsIff(abi, false, receipt.logs, e);
      }
      forall e ensures SettlesSameToken(wallet, p, e) <==> SettledSameToken(wallet, p, e) {
        SameSettlementIff(wallet, p, e);
      }
    }
  }

  /** The swap took the approved gross input and delivered at least the minimum; every line is
      paid in order out of its output, both totals events say so, and what is left over, if
      anything, is refunded to the employer by one event. */
  predicate SettledCrossToken(abi: Abi, wallet: string, p: Payroll, e: Events)
    requires p.crossToken.Some? && p.recipients != []
  {
    var c, rs := p.crossToken.value, p.recipients;
    var tokenIn, tokenOut := p.tokenIn.address, rs[0].tokenOut.address;
    var gross, total := BaseUnits(c.grossInput), BaseUnits(p.total);
    && |e.swaps| == 1 && |e.references| == 1 && |e.batches| == 1 && |e.payments| == |rs|
    && abi.referenceHash(wallet, p.referenceID) == Some(e.swaps[0].referenceHash)
    && var hash, swap := e.swaps[0].referenceHash, e.swaps[0];
       && Swaps(wallet, p, hash, gross, BaseUnits(c.minTotalOut), total, swap)
       && (forall i | 0 <= i < |rs| ::
             Paid(e.payments[i], wallet, tokenOut, hash, i, rs[i].address, BaseUnits(rs[i].minAmountOut)))
       && e.references[0].referenceHash == hash
       && Declares(e.references[0].totals, wallet, tokenIn, tokenOut, p.referenceID, |rs|, gross, total, swap.feeAmount)
       && Declares(e.batches[0], wallet, tokenIn, tokenOut, p.referenceID, |rs|, gross, total, swap.feeAmount)
       && Refunded(e.refunds, wallet, tokenOut, hash, swap.amountOut - total)
  }

  predicate Refunded(refunds: seq<RefundEvent>, wallet: string, tokenOut: string, hash: Bytes, surplus: int) {
    if surplus == 0 then refunds == [] else
      && |refunds| == 1 && refunds[0].amount == surplus && refunds[0].referenceHash == hash
      && AddressesEqual(refunds[0].employer, wallet) && AddressesEqual(refunds[0].tokenOut, tokenOut)
  }

  lemma CrossTotalsIff(
    wallet: string, tokenIn: string, tokenOut: string, referenceID: string, count: nat, gross: nat, total: nat,
    fee: int, t: Totals)
    ensures Names(t, wallet, tokenIn, tokenOut, referenceID) && CrossTokenTotals(gross, total, fee, count, t) <==>
            Declares(t, wallet, tokenIn, tokenOut, referenceID, count, gross, total, fee)
  {
    hide AddressesEqual;
  }

  lemma PaysLineIff(wallet: string, tokenOut: string, hash: Bytes, r: Recipient, i: nat, e: PaymentEvent)
    ensures PaysLine(wallet, tokenOut, hash, r, i, e) <==>
            Paid(e, wallet, tokenOut, hash, i, r.address, BaseUnits(r.minAmountOut))
  {
    hide AddressesEqual, BaseUnits;
  }

  lemma RefundIff(wallet: string, tokenOut: string, hash: Bytes, surplus: int, refunds: seq<RefundEvent>)
    requires surplus >= 0
    ensures (if surplus > 0 then RefundMatches(wallet, tokenOut, hash, surplus, refunds) else refunds == []) <==>
            Refunded(refunds, wallet, tokenOut, hash, surplus)
  {
    hide AddressesEqual;
  }

  lemma LinesPaidIff(wallet: string, tokenOut: string, hash: Bytes, rs: seq<Recipient>, payments: seq<PaymentEvent>)
    requires |payments| == |rs|
    ensures (forall i | 0 <= i < |rs| :: PaysLine(wallet, tokenOut, hash, rs[i], i, payments[i]))
       <==> (forall i | 0 <= i < |rs| ::
               Paid(payments[i], wallet, tokenOut, hash, i, rs[i].address, BaseUnits(rs[i].minAmountOut)))
  {
    hide PaysLine, Paid, BaseUnits;
    forall i | 0 <= i < |rs|
      ensures PaysLine(wallet, tokenOut, hash, rs[i], i, payments[i]) <==>
              Paid(payments[i], wallet, tokenOut, hash, i, rs[i].address, BaseUnits(rs[i].minAmountOut))
    {
      PaysLineIff(wallet, tokenOut, hash, rs[i], i, payments[i]);
    }
  }

  lemma CrossSettlementIff(abi: Abi, wallet: string, p: Payroll, e: Events)
    requires p.crossToken.Some? && p.recipients != [] && BaseUnits(p.total) == SumOut(p.recipients)
    ensures SettlesCrossToken(abi, wallet, p, e) <==> SettledCrossToken(abi, wallet, p, e)
  {
    hide AddressesEqual, BaseUnits, Names, CrossTokenTotals, Declares, Paid, PaysLine, SumOut, Swaps, RefundMatches,
         Refunded;
    var c, rs := p.crossToken.value, p.recipients;
    var tokenIn, tokenOut := p.tokenIn.address, rs[0].tokenOut.address;
    var gross, total := BaseUnits(c.grossInput), BaseUnits(p.total);
    var expected := abi.referenceHash(wallet, p.referenceID);
    if expected.Some? && |e.swaps| == 1 && |e.references| == 1 && |e.batches| == 1 && |e.payments| == |rs| {
      var hash, swap := expected.value, e.swaps[0];
      SwapHash(wallet, p, hash, gross, BaseUnits(c.minTotalOut), total, swap);
      SwapDelivers(wallet, p, hash, gross, BaseUnits(c.minTotalOut), total, swap);
      CrossTotalsIff(wallet, tokenIn, tokenOut, p.referenceID, |rs|, gross, total, swap.feeAmount,
                     e.references[0].totals);
      CrossTotalsIff(wallet, tokenIn, tokenOut, p.referenceID, |rs|, gross, total, swap.feeAmount, e.batches[0]);
      LinesPaidIff(wallet, tokenOut, hash, rs, e.payments);
      if swap.amountOut >= total {
        RefundIff(wallet, tokenOut, hash, swap.amountOut - total, e.refunds);
      }
    }
  }

  lemma SwapHash(wallet: string, p: Payroll, hash: Bytes, gross: nat, minimum: nat, obligations: nat, e: SwapEvent)
    requires p.recipients != []
    ensures Swaps(wallet, p, hash, gross, minimum, obligations, e) ==> e.referenceHash == hash
  {
    hide AddressesEqual;
  }

  lemma CrossTokenFacts(p: Payroll)
    requires ValidCrossToken(p)
    ensures p.crossToken.Some? && p.recipients != [] && BaseUnits(p.total) == SumOut(p.recipients)
  {
    CrossTokenTotal(p, 0, 0, 0, "");
    hide Sum;
  }

  /** The same for a cross-token payroll. */
  lemma CrossTokenVerifiedIff(abi: Abi, wallet: string, callData: Bytes, p: Payroll, receipt: Receipt)
    requires TopicsDiffer(abi) && ValidCrossToken(p)
    ensures CrossTokenVerdict(abi, wallet, callData, p, receipt).status == DomainVerified <==>
              && PlannedCrossToken(abi, wallet, callData, p, receipt)
              && exists e :: Emits(abi, true, receipt.logs, e) && SettledCrossToken(abi, wallet, p, e)
  {
    CrossTokenFacts(p);
    hide CrossTokenVerdict, SettlesCrossToken, SettledCrossToken, Emits, Sent, LogsFit, CrossCall, Collect,
         CrossTokenTransaction, PlannedCrossToken;
    CrossTokenDecides(abi, wallet, callData, p, receipt);
    CrossTokenPlannedIff(abi, wallet, callData, p, receipt);
    hide ValidCrossToken;
    forall e ensures Collect(abi, true, NO_EVENTS, receipt.logs) == Collected(e) <==> Emits(abi, true, receipt.logs, e)
    {
      CollectsIff(abi, true, receipt.logs, e);
    }
    forall e ensures SettlesCrossToken(abi, wallet, p, e) <==> SettledCrossToken(abi, wallet, p, e) {
      CrossSettlementIff(abi, wallet, p, e);
    }
  }

  // ---------------------------------------------------------------- what stays open

  lemma EventsDecide(abi: Abi, wallet: string, p: Payroll, e: Events)
    ensures SameTokenEvents(wallet, p, e).status != DomainUnverified
    ensures p.crossToken.Some? && p.recipients != [] ==>
              CrossTokenEvents(abi, wallet, p, e).status != DomainUnverified
  {
    hide PaymentProblem, Names, SameTokenTotals, SwapProblem, PaysLine, CrossTokenTotals, RefundMatches, BaseUnits, Sum;
  }

  lemma SameTransactionOpen(abi: Abi, wallet: string, callData: Bytes, p: Payroll, receipt: Receipt)
    ensures var t := SameTokenTransaction(abi, wallet, callData, p, receipt);
            t.Some? && t.value.status == DomainUnverified <==> Undecided(receipt)
  {
    hide ValidSameToken, SameTokenCallMatches, ValidLogs, Envelope, Undecided;
    EnvelopeIff(wallet, PAYROLL_CONTRACT, receipt);
  }

  lemma SameTokenOpenIff(abi: Abi, wallet: string, callData: Bytes, p: Payroll, receipt: Receipt)
    ensures SameToken(abi, wallet, callData, p, receipt).status == DomainUnverified <==> Undecided(receipt)
  {
    hide Collect, Undecided, SameTokenEvents, CrossTokenEvents, SameTokenTransaction;
    SameTransactionOpen(abi, wallet, callData, p, receipt);
    var collected := Collect(abi, false, NO_EVENTS, receipt.logs);
    if collected.Collected? {
      EventsDecide(abi, wallet, p, collected.events);
    }
  }

  lemma CrossTransactionOpen(abi: Abi, wallet: string, callData: Bytes, p: Payroll, receipt: Receipt)
    requires p.crossToken.Some? && p.recipients != []
    ensures var t := CrossTokenTransaction(abi, wallet, callData, p, receipt);
            t.Some? && t.value.status == DomainUnverified <==> Undecided(receipt)
  {
    hide CrossTokenCallMatches, ValidLogs, Envelope, Undecided, ExpectedValue, BaseUnits;
    EnvelopeIff(wallet, PAYROLL_CONTRACT, receipt);
  }

  lemma CrossTokenOpenIff(abi: Abi, wallet: string, callData: Bytes, p: Payroll, receipt: Receipt)
    requires p.crossToken.Some? && p.recipients != []
    ensures CrossTokenVerdict(abi, wallet, callData, p, receipt).status == DomainUnverified <==> Undecided(receipt)
  {
    hide Collect, Undecided, CrossTokenEvents, SameTokenEvents, CrossTokenTransaction;
    CrossTransactionOpen(abi, wallet, callData, p, receipt);
    var collected := Collect(abi, true, NO_EVENTS, receipt.logs);
    if collected.Collected? {
      EventsDecide(abi, wallet, p, collected.events);
    }
  }

  /** The verdict stays open exactly while the receipt decides nothing; every other receipt
      that does not verify is a definitive failure. */
  lemma OpenIff(abi: Abi, wallet: string, callData: Bytes, p: Payroll, receipt: Receipt)
    ensures Verdict(abi, wallet, callData, p, receipt).status == DomainUnverified <==> Undecided(receipt)
  {
    hide Undecided, SameToken, CrossTokenVerdict;
    if ValidCrossToken(p) {
      CrossTokenOpenIff(abi, wallet, callData, p, receipt);
    } else {
      SameTokenOpenIff(abi, wallet, callData, p, receipt);
    }
  }
}
