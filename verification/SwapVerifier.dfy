/** Domain verification of swap receipts (internal/swap/verifier.go). ABI packing and hashing
    are parameters. */
module SwapVerifier {
  import opened Text
  import opened Receipts
  import opened Amounts
  import opened Intents
  import opened DomainResults

  datatype SwapExecuted = SwapExecuted(
    caller: string, tokenIn: string, tokenOut: string, amountIn: int, feeAmount: int, netAmountIn: int,
    amountOut: int, minAmountOut: int)

  datatype SwapCall = SwapCall(
    tokenIn: string, tokenOut: string, amountIn: int, minAmountOut: int, minHopPriceX36: int, deadline: int)

  datatype Abi = Abi(
    eventTopic: Bytes, transferTopic: Bytes, event: ReceiptLog -> Option<SwapExecuted>,
    call: Bytes -> Option<SwapCall>, quantity: string -> Option<nat>)

  const VERIFIED := DomainResult(DomainVerified, "SWAP_VERIFIED")

  // ---------------------------------------------------------------- the output transfer

  function Hex(bytes: Bytes): string {
    if bytes == [] then "" else [HexDigit(bytes[0] as int / 16), HexDigit(bytes[0] as int % 16)] + Hex(bytes[1..])
  }

  function BigEndian(bytes: Bytes): nat {
    if bytes == [] then 0 else BigEndian(bytes[..|bytes| - 1]) * 256 + bytes[|bytes| - 1] as int
  }

  /** topicAddress: twelve zero bytes, then the address. */
  predicate TopicAddress(topic: Bytes, address: string) {
    && |topic| == 32 && (forall i | 0 <= i < 12 :: topic[i] == 0)
    && AddressesEqual("0x" + Hex(topic[12..]), address)
  }

  predicate IsTransfer(abi: Abi, token: string, recipient: string, amount: int, log: ReceiptLog) {
    && AddressesEqual(log.address, token) && |log.topics| == 3 && log.topics[0] == abi.transferTopic && |log.data| == 32
    && TopicAddress(log.topics[2], recipient) && BigEndian(log.data) == amount
  }

  /** hasOutputTransfer. */
  method HasOutputTransfer(abi: Abi, logs: seq<ReceiptLog>, token: string, recipient: string, amount: int)
    returns (found: bool)
    ensures found <==> exists log | log in logs :: IsTransfer(abi, token, recipient, amount, log)
  {
    hide IsTransfer;
    for i := 0 to |logs|
      invariant forall k | 0 <= k < i :: !IsTransfer(abi, token, recipient, amount, logs[k])
    {
      if IsTransfer(abi, token, recipient, amount, logs[i]) {
        return true;
      }
    }
    return false;
  }

  // ---------------------------------------------------------------- the transaction

  predicate CallMatches(p: Swap, call: SwapCall) {
    && AddressesEqual(call.tokenIn, p.inputToken.address) && AddressesEqual(call.tokenOut, p.outputToken.address)
    && call.amountIn == BaseUnits(p.inputAmount) && call.minAmountOut == BaseUnits(p.minimumOutput)
    && ParseBig(p.minHopPriceX36) == Some(call.minHopPriceX36)
    && call.deadline == UnixSeconds(p.deadline)
  }

  function ExpectedValue(p: Swap): nat {
    if AddressesEqual(p.inputToken.address, USDC) then BaseUnits(p.inputAmount) * NATIVE_SCALE else 0
  }

  function Transaction(abi: Abi, wallet: string, callData: Bytes, p: Swap, receipt: Receipt): Option<DomainResult> {
    var stopped := Envelope(wallet, SWAP_CONTRACT, receipt);
    if stopped.Some? then stopped
    else if receipt.input != callData then Some(Failed("TRANSACTION_CALLDATA_PLAN_MISMATCH"))
    else
      var call, value := abi.call(receipt.input), abi.quantity(receipt.value);
      if call.None? then Some(Failed("TRANSACTION_CALLDATA_INVALID"))
      else if !CallMatches(p, call.value) then Some(Failed("TRANSACTION_FINANCIAL_MISMATCH"))
      else if value.None? then Some(Failed("TRANSACTION_VALUE_INVALID"))
      else if value.value != ExpectedValue(p) then Some(Failed("TRANSACTION_VALUE_MISMATCH"))
      else if !ValidLogs(receipt.logs) then Some(Failed("RECEIPT_LOGS_MALFORMED"))
      else None
  }

  predicate IsSwapLog(abi: Abi, log: ReceiptLog) {
    AddressesEqual(log.address, SWAP_CONTRACT) && |log.topics| > 0 && log.topics[0] == abi.eventTopic
  }

  /** The decoded swap events in order; none when one is malformed. */
  function Executed(abi: Abi, logs: seq<ReceiptLog>): Option<seq<SwapExecuted>> {
    if logs == [] then Some([]) else
      var before, log := Executed(abi, logs[..|logs| - 1]), logs[|logs| - 1];
      if !IsSwapLog(abi, log) then before
      else if before.None? || abi.event(log).None? then None
      else Some(before.value + [abi.event(log).value])
  }

  lemma {:induction false} MalformedStays(abi: Abi, logs: seq<ReceiptLog>, i: nat)
    requires i <= |logs| && Executed(abi, logs[..i]).None?
    ensures Executed(abi, logs).None?
    decreases |logs| - i
  {
    hide AddressesEqual;
    if i == |logs| {
      assert logs[..i] == logs;
    } else {
      assert logs[..i + 1][..i] == logs[..i];
      MalformedStays(abi, logs, i + 1);
    }
  }

  method CollectExecuted(abi: Abi, logs: seq<ReceiptLog>) returns (events: Option<seq<SwapExecuted>>)
    ensures events == Executed(abi, logs)
  {
    hide AddressesEqual;
    var executed: seq<SwapExecuted> := [];
    var i := 0;
    while i < |logs|
      invariant i <= |logs|
      invariant Executed(abi, logs[..i]) == Some(executed)
    {
      assert logs[..i + 1][..i] == logs[..i];
      if IsSwapLog(abi, logs[i]) {
        var event := abi.event(logs[i]);
        if event.None? {
          MalformedStays(abi, logs, i + 1);
          return None;
        }
        executed := executed + [event.value];
      }
      i := i + 1;
    }
    assert logs[..i] == logs;
    return Some(executed);
  }

  // ---------------------------------------------------------------- the event

  /** The reason code of the first thing the event gets wrong. */
  function EventProblem(wallet: string, p: Swap, e: SwapExecuted): Option<string> {
    var amountIn, minimum := BaseUnits(p.inputAmount), BaseUnits(p.minimumOutput);
    if !AddressesEqual(e.caller, wallet) then Some("SWAP_EVENT_CALLER_MISMATCH")
    else if !(AddressesEqual(e.tokenIn, p.inputToken.address) && AddressesEqual(e.tokenOut, p.outputToken.address)) then
      Some("SWAP_EVENT_TOKEN_MISMATCH")
    else if e.amountIn != amountIn || e.minAmountOut != minimum then Some("SWAP_EVENT_FINANCIAL_MISMATCH")
    else if e.amountOut < minimum then Some("SWAP_OUTPUT_BELOW_MINIMUM")
    else if e.netAmountIn + e.feeAmount != amountIn then Some("SWAP_FEE_ARITHMETIC_MISMATCH")
    else if e.feeAmount < 0 || e.netAmountIn < 0 || e.feeAmount * BPS > amountIn * MAX_FEE_BPS then
      Some("SWAP_FEE_EXCEEDS_MAXIMUM")
    else None
  }

  /** Verify, once intent and plan are bound. */
  function Verdict(abi: Abi, wallet: string, callData: Bytes, p: Swap, receipt: Receipt): DomainResult {
    var stopped := Transaction(abi, wallet, callData, p, receipt);
    if stopped.Some? then stopped.value else
      var executed := Executed(abi, receipt.logs);
      if executed.None? then Failed("SWAP_EVENT_MALFORMED")
      else if |executed.value| != 1 then Failed("SWAP_EVENT_COUNT_MISMATCH")
      else
        var e := executed.value[0];
        var problem := EventProblem(wallet, p, e);
        if problem.Some? then Failed(problem.value)
        else if !(exists log | log in receipt.logs :: IsTransfer(abi, p.outputToken.address, wallet, e.amountOut,
                                                                 log)) then
          Failed("SWAP_OUTPUT_TRANSFER_MISSING")
        else VERIFIED
  }

  method Verify(abi: Abi, wallet: string, callData: Bytes, p: Swap, receipt: Receipt) returns (result: DomainResult)
    ensures result == Verdict(abi, wallet, callData, p, receipt)
  {
    hide AddressesEqual, IsTransfer;
    var stopped := Transaction(abi, wallet, callData, p, receipt);
    if stopped.Some? {
      return stopped.value;
    }
    var executed := CollectExecuted(abi, receipt.logs);
    if executed.None? {
      return Failed("SWAP_EVENT_MALFORMED");
    }
    if |executed.value| != 1 {
      return Failed("SWAP_EVENT_COUNT_MISMATCH");
    }
    var event := executed.value[0];
    var problem := EventProblem(wallet, p, event);
    if problem.Some? {
      return Failed(problem.value);
    }
    var transferred := HasOutputTransfer(abi, receipt.logs, p.outputToken.address, wallet, event.amountOut);
    if !transferred {
      return Failed("SWAP_OUTPUT_TRANSFER_MISSING");
    }
    return VERIFIED;
  }

  // ---------------------------------------------------------------- what VERIFIED means

  lemma TransactionNeverVerifies(abi: Abi, wallet: string, callData: Bytes, p: Swap, receipt: Receipt)
    ensures var stopped := Transaction(abi, wallet, callData, p, receipt);
            stopped.Some? ==> stopped.value.status != DomainVerified
  {
    hide AddressesEqual, CallMatches, ExpectedValue, ValidLogs;
  }

  /** Swap settlement, independent of the order of checks. */
  predicate Settles(abi: Abi, wallet: string, p: Swap, logs: seq<ReceiptLog>, e: SwapExecuted) {
    && AddressesEqual(e.caller, wallet)
    && AddressesEqual(e.tokenIn, p.inputToken.address) && AddressesEqual(e.tokenOut, p.outputToken.address)
    && e.amountIn == BaseUnits(p.inputAmount) == e.netAmountIn + e.feeAmount
    && e.minAmountOut == BaseUnits(p.minimumOutput) <= e.amountOut
    && 0 <= e.netAmountIn && 0 <= e.feeAmount && BPS * e.feeAmount <= MAX_FEE_BPS * e.amountIn
    && exists log | log in logs :: IsTransfer(abi, p.outputToken.address, wallet, e.amountOut, log)
  }

  lemma Decides(abi: Abi, wallet: string, callData: Bytes, p: Swap, receipt: Receipt)
    ensures Verdict(abi, wallet, callData, p, receipt).status == DomainVerified <==>
              && Transaction(abi, wallet, callData, p, receipt).None?
              && Executed(abi, receipt.logs).Some? && |Executed(abi, receipt.logs).value| == 1
              && Settles(abi, wallet, p, receipt.logs, Executed(abi, receipt.logs).value[0])
  {
    hide AddressesEqual, IsTransfer, Transaction, Executed;
    TransactionNeverVerifies(abi, wallet, callData, p, receipt);
  }

  /** Every verified swap delivered at least what the approved slippage allows, and took
      exactly the approved input, of which at most one percent as fee. */
  lemma SlippageHonoured(abi: Abi, wallet: string, callData: Bytes, p: Swap, receipt: Receipt)
    requires ValidSwap(p, 0, 0, 0)
    requires Verdict(abi, wallet, callData, p, receipt).status == DomainVerified
    ensures Executed(abi, receipt.logs).Some? && |Executed(abi, receipt.logs).value| == 1
    ensures var e := Executed(abi, receipt.logs).value[0];
            && BPS * e.amountOut >= BaseUnits(p.expectedOutput) * (BPS - p.maxSlippageBPS)
            && e.amountIn == BaseUnits(p.inputAmount) == e.netAmountIn + e.feeAmount
            && 0 <= BPS * e.feeAmount <= MAX_FEE_BPS * e.amountIn
            && exists log | log in receipt.logs :: IsTransfer(abi, p.outputToken.address, wallet, e.amountOut, log)
  {
    Decides(abi, wallet, callData, p, receipt);
    var e := Executed(abi, receipt.logs).value[0];
    SwapFloor(p, e.amountOut);
    hide AddressesEqual, IsTransfer, Transaction, Executed, ValidSwap;
  }

  lemma SwapFloor(p: Swap, amountOut: int)
    requires ValidSwapAmounts(p) && amountOut >= BaseUnits(p.minimumOutput)
    ensures BPS * amountOut >= BaseUnits(p.expectedOutput) * (BPS - p.maxSlippageBPS)
  {
    CeilingIsLeast(BaseUnits(p.expectedOutput), p.maxSlippageBPS, amountOut);
  }
}
