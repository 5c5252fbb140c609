/** What a verified swap receipt amounts to: the planned transaction, the swap event its logs
    carry and the output transfer, spelled out field by field, and the verifier
    (internal/swap/verifier.go) shown to accept exactly that. */
module SwapSettlement {
  import opened Text
  import opened Receipts
  import opened Amounts
  import opened Intents
  import opened DomainResults
  import opened SwapVerifier

  // ---------------------------------------------------------------- the output transfer

  function Pow256(k: nat): (p: nat)
    ensures p > 0
  {
    if k == 0 then 1 else 256 * Pow256(k - 1)
  }

  /** n as k bytes, most significant first. */
  function BytesOf(n: nat, k: nat): (bytes: Bytes)
    ensures |bytes| == k
  {
    if k == 0 then [] else BytesOf(n / 256, k - 1) + [(n % 256) as byte]
  }

  lemma {:induction false} BigEndianIsRange(bytes: Bytes)
    ensures BigEndian(bytes) < Pow256(|bytes|) && BytesOf(BigEndian(bytes), |bytes|) == bytes
  {
    if bytes != [] {
      var front := bytes[..|bytes| - 1];
      BigEndianIsRange(front);
      assert BigEndian(bytes) / 256 == BigEndian(front);
      assert bytes == front + [bytes[|bytes| - 1]];
    }
  }

  lemma {:induction false} BigEndianOfBytes(n: nat, k: nat)
    requires n < Pow256(k)
    ensures BigEndian(BytesOf(n, k)) == n
  {
    if k > 0 {
      BigEndianOfBytes(n / 256, k - 1);
      assert BytesOf(n, k)[..k - 1] == BytesOf(n / 256, k - 1);
    }
  }

  function HexValue(c: char): nat
    requires IsHex(c)
  {
    if IsDigit(c) then c as int - '0' as int
    else if 'a' <= c <= 'f' then c as int - 'a' as int + 10
    else c as int - 'A' as int + 10
  }

  lemma {:induction false} HexDigits(bytes: Bytes, i: nat)
    requires i < |bytes|
    ensures |Hex(bytes)| == 2 * |bytes|
    ensures Hex(bytes)[2 * i] == HexDigit(bytes[i] as int / 16)
         && Hex(bytes)[2 * i + 1] == HexDigit(bytes[i] as int % 16)
    decreases |bytes|
  {
    if i > 0 {
      HexDigits(bytes[1..], i - 1);
    } else if |bytes| > 1 {
      HexDigits(bytes[1..], 0);
    }
  }

  lemma DigitValues(d: nat, c: char)
    requires d < 16 && IsHex(c)
    ensures IsLowerHex(HexDigit(d)) && LowerChar(HexDigit(d)) == HexDigit(d)
    ensures HexDigit(d) == LowerChar(c) <==> d == HexValue(c)
  {
  }

  /** Byte i of an address, out of its two digits. */
  function AddressByte(address: string, i: nat): nat
    requires ValidAddress(address) && i < 20
  {
    16 * HexValue(address[2 + 2 * i]) + HexValue(address[3 + 2 * i])
  }

  /** The word that holds an address: twelve zero bytes, then its twenty. */
  predicate HoldsAddress(word: Bytes, address: string) {
    && |word| == 32 && ValidAddress(address)
    && (forall i | 0 <= i < 12 :: word[i] == 0)
    && (forall i | 0 <= i < 20 :: word[12 + i] as int == AddressByte(address, i))
  }

  lemma ByteIsTwoDigits(b: byte, high: char, low: char)
    requires IsHex(high) && IsHex(low)
    ensures HexDigit(b as int / 16) == LowerChar(high) && HexDigit(b as int % 16) == LowerChar(low) <==>
            b as int == 16 * HexValue(high) + HexValue(low)
  {
    DigitValues(b as int / 16, high);
    DigitValues(b as int % 16, low);
  }

  lemma HexIsAddress(bytes: Bytes)
    requires |bytes| == 20
    ensures ValidAddress("0x" + Hex(bytes))
    ensures forall i | 0 <= i < 20 ::
              && ("0x" + Hex(bytes))[2 + 2 * i] == HexDigit(bytes[i] as int / 16)
              && ("0x" + Hex(bytes))[3 + 2 * i] == HexDigit(bytes[i] as int % 16)
  {
    var text := "0x" + Hex(bytes);
    HexDigits(bytes, 0);
    forall i | 0 <= i < 20
      ensures text[2 + 2 * i] == HexDigit(bytes[i] as int / 16) && text[3 + 2 * i] == HexDigit(bytes[i] as int % 16)
      ensures IsHex(text[2 + 2 * i]) && IsHex(text[3 + 2 * i])
    {
      HexDigits(bytes, i);
      DigitValues(bytes[i] as int / 16, 'a');
      DigitValues(bytes[i] as int % 16, 'a');
    }
    forall j | 2 <= j < 42 ensures IsHex(text[j]) {
      var i := (j - 2) / 2;
      assert j == 2 + 2 * i || j == 3 + 2 * i;
    }
  }

  predicate SameByte(a: string, b: string, i: nat)
    requires ValidAddress(a) && ValidAddress(b) && i < 20
  {
    LowerChar(a[2 + 2 * i]) == LowerChar(b[2 + 2 * i]) && LowerChar(a[3 + 2 * i]) == LowerChar(b[3 + 2 * i])
  }

  lemma SameByByte(a: string, b: string)
    requires ValidAddress(a) && ValidAddress(b)
    ensures SameAddress(a, b) <==> forall i | 0 <= i < 20 :: SameByte(a, b, i)
  {
    if forall i | 0 <= i < 20 :: SameByte(a, b, i) {
      forall j | 2 <= j < 42 ensures LowerChar(a[j]) == LowerChar(b[j]) {
        var i := (j - 2) / 2;
        assert SameByte(a, b, i) && (j == 2 + 2 * i || j == 3 + 2 * i);
      }
    }
  }

  lemma HexByte(bytes: Bytes, address: string, i: nat)
    requires |bytes| == 20 && ValidAddress(address) && i < 20
    ensures ValidAddress("0x" + Hex(bytes))
    ensures SameByte("0x" + Hex(bytes), address, i) <==> bytes[i] as int == AddressByte(address, i)
  {
    HexIsAddress(bytes);
    hide Hex;
    ByteIsTwoDigits(bytes[i], address[2 + 2 * i], address[3 + 2 * i]);
    DigitValues(bytes[i] as int / 16, 'a');
    DigitValues(bytes[i] as int % 16, 'a');
  }

  lemma TopicAddressIff(topic: Bytes, address: string)
    ensures TopicAddress(topic, address) <==> HoldsAddress(topic, address)
  {
    hide Hex, SameByte, AddressByte, SameAddress, AddressesEqual;
    if |topic| == 32 {
      var text := "0x" + Hex(topic[12..]);
      AddressesEqualIff(text, address);
      if ValidAddress(address) {
        HexIsAddress(topic[12..]);
        SameByByte(text, address);
        forall i | 0 <= i < 20
          ensures SameByte(text, address, i) <==> topic[12 + i] as int == AddressByte(address, i)
        {
          HexByte(topic[12..], address, i);
        }
      } else {
        NotSame(text, address);
      }
    }
  }

  lemma NotSame(a: string, b: string)
    requires !ValidAddress(b)
    ensures !SameAddress(a, b)
  {
  }

  /** A transfer of exactly that amount of the token to the recipient: the recipient in the
      third topic, the amount in the data word. */
  predicate Delivers(abi: Abi, token: string, recipient: string, amount: int, log: ReceiptLog) {
    && AddressesEqual(log.address, token)
    && |log.topics| == 3 && log.topics[0] == abi.transferTopic && HoldsAddress(log.topics[2], recipient)
    && 0 <= amount < Pow256(32) && log.data == BytesOf(amount, 32)
  }

  lemma TransferIff(abi: Abi, token: string, recipient: string, amount: int, log: ReceiptLog)
    ensures IsTransfer(abi, token, recipient, amount, log) <==> Delivers(abi, token, recipient, amount, log)
  {
    hide TopicAddress, HoldsAddress, AddressesEqual, BigEndian, BytesOf, Pow256;
    if |log.topics| == 3 {
      TopicAddressIff(log.topics[2], recipient);
    }
    BigEndianIsRange(log.data);
    if 0 <= amount < Pow256(32) {
      BigEndianOfBytes(amount, 32);
    }
  }

  // ---------------------------------------------------------------- the planned transaction

  predicate SwapCalled(p: Swap, call: SwapCall) {
    && AddressesEqual(call.tokenIn, p.inputToken.address) && AddressesEqual(call.tokenOut, p.outputToken.address)
    && call.amountIn == BaseUnits(p.inputAmount) && call.minAmountOut == BaseUnits(p.minimumOutput)
    && ParseBig(p.minHopPriceX36) == Some(call.minHopPriceX36)
    && 0 <= p.deadline - (call.deadline + UNIX_EPOCH) * SECOND < SECOND
  }

  /** The wallet sent the planned call to the swap contract, with the native value that funds
      a USDC input and none otherwise. */
  predicate PlannedSwap(abi: Abi, wallet: string, callData: Bytes, p: Swap, receipt: Receipt) {
    && Sent(wallet, SWAP_CONTRACT, receipt) && receipt.input == callData
    && LogsFit(receipt.logs)
    && abi.call(callData).Some? && SwapCalled(p, abi.call(callData).value)
    && abi.quantity(receipt.value)
       == Some(if AddressesEqual(p.inputToken.address, USDC) then BaseUnits(p.inputAmount) * 1_000_000_000_000 else 0)
  }

  lemma SwapCalledIff(p: Swap, call: SwapCall)
    ensures CallMatches(p, call) <==> SwapCalled(p, call)
  {
    hide AddressesEqual, BaseUnits, ParseBig;
    assert call.deadline == UnixSeconds(p.deadline) <==>
           0 <= p.deadline - (call.deadline + UNIX_EPOCH) * SECOND < SECOND;
  }

  lemma PlannedIff(abi: Abi, wallet: string, callData: Bytes, p: Swap, receipt: Receipt)
    ensures Transaction(abi, wallet, callData, p, receipt).None? <==> PlannedSwap(abi, wallet, callData, p, receipt)
  {
    hide ValidLogs, LogsFit, Envelope, Sent, BaseUnits, CallMatches, SwapCalled, AddressesEqual;
    EnvelopeIff(wallet, SWAP_CONTRACT, receipt);
    LogsFitIff(receipt.logs);
    if abi.call(callData).Some? {
      SwapCalledIff(p, abi.call(callData).value);
    }
  }

  // ---------------------------------------------------------------- the event

  /** The verifier decodes exactly the swap events the logs carry. */
  lemma {:induction false} ExecutedIff(abi: Abi, logs: seq<ReceiptLog>, events: seq<SwapExecuted>)
    ensures Executed(abi, logs) == Some(events) <==>
            Decodes(abi.event, LogsOf(SWAP_CONTRACT, abi.eventTopic, logs), events)
    decreases |logs|
  {
    if logs != [] {
      var front, log := logs[..|logs| - 1], logs[|logs| - 1];
      var before := LogsOf(SWAP_CONTRACT, abi.eventTopic, front);
      assert front + [log] == logs;
      LogsOfLast(SWAP_CONTRACT, abi.eventTopic, front, log);
      hide AddressesEqual, LogsOf, Decodes;
      if !IsSwapLog(abi, log) {
        ExecutedIff(abi, front, events);
        assert before + [] == before;
      } else {
        if Executed(abi, logs) == Some(events) {
          var earlier := Executed(abi, front).value;
          ExecutedIff(abi, front, earlier);
          DecodesMore(abi.event, before, earlier, log, abi.event(log).value);
        }
        if Decodes(abi.event, before + [log], events) {
          DecodesLess(abi.event, before, events, log);
          ExecutedIff(abi, front, events[..|events| - 1]);
          assert events[..|events| - 1] + [events[|events| - 1]] == events;
        }
      }
    }
  }

  /** The event reports the approved swap of the wallet, fees of at most one percent, at least
      the minimum output, and a log transfers that output to the wallet. */
  predicate Settled(abi: Abi, wallet: string, p: Swap, logs: seq<ReceiptLog>, e: SwapExecuted) {
    && AddressesEqual(e.caller, wallet)
    && AddressesEqual(e.tokenIn, p.inputToken.address) && AddressesEqual(e.tokenOut, p.outputToken.address)
    && e.amountIn == BaseUnits(p.inputAmount) == e.netAmountIn + e.feeAmount
    && e.minAmountOut == BaseUnits(p.minimumOutput) <= e.amountOut
    && 0 <= e.netAmountIn && 0 <= e.feeAmount && 100 * e.feeAmount <= e.amountIn
    && exists log | log in logs :: Delivers(abi, p.outputToken.address, wallet, e.amountOut, log)
  }

  lemma SettledIff(abi: Abi, wallet: string, p: Swap, logs: seq<ReceiptLog>, e: SwapExecuted)
    ensures Settles(abi, wallet, p, logs, e) <==> Settled(abi, wallet, p, logs, e)
  {
    hide AddressesEqual, IsTransfer, Delivers, BaseUnits;
    forall log
      ensures IsTransfer(abi, p.outputToken.address, wallet, e.amountOut, log) <==>
              Delivers(abi, p.outputToken.address, wallet, e.amountOut, log)
    {
      TransferIff(abi, p.outputToken.address, wallet, e.amountOut, log);
    }
  }

  /** A swap verifies exactly when the planned transaction was executed, its logs carry
      exactly one swap event, and that event and an output transfer settle the intent. */
  lemma VerifiedIff(abi: Abi, wallet: string, callData: Bytes, p: Swap, receipt: Receipt)
    ensures Verdict(abi, wallet, callData, p, receipt).status == DomainVerified <==>
              && PlannedSwap(abi, wallet, callData, p, receipt)
              && exists e ::
                   && Decodes(abi.event, LogsOf(SWAP_CONTRACT, abi.eventTopic, receipt.logs), [e])
                   && Settled(abi, wallet, p, receipt.logs, e)
  {
    hide Verdict, Transaction, PlannedSwap, Executed, Decodes, LogsOf, Settles, Settled;
    SwapVerifier.Decides(abi, wallet, callData, p, receipt);
    PlannedIff(abi, wallet, callData, p, receipt);
    forall e ensures Executed(abi, receipt.logs) == Some([e]) <==>
                     Decodes(abi.event, LogsOf(SWAP_CONTRACT, abi.eventTopic, receipt.logs), [e])
    {
      ExecutedIff(abi, receipt.logs, [e]);
    }
    forall e ensures Settles(abi, wallet, p, receipt.logs, e) <==> Settled(abi, wallet, p, receipt.logs, e) {
      SettledIff(abi, wallet, p, receipt.logs, e);
    }
    var executed := Executed(abi, receipt.logs);
    if executed.Some? && |executed.value| == 1 {
      assert executed.value == [executed.value[0]];
    }
  }

  lemma TransactionOpen(abi: Abi, wallet: string, callData: Bytes, p: Swap, receipt: Receipt)
    ensures var t := Transaction(abi, wallet, callData, p, receipt);
            t.Some? && t.value.status == DomainUnverified <==> Undecided(receipt)
  {
    hide CallMatches, ExpectedValue, ValidLogs, Envelope, Undecided;
    EnvelopeIff(wallet, SWAP_CONTRACT, receipt);
  }

  /** The verdict stays open exactly while the receipt decides nothing. */
  lemma OpenIff(abi: Abi, wallet: string, callData: Bytes, p: Swap, receipt: Receipt)
    ensures Verdict(abi, wallet, callData, p, receipt).status == DomainUnverified <==> Undecided(receipt)
  {
    hide Transaction, Executed, Undecided, EventProblem, IsTransfer;
    TransactionOpen(abi, wallet, callData, p, receipt);
  }
}
