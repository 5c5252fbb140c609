/** What the domain verifiers share (internal/payroll/verifier.go, internal/swap/verifier.go):
    their results, and the checks on the transaction they make first. */
module DomainResults {
  import opened Text
  import opened Receipts
  import opened Intents

  datatype DomainStatus = DomainVerified | DomainUnverified | DomainFailed

  datatype DomainResult = DomainResult(status: DomainStatus, reasonCode: string)

  function Failed(code: string): DomainResult { DomainResult(DomainFailed, code) }

  const NOT_SUCCESS := DomainResult(DomainUnverified, "RECEIPT_NOT_SUCCESS")

  /** None, or the result the verifier stops with. */
  function Envelope(wallet: string, target: string, receipt: Receipt): Option<DomainResult> {
    if receipt.status == Reverted then Some(Failed("ONCHAIN_EXECUTION_REVERTED"))
    else if receipt.status != Success then Some(NOT_SUCCESS)
    else if receipt.chainID != ARC_MAINNET then Some(Failed("RECEIPT_CHAIN_MISMATCH"))
    else if !ValidTransactionHash(Lower(Trim(receipt.transactionHash))) then Some(Failed("RECEIPT_HASH_INVALID"))
    else if !receipt.hasTransaction then Some(NOT_SUCCESS)
    else if !AddressesEqual(receipt.from, wallet) then Some(Failed("TRANSACTION_SENDER_MISMATCH"))
    else if !AddressesEqual(receipt.to, target) then Some(Failed("TRANSACTION_TARGET_MISMATCH"))
    else None
  }

  // ---------------------------------------------------------------- what the checks amount to

  /** The same forty hexadecimal digits after 0x, whatever their letter case. */
  predicate SameAddress(a: string, b: string) {
    && ValidAddress(a) && ValidAddress(b)
    && forall i | 2 <= i < 42 :: LowerChar(a[i]) == LowerChar(b[i])
  }

  lemma AddressesEqualIff(a: string, b: string)
    ensures AddressesEqual(a, b) <==> SameAddress(a, b)
  {
    if ValidAddress(a) && ValidAddress(b) {
      assert Trim(a) == a && Trim(b) == b;
      var x, y := Lower(a), Lower(b);
      assert x[0] == y[0] == '0' && x[1] == y[1] == 'x';
      if SameAddress(a, b) {
        assert forall i | 2 <= i < 42 :: x[i] == y[i];
        assert x == y;
      } else {
        var i :| 2 <= i < 42 && LowerChar(a[i]) != LowerChar(b[i]);
        assert x[i] != y[i];
      }
    }
  }

  /** A successful Arc Mainnet transaction of the wallet to the contract. */
  predicate Sent(wallet: string, target: string, receipt: Receipt) {
    && receipt.status == Success && receipt.chainID == "5042"
    && ValidTransactionHash(Lower(Trim(receipt.transactionHash)))
    && receipt.hasTransaction
    && AddressesEqual(receipt.from, wallet) && AddressesEqual(receipt.to, target)
  }

  /** The receipt decides nothing yet: no final status, or no transaction to look at. */
  predicate Undecided(receipt: Receipt) {
    || receipt.status !in {Success, Reverted}
    || (&& receipt.status == Success && receipt.chainID == "5042" && !receipt.hasTransaction
        && ValidTransactionHash(Lower(Trim(receipt.transactionHash))))
  }

  lemma EnvelopeIff(wallet: string, target: string, receipt: Receipt)
    ensures Envelope(wallet, target, receipt).None? <==> Sent(wallet, target, receipt)
    ensures var e := Envelope(wallet, target, receipt);
            e.Some? && e.value.status == DomainUnverified <==> Undecided(receipt)
  {
    hide AddressesEqual, ValidTransactionHash, Lower, Trim;
  }

  /** At most sixty-four logs, each of bounded size. */
  predicate LogsFit(logs: seq<ReceiptLog>) {
    && |logs| <= 64
    && (forall i | 0 <= i < |logs| :: ValidLogAddress(logs[i].address))
    && (forall i | 0 <= i < |logs| :: |logs[i].topics| <= 4 && |logs[i].data| <= 8192)
    && (forall i, j | 0 <= i < |logs| && 0 <= j < |logs[i].topics| :: |logs[i].topics[j]| == 32)
    && (forall i | 0 <= i < |logs| :: logs[i].transactionHash == "" || ValidTransactionHash(logs[i].transactionHash))
  }

  lemma LogsFitIff(logs: seq<ReceiptLog>)
    ensures ValidLogs(logs) <==> LogsFit(logs)
  {
    hide ValidTransactionHash, ValidLogAddress;
  }

  // ---------------------------------------------------------------- events carried by logs

  /** The logs of one contract under one topic, in order. */
  function LogsOf(contract: string, topic: Bytes, logs: seq<ReceiptLog>): seq<ReceiptLog> {
    if logs == [] then [] else
      var before, log := LogsOf(contract, topic, logs[..|logs| - 1]), logs[|logs| - 1];
      if AddressesEqual(log.address, contract) && log.topics != [] && log.topics[0] == topic
      then before + [log] else before
  }

  predicate Decodes<T(==)>(decode: ReceiptLog -> Option<T>, logs: seq<ReceiptLog>, events: seq<T>) {
    |events| == |logs| && forall i | 0 <= i < |logs| :: decode(logs[i]) == Some(events[i])
  }

  lemma DecodesMore<T>(
    decode: ReceiptLog -> Option<T>, logs: seq<ReceiptLog>, events: seq<T>, log: ReceiptLog, event: T)
    requires Decodes(decode, logs, events)
    ensures Decodes(decode, logs + [log], events + [event]) <==> decode(log) == Some(event)
  {
    assert (logs + [log])[|logs|] == log && (events + [event])[|events|] == event;
  }

  lemma DecodesLess<T>(decode: ReceiptLog -> Option<T>, logs: seq<ReceiptLog>, events: seq<T>, log: ReceiptLog)
    requires Decodes(decode, logs + [log], events)
    ensures events != [] && Decodes(decode, logs, events[..|events| - 1])
         && decode(log) == Some(events[|events| - 1])
  {
    assert (logs + [log])[|logs|] == log;
    forall i | 0 <= i < |logs| ensures decode(logs[i]) == Some(events[i]) {
      assert (logs + [log])[i] == logs[i];
    }
  }

  lemma LogsOfLast(contract: string, topic: Bytes, logs: seq<ReceiptLog>, log: ReceiptLog)
    ensures LogsOf(contract, topic, logs + [log]) == LogsOf(contract, topic, logs)
              + if AddressesEqual(log.address, contract) && log.topics != [] && log.topics[0] == topic
                then [log] else []
  {
    hide AddressesEqual;
    assert (logs + [log])[..|logs|] == logs;
  }
}
