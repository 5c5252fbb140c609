/** Receipt observation integrity (internal/providers/reorg.go): successive receipts of
    one transaction are compared with a merged baseline. */
module Observations {
  import opened Text
  import opened Receipts

  datatype ReceiptObservation = ReceiptObservation(
    chainID: string, transactionHash: string, status: ReceiptStatus,
    blockNumber: uint64, blockHash: string, confirmations: uint64,
    present: bool, known: bool, logFingerprint: string)
  {
    predicate HasInclusion() { known || present || blockHash != "" || blockNumber != 0 }
  }

  const NO_OBSERVATION := ReceiptObservation("", "", Unknown, 0, "", 0, false, false, "")

  datatype Signal = Consistent | ReceiptMissing | BlockHashChanged | BlockNumberChanged
    | ConfirmationsDecreased | LogsChanged

  predicate EqualFold(a: string, b: string) { Lower(a) == Lower(b) }

  function Compare(prior: ReceiptObservation, current: ReceiptObservation): Signal {
    if !prior.HasInclusion() then Consistent
    else if !current.present then
      if prior.present then ReceiptMissing else Consistent
    else if prior.blockHash != "" && current.blockHash != "" && !EqualFold(prior.blockHash, current.blockHash) then
      BlockHashChanged
    else if prior.blockNumber != 0 && current.blockNumber != 0 && prior.blockNumber != current.blockNumber then
      BlockNumberChanged
    else if prior.present && prior.confirmations > 0 && current.confirmations < prior.confirmations then
      ConfirmationsDecreased
    else if prior.present && prior.logFingerprint != "" && prior.logFingerprint != current.logFingerprint then
      LogsChanged
    else Consistent
  }

  function Normal(s: string): string { Lower(Trim(s)) }

  function Merge(prior: ReceiptObservation, current: ReceiptObservation): ReceiptObservation {
    var out := current.(transactionHash := Normal(current.transactionHash));
    if current.present then
      out.(known := true, blockHash := Normal(current.blockHash), logFingerprint := Normal(current.logFingerprint))
    else if prior.HasInclusion() then
      out.(known := true, blockHash := prior.blockHash, blockNumber := prior.blockNumber,
           confirmations := 0, status := Unknown, logFingerprint := prior.logFingerprint)
    else
      out.(known := false)
  }

  /** The observation of one verification pass. `digest` stands for LogFingerprint, a hash
      of the normalized logs. */
  function FromReceipt(receipt: Receipt, present: bool, digest: seq<ReceiptLog> -> string): ReceiptObservation {
    ReceiptObservation(
      receipt.chainID, receipt.transactionHash, receipt.status,
      receipt.blockNumber, Normal(receipt.blockHash), receipt.confirmations,
      present, present,
      if present && |receipt.logs| > 0 then digest(receipt.logs) else "")
  }

  predicate IsPresent(receipt: Receipt) {
    receipt.blockNumber != 0 || receipt.blockHash != "" || receipt.status == Success || receipt.status == Reverted
  }

  // ---------------------------------------------------------------- the in-process tracker

  function Key(chainID: string, transactionHash: string): string {
    chainID + "|" + Normal(transactionHash)
  }

  datatype Evaluation = Evaluation(
    signal: Signal, merged: ReceiptObservation, memory: map<string, ReceiptObservation>)

  function Remembered(memory: map<string, ReceiptObservation>, o: ReceiptObservation): map<string, ReceiptObservation> {
    if o.chainID == "" || o.transactionHash == "" then memory
    else memory[Key(o.chainID, o.transactionHash) := o.(transactionHash := Normal(o.transactionHash))]
  }

  /** What ObservationTracker.Evaluate computes from its memory. */
  function Evaluated(
    memory: map<string, ReceiptObservation>, durable: ReceiptObservation, current: ReceiptObservation
  ): Evaluation {
    var c1 := if current.chainID == "" then current.(chainID := durable.chainID) else current;
    var c := if c1.transactionHash == "" then c1.(transactionHash := durable.transactionHash) else c1;
    var key := Key(c.chainID, c.transactionHash);
    var prior := if key in memory then memory[key] else durable;
    var merged := Merge(prior, c);
    Evaluation(Compare(prior, c), merged, Remembered(memory, merged))
  }

  class ObservationTracker {
    var byTX: map<string, ReceiptObservation>

    constructor ()
      ensures byTX == map[]
    {
      byTX := map[];
    }

    method Prior(chainID: string, transactionHash: string) returns (found: Option<ReceiptObservation>)
      ensures found == (if Key(chainID, transactionHash) in byTX then Some(byTX[Key(chainID,
                                                                                    transactionHash)]) else None)
    {
      var key := Key(chainID, transactionHash);
      if key in byTX {
        return Some(byTX[key]);
      }
      return None;
    }

    method Remember(observation: ReceiptObservation)
      modifies this
      ensures byTX == Remembered(old(byTX), observation)
    {
      if observation.chainID == "" || observation.transactionHash == "" {
        return;
      }
      var stored := observation.(transactionHash := Normal(observation.transactionHash));
      NormalIdempotent(observation.transactionHash);
      byTX := byTX[Key(stored.chainID, stored.transactionHash) := stored];
    }

    method Evaluate(durable: ReceiptObservation, observed: ReceiptObservation)
      returns (signal: Signal, merged: ReceiptObservation)
      modifies this
      ensures var e := Evaluated(old(byTX), durable, observed);
              signal == e.signal && merged == e.merged && byTX == e.memory
    {
      var current := observed;
      if current.chainID == "" {
        current := current.(chainID := durable.chainID);
      }
      if current.transactionHash == "" {
        current := current.(transactionHash := durable.transactionHash);
      }
      var processPrior := Prior(current.chainID, current.transactionHash);
      var prior := durable;
      if processPrior.Some? {
        prior := processPrior.value;
      }
      signal := Compare(prior, current);
      merged := Merge(prior, current);
      Remember(merged);
    }
  }

  lemma NormalIdempotent(s: string)
    ensures Normal(Normal(s)) == Normal(s)
  {
    var t := Lower(Trim(s));
    assert forall i | 0 <= i < |t| :: !('A' <= t[i] <= 'Z');
    assert t == "" || (!IsSpace(t[0]) && !IsSpace(t[|t| - 1])) by {
      var u := Trim(s);
      assert forall c: char | !IsSpace(c) :: !IsSpace(LowerChar(c));
    }
    assert Lower(t) == t;
  }

  // ---------------------------------------------------------------- runs of passes

  /** The baseline a process holds after observing `passes`, starting with none. */
  function Baseline(passes: seq<ReceiptObservation>): ReceiptObservation {
    if passes == [] then NO_OBSERVATION
    else Merge(Baseline(passes[..|passes| - 1]), passes[|passes| - 1])
  }

  /** An absent receipt carries no inclusion identity; see FromReceiptIsPass. */
  predicate IsPass(o: ReceiptObservation) {
    && o.known == o.present
    && o.blockHash == Normal(o.blockHash)
    && (!o.present ==> o.blockHash == "" && o.blockNumber == 0 && o.logFingerprint == "")
  }

  predicate ArePasses(passes: seq<ReceiptObservation>) { forall i | 0 <= i < |passes| :: IsPass(passes[i]) }

  lemma FromReceiptIsPass(receipt: Receipt, digest: seq<ReceiptLog> -> string)
    ensures IsPass(FromReceipt(receipt, IsPresent(receipt), digest))
  {
    NormalIdempotent(receipt.blockHash);
    assert Trim("") == "" && Lower("") == "";
  }

  predicate IsLastPresent(passes: seq<ReceiptObservation>, j: nat) {
    && j < |passes|
    && passes[j].present
    && forall k | j < k < |passes| :: !passes[k].present
  }

  /** The baseline carries the inclusion identity and log fingerprint of the last present
      pass, and presence and depth only while that pass is the latest one. */
  lemma {:induction false} BaselineOfLastPresent(passes: seq<ReceiptObservation>, j: nat)
    requires ArePasses(passes) && IsLastPresent(passes, j)
    ensures var b := Baseline(passes);
            && b.known
            && b.present == (j == |passes| - 1)
            && b.blockHash == passes[j].blockHash
            && b.blockNumber == passes[j].blockNumber
            && b.logFingerprint == Normal(passes[j].logFingerprint)
            && b.confirmations == (if j == |passes| - 1 then passes[j].confirmations else 0)
  {
    if j < |passes| - 1 {
      BaselineOfLastPresent(passes[..|passes| - 1], j);
    }
  }

  lemma {:induction false} BaselineOfAbsence(passes: seq<ReceiptObservation>)
    requires ArePasses(passes) && forall k | 0 <= k < |passes| :: !passes[k].present
    ensures !Baseline(passes).HasInclusion()
  {
    if passes != [] {
      BaselineOfAbsence(passes[..|passes| - 1]);
    }
  }

  /** A new present pass agrees with the run: with the last present pass on inclusion
      identity, and with an immediately preceding present pass on depth and logs too. */
  predicate Agrees(passes: seq<ReceiptObservation>, j: nat, current: ReceiptObservation)
    requires j < |passes|
  {
    && (passes[j].blockHash != "" && current.blockHash != "" ==> EqualFold(passes[j].blockHash, current.blockHash))
    && (passes[j].blockNumber != 0 && current.blockNumber != 0 ==> passes[j].blockNumber == current.blockNumber)
    && (j == |passes| - 1 ==>
          && passes[j].confirmations <= current.confirmations
          && (Normal(passes[j].logFingerprint) != "" ==> Normal(passes[j].logFingerprint) == current.logFingerprint))
  }

  /** Exactly when the next pass raises no signal, for every run. */
  lemma SignalCharacterised(passes: seq<ReceiptObservation>, j: nat, current: ReceiptObservation)
    requires ArePasses(passes) && IsLastPresent(passes, j)
    ensures Compare(Baseline(passes), current) == Consistent
            <==> (if current.present then Agrees(passes, j, current) else j < |passes| - 1)
  {
    BaselineOfLastPresent(passes, j);
  }

  lemma FirstPresenceIsConsistent(passes: seq<ReceiptObservation>, current: ReceiptObservation)
    requires ArePasses(passes) && forall k | 0 <= k < |passes| :: !passes[k].present
    ensures Compare(Baseline(passes), current) == Consistent
  {
    BaselineOfAbsence(passes);
  }

  /** When everything else agrees, a changed log fingerprint raises a signal exactly if the
      receipt was present on the immediately preceding pass: a missing pass in between hides
      the change, although the baseline retained the earlier fingerprint. */
  lemma LogMutationDetectedIff(passes: seq<ReceiptObservation>, j: nat, current: ReceiptObservation)
    requires ArePasses(passes) && IsLastPresent(passes, j) && current.present
    requires EqualFold(passes[j].blockHash, current.blockHash) && passes[j].blockNumber == current.blockNumber
    requires passes[j].confirmations <= current.confirmations
    requires Normal(passes[j].logFingerprint) != "" && Normal(passes[j].logFingerprint) != current.logFingerprint
    ensures Baseline(passes).logFingerprint == Normal(passes[j].logFingerprint)
    ensures Compare(Baseline(passes), current) == LogsChanged <==> passes[|passes| - 1].present
  {
    BaselineOfLastPresent(passes, j);
  }

  lemma LogMutationAcrossGapUndetected()
    ensures exists passes: seq<ReceiptObservation>, current: ReceiptObservation ::
              && ArePasses(passes) && IsLastPresent(passes, 0) && current.present
              && passes[0].blockHash == current.blockHash && passes[0].blockNumber == current.blockNumber
              && Baseline(passes).logFingerprint != "" && current.logFingerprint != Baseline(passes).logFingerprint
              && Compare(Baseline(passes), current) == Consistent
  {
    var shown := ReceiptObservation("5042", "", Success, 7, "", 1, true, true, "a");
    var absent := NO_OBSERVATION;
    var changed := shown.(logFingerprint := "b");
    var passes := [shown, absent];
    assert Trim("") == "" && Lower("") == "";
    assert Trim("a") == "a" && Lower("a") == "a";
    BaselineOfLastPresent(passes, 0);
    assert Compare(Baseline(passes), changed) == Consistent;
  }
}
