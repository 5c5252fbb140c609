/** The durable provider reference and its `;`-separated codec
    (internal/providers/reference.go). */
module ProviderReference {
  import opened Text
  import opened Receipts
  import opened Observations

  const MAX_REFERENCE_LENGTH := 512
  const PREFIX := "wzp1"
  const CIRCLE_USER_CONTROLLED := "CIRCLE_USER_CONTROLLED_WALLET"

  datatype Reference = Reference(
    provider: string, chainID: string, walletID: string, challengeID: string,
    providerTransactionID: string, transactionHash: string,
    obsPresent: bool, obsKnown: bool, obsBlockHash: string,
    obsBlockNumber: uint64, obsConfirmations: uint64, obsLogFingerprint: string)

  const EMPTY := Reference("", "", "", "", "", "", false, false, "", 0, 0, "")

  // ---------------------------------------------------------------- validation

  predicate IsIdentifierChar(c: char) {
    IsDigit(c) || 'a' <= c <= 'z' || 'A' <= c <= 'Z' || c == '-'
  }

  predicate ValidProviderIdentifier(s: string) {
    s != "" && |s| <= 64 && forall i | 0 <= i < |s| :: IsIdentifierChar(s[i])
  }

  predicate ValidLogFingerprint(s: string) { |s| == 64 && AllLowerHex(s) }

  predicate HasObservationMetadata(r: Reference) {
    r.obsKnown || r.obsPresent || r.obsBlockHash != "" || r.obsBlockNumber != 0
    || r.obsConfirmations != 0 || r.obsLogFingerprint != ""
  }

  predicate Valid(r: Reference) {
    && r.provider == CIRCLE_USER_CONTROLLED
    && ValidChainID(r.chainID)
    && (r.challengeID != "" || r.providerTransactionID != "" || r.transactionHash != "")
    && (r.challengeID != "" ==> ValidProviderIdentifier(r.challengeID))
    && (r.providerTransactionID != "" ==> ValidProviderIdentifier(r.providerTransactionID))
    && (r.walletID != "" ==> ValidProviderIdentifier(r.walletID))
    && (r.transactionHash != "" ==> ValidTransactionHash(r.transactionHash))
    && (r.obsBlockHash != "" ==> ValidTransactionHash(r.obsBlockHash))
    && (r.obsLogFingerprint != "" ==> ValidLogFingerprint(r.obsLogFingerprint))
    && (HasObservationMetadata(r) ==> r.transactionHash != "" && r.obsKnown)
  }

  function Normalised(r: Reference): Reference {
    var r1 := if r.obsPresent then r.(obsKnown := true) else r;
    var r2 := if r1.obsBlockHash != "" || r1.obsBlockNumber != 0
              then r1.(obsKnown := true, obsBlockHash := Normal(r1.obsBlockHash)) else r1;
    if r2.obsLogFingerprint != ""
    then r2.(obsKnown := true, obsLogFingerprint := Normal(r2.obsLogFingerprint)) else r2
  }

  // ---------------------------------------------------------------- encoding

  function Field(key: string, value: string): seq<string> {
    if value == "" then [] else [key + "=" + value]
  }

  function NatField(key: string, value: nat): seq<string> {
    if value == 0 then [] else [key + "=" + NatToString(value)]
  }

  predicate WritesObservation(r: Reference) {
    r.obsKnown || r.obsPresent || r.obsBlockHash != "" || r.obsBlockNumber != 0 || r.obsLogFingerprint != ""
  }

  function Parts(r: Reference): seq<string> {
    [PREFIX, "p=" + r.provider, "chain=" + r.chainID]
    + Field("w", r.walletID)
    + Field("ch", r.challengeID)
    + Field("tx", r.providerTransactionID)
    + Field("hash", r.transactionHash)
    + (if WritesObservation(r) then
         [if r.obsPresent then "rp=1" else "rp=0"]
         + (if r.obsKnown || r.obsPresent then ["rk=1"] else [])
         + Field("bh", Lower(r.obsBlockHash))
         + NatField("bn", r.obsBlockNumber)
         + NatField("cf", r.obsConfirmations)
         + Field("lf", Lower(r.obsLogFingerprint))
       else [])
  }

  function Encode(reference: Reference): Option<string> {
    var r := Normalised(reference);
    if !Valid(r) then None else
      var encoded := Join(Parts(r), ';');
      if |encoded| > MAX_REFERENCE_LENGTH then None else Some(encoded)
  }

  // ---------------------------------------------------------------- parsing

  function ParseUintField(s: string): Option<uint64> {
    if IsCanonicalNat(s) && StringToNat(s) < 0x1_0000_0000_0000_0000 then Some(StringToNat(s)) else None
  }

  datatype FieldKey = P | Chain | W | Ch | Tx | Hash | Rp | Rk | Bh | Bn | Cf | Lf

  function Name(key: FieldKey): string {
    match key
    case P => "p" case Chain => "chain" case W => "w" case Ch => "ch" case Tx => "tx" case Hash => "hash"
    case Rp => "rp" case Rk => "rk" case Bh => "bh" case Bn => "bn" case Cf => "cf" case Lf => "lf"
  }

  function KeyNamed(name: string): (key: Option<FieldKey>)
    ensures key.Some? ==> Name(key.value) == name
  {
    if name == "p" then Some(P) else if name == "chain" then Some(Chain) else if name == "w" then Some(W)
    else if name == "ch" then Some(Ch) else if name == "tx" then Some(Tx) else if name == "hash" then Some(Hash)
    else if name == "rp" then Some(Rp) else if name == "rk" then Some(Rk) else if name == "bh" then Some(Bh)
    else if name == "bn" then Some(Bn) else if name == "cf" then Some(Cf) else if name == "lf" then Some(Lf)
    else None
  }

  /** One accepted field assignment, or None where parsing fails closed. */
  function Assign(r: Reference, key: FieldKey, value: string): Option<Reference> {
    match key
    case P => Some(r.(provider := value))
    case Chain => Some(r.(chainID := value))
    case W => Some(r.(walletID := value))
    case Ch => Some(r.(challengeID := value))
    case Tx => Some(r.(providerTransactionID := value))
    case Hash => Some(r.(transactionHash := value))
    case Rp =>
      if value == "0" then Some(r.(obsPresent := false))
      else if value == "1" then Some(r.(obsPresent := true))
      else None
    case Rk => if value == "1" then Some(r.(obsKnown := true)) else None
    case Bh => Some(r.(obsBlockHash := value))
    case Bn =>
      var n := ParseUintField(value);
      if n.None? then None else Some(r.(obsBlockNumber := n.value))
    case Cf =>
      var n := ParseUintField(value);
      if n.None? then None else Some(r.(obsConfirmations := n.value))
    case Lf => Some(r.(obsLogFingerprint := value))
  }

  function AssignNamed(r: Reference, name: string, value: string): Option<Reference> {
    var key := KeyNamed(name);
    if key.None? then None else Assign(r, key.value, value)
  }

  /** Segments applied in order; unknown, repeated, empty and malformed fields are refused. */
  function Fill(segments: seq<string>, r: Reference, seen: set<string>): Option<Reference> {
    if segments == [] then Some(r) else
      var segment := segments[0];
      var cut := IndexOf(segment, '=');
      if cut >= |segment| - 1 || segment[..cut] in seen then None else
        var next := AssignNamed(r, segment[..cut], segment[cut + 1..]);
        if next.None? then None else Fill(segments[1..], next.value, seen + {segment[..cut]})
  }

  function Parse(s: string): Option<Reference> {
    if s == "" || |s| > MAX_REFERENCE_LENGTH then None else
      var segments := Split(s, ';');
      if segments[0] != PREFIX then None else
        var filled := Fill(segments[1..], EMPTY, {});
        if filled.None? || !Valid(Normalised(filled.value)) then None else Some(Normalised(filled.value))
  }

  method ParseReference(s: string) returns (parsed: Option<Reference>)
    ensures parsed == Parse(s)
  {
    if s == "" || |s| > MAX_REFERENCE_LENGTH {
      return None;
    }
    var segments := Split(s, ';');
    if segments[0] != PREFIX {
      return None;
    }
    var reference := EMPTY;
    var seen: set<string> := {};
    var i := 1;
    while i < |segments|
      invariant 1 <= i <= |segments|
      invariant Fill(segments[1..], EMPTY, {}) == Fill(segments[i..], reference, seen)
    {
      var segment := segments[i];
      var cut := IndexOf(segment, '=');
      if cut >= |segment| - 1 || segment[..cut] in seen {
        return None;
      }
      var next := AssignNamed(reference, segment[..cut], segment[cut + 1..]);
      if next.None? {
        return None;
      }
      assert segments[i..][1..] == segments[i + 1..];
      reference, seen, i := next.value, seen + {segment[..cut]}, i + 1;
    }
    reference := Normalised(reference);
    if !Valid(reference) {
      return None;
    }
    return Some(reference);
  }

  // ---------------------------------------------------------------- observation metadata

  function ReceiptObservationOf(r: Reference): ReceiptObservation {
    if !WritesObservation(r) then NO_OBSERVATION
    else ReceiptObservation(
      r.chainID, r.transactionHash, Unknown, r.obsBlockNumber, Normal(r.obsBlockHash), r.obsConfirmations,
      r.obsPresent, true, Normal(r.obsLogFingerprint))
  }

  function WithReceiptObservation(r: Reference, o: ReceiptObservation): Reference {
    var next := r.(
      obsPresent := o.present,
      obsKnown := o.known || o.present || o.blockHash != "" || o.blockNumber != 0 || o.logFingerprint != "",
      obsBlockHash := Normal(o.blockHash),
      obsBlockNumber := o.blockNumber,
      obsConfirmations := o.confirmations,
      obsLogFingerprint := Normal(o.logFingerprint),
      transactionHash := if r.transactionHash == "" && o.transactionHash != ""
                         then Normal(o.transactionHash) else r.transactionHash);
    Normalised(next)
  }

  // ---------------------------------------------------------------- the encoding, field by field

  /** Fields in the order they are written; an empty value stands for an omitted field. */
  datatype Fields = Done | Put(key: FieldKey, value: string, rest: Fields)

  function ObservationFields(r: Reference): Fields {
    var obs := WritesObservation(r);
    Put(Rp, if !obs then "" else if r.obsPresent then "1" else "0",
    Put(Rk, if r.obsKnown || r.obsPresent then "1" else "",
    Put(Bh, Lower(r.obsBlockHash),
    Put(Bn, NatText(r.obsBlockNumber),
    Put(Cf, if obs then NatText(r.obsConfirmations) else "",
    Put(Lf, Lower(r.obsLogFingerprint), Done))))))
  }

  function AllFields(r: Reference): Fields {
    Put(P, r.provider,
    Put(Chain, r.chainID,
    Put(W, r.walletID,
    Put(Ch, r.challengeID,
    Put(Tx, r.providerTransactionID,
    Put(Hash, r.transactionHash, ObservationFields(r)))))))
  }

  function NatText(n: nat): string { if n == 0 then "" else NatToString(n) }

  function Written(fields: Fields): seq<string> {
    match fields
    case Done => []
    case Put(key, value, rest) => Field(Name(key), value) + Written(rest)
  }

  /** Assigning the written fields directly, without going through text. */
  function Applied(fields: Fields, r: Reference): Option<Reference> {
    match fields
    case Done => Some(r)
    case Put(key, value, rest) =>
      if value == "" then Applied(rest, r) else
        var next := Assign(r, key, value);
        if next.None? then None else Applied(rest, next.value)
  }

  /** Free of the separator and of white space. */
  predicate Plain(s: string) { forall i | 0 <= i < |s| :: s[i] != ';' && !IsSpace(s[i]) }

  predicate PlainFields(fields: Fields) {
    fields.Put? ==> Plain(fields.value) && PlainFields(fields.rest)
  }

  function Rank(key: FieldKey): nat {
    match key
    case P => 0 case Chain => 1 case W => 2 case Ch => 3 case Tx => 4 case Hash => 5
    case Rp => 6 case Rk => 7 case Bh => 8 case Bn => 9 case Cf => 10 case Lf => 11
  }

  /** Keys come in rank order from n on, so none is repeated. */
  predicate InOrder(fields: Fields, n: nat) {
    fields.Put? ==> Rank(fields.key) >= n && InOrder(fields.rest, Rank(fields.key) + 1)
  }

  lemma NameFacts(key: FieldKey)
    ensures Plain(Name(key)) && '=' !in Name(key)
    ensures KeyNamed(Name(key)) == Some(key)
  {
  }

  lemma {:induction false} WrittenIsPlain(fields: Fields)
    requires PlainFields(fields)
    ensures forall k | 0 <= k < |Written(fields)| :: Plain(Written(fields)[k])
  {
    if fields.Put? {
      NameFacts(fields.key);
      assert Plain(Name(fields.key) + "=" + fields.value);
      WrittenIsPlain(fields.rest);
    }
  }

  lemma {:induction false} FillApplies(fields: Fields, r: Reference, n: nat, seen: set<string>)
    requires InOrder(fields, n)
    requires forall key: FieldKey | Rank(key) >= n :: Name(key) !in seen
    ensures Fill(Written(fields), r, seen) == Applied(fields, r)
  {
    if fields.Put? {
      var name, value, rest, m := Name(fields.key), fields.value, fields.rest, Rank(fields.key) + 1;
      if value == "" {
        FillApplies(rest, r, m, seen);
        assert Written(fields) == Written(rest);
      } else {
        NameFacts(fields.key);
        IndexOfFirst(name, '=', value);
        var segment := name + "=" + value;
        assert segment == name + ['='] + value;
        assert segment[..|name|] == name && segment[|name| + 1..] == value;
        assert Written(fields)[0] == segment && Written(fields)[1..] == Written(rest);
        var next := Assign(r, fields.key, value);
        if next.Some? {
          forall key: FieldKey | Rank(key) >= m ensures Name(key) !in seen + {name} {
            NameFacts(key);
          }
          FillApplies(rest, next.value, m, seen + {name});
        }
      }
    }
  }

  lemma Regroup(a: seq<string>, b: seq<string>, c: seq<string>, d: seq<string>, e: seq<string>, f: seq<string>)
    ensures a + b + c + d + e + f == a + (b + (c + (d + (e + f))))
  {
  }

  lemma ObservationPartsWritten(r: Reference)
    requires WritesObservation(r)
    ensures [if r.obsPresent then "rp=1" else "rp=0"]
            + (if r.obsKnown || r.obsPresent then ["rk=1"] else [])
            + Field("bh", Lower(r.obsBlockHash)) + NatField("bn", r.obsBlockNumber)
            + NatField("cf", r.obsConfirmations) + Field("lf", Lower(r.obsLogFingerprint))
            == Written(ObservationFields(r))
  {
    hide NatToString, Lower;
    var f := ObservationFields(r);
    var lf := f.rest.rest.rest.rest.rest;
    assert "rp" + "=" + f.value == if r.obsPresent then "rp=1" else "rp=0";
    assert "rk" + "=" + "1" == "rk=1";
    assert Written(lf) == Field("lf", lf.value) + Written(Done) == Field("lf", lf.value);
    assert Written(f.rest.rest.rest.rest) == Field("cf", NatText(r.obsConfirmations)) + Written(lf);
    assert Written(f.rest.rest.rest) == Field("bn", NatText(r.obsBlockNumber)) + Written(f.rest.rest.rest.rest);
    assert Written(f.rest.rest) == Field("bh", Lower(r.obsBlockHash)) + Written(f.rest.rest.rest);
    assert Written(f.rest) == Field("rk", f.rest.value) + Written(f.rest.rest);
    assert Written(f) == Field("rp", f.value) + Written(f.rest);
    assert NatField("bn", r.obsBlockNumber) == Field("bn", NatText(r.obsBlockNumber));
    assert NatField("cf", r.obsConfirmations) == Field("cf", NatText(r.obsConfirmations));
    Regroup(Field("rp", f.value), Field("rk", f.rest.value), Field("bh", Lower(r.obsBlockHash)),
            Field("bn", NatText(r.obsBlockNumber)), Field("cf", NatText(r.obsConfirmations)), Field("lf", lf.value));
  }

  lemma NoObservationWritten(r: Reference)
    requires !WritesObservation(r)
    ensures Written(ObservationFields(r)) == []
  {
    var f := ObservationFields(r);
    var lf := f.rest.rest.rest.rest.rest;
    assert lf.value == "" && Written(lf) == Written(Done) == [];
    assert Written(f.rest.rest.rest.rest) == Written(lf);
    assert Written(f.rest.rest.rest) == Written(f.rest.rest.rest.rest);
    assert Lower(r.obsBlockHash) == "";
    assert Written(f.rest.rest) == Written(f.rest.rest.rest);
    assert Written(f.rest) == Written(f.rest.rest);
  }

  lemma IdentityWritten(r: Reference)
    requires r.provider != "" && r.chainID != ""
    ensures Written(AllFields(r)) == ["p=" + r.provider, "chain=" + r.chainID]
              + (Field("w", r.walletID) + (Field("ch", r.challengeID) + (Field("tx", r.providerTransactionID)
              + (Field("hash", r.transactionHash) + Written(ObservationFields(r))))))
  {
    assert "p" + "=" == "p=" && "chain" + "=" == "chain=";
    var f := AllFields(r);
    var rest := Written(f.rest.rest);
    assert rest == Field("w", r.walletID) + Written(f.rest.rest.rest);
    assert Written(f.rest.rest.rest) == Field("ch", r.challengeID) + Written(f.rest.rest.rest.rest);
    assert Written(f.rest.rest.rest.rest) == Field("tx", r.providerTransactionID) + Written(f.rest.rest.rest.rest.rest);
    assert Written(f.rest) == ["chain=" + r.chainID] + rest;
    assert Written(f) == ["p=" + r.provider] + Written(f.rest);
  }

  lemma RegroupHead(prefix: string, a: string, b: string, tail: seq<string>)
    ensures [prefix, a, b] + tail == [prefix] + ([a, b] + tail)
  {
  }

  lemma PartsWritten(r: Reference)
    requires r.provider != "" && r.chainID != ""
    ensures Parts(r) == [PREFIX] + Written(AllFields(r))
  {
    var obs := Written(ObservationFields(r));
    var w, ch, tx, hash := Field("w", r.walletID), Field("ch", r.challengeID),
      Field("tx", r.providerTransactionID), Field("hash", r.transactionHash);
    assert Parts(r) == [PREFIX, "p=" + r.provider, "chain=" + r.chainID] + w + ch + tx + hash + obs by {
      if WritesObservation(r) { ObservationPartsWritten(r); } else { NoObservationWritten(r); }
    }
    IdentityWritten(r);
    Regroup([PREFIX, "p=" + r.provider, "chain=" + r.chainID], w, ch, tx, hash, obs);
    RegroupHead(PREFIX, "p=" + r.provider, "chain=" + r.chainID, w + (ch + (tx + (hash + obs))));
  }

  lemma HashIsPlain(s: string)
    requires ValidTransactionHash(s)
    ensures Plain(s) && Lower(s) == s
  {
    assert s[0] == s[..2][0] && s[1] == s[..2][1];
    assert forall i | 2 <= i < |s| :: s[i] == s[2..][i - 2];
  }

  /** Values without separators, lower-case where Encode lowers them. */
  predicate Clean(r: Reference) {
    && Plain(r.provider) && Plain(r.chainID) && Plain(r.walletID) && Plain(r.challengeID)
    && Plain(r.providerTransactionID) && Plain(r.transactionHash)
    && Plain(r.obsBlockHash) && Lower(r.obsBlockHash) == r.obsBlockHash
    && Plain(r.obsLogFingerprint) && Lower(r.obsLogFingerprint) == r.obsLogFingerprint
  }

  lemma IdentifierIsPlain(s: string)
    requires forall i | 0 <= i < |s| :: IsIdentifierChar(s[i])
    ensures Plain(s)
  {
  }

  lemma FingerprintIsPlain(s: string)
    requires AllLowerHex(s)
    ensures Plain(s) && Lower(s) == s
  {
  }

  lemma ValidIsClean(r: Reference)
    requires Valid(r)
    ensures Clean(r)
  {
    IdentifierIsPlain(r.chainID);
    IdentifierIsPlain(r.walletID);
    IdentifierIsPlain(r.challengeID);
    IdentifierIsPlain(r.providerTransactionID);
    FingerprintIsPlain(r.obsLogFingerprint);
    if r.transactionHash != "" { HashIsPlain(r.transactionHash); }
    if r.obsBlockHash != "" { HashIsPlain(r.obsBlockHash); } else { assert Lower("") == ""; }
  }

  lemma ObservationFieldsArePlain(r: Reference)
    requires Clean(r)
    ensures PlainFields(ObservationFields(r))
  {
    var f := ObservationFields(r);
    assert PlainFields(f.rest.rest.rest.rest.rest);
    assert Plain(NatText(r.obsBlockNumber)) && Plain(NatText(r.obsConfirmations));
    assert PlainFields(f.rest.rest.rest.rest);
    assert PlainFields(f.rest.rest.rest);
    assert PlainFields(f.rest.rest);
    assert PlainFields(f.rest);
  }

  lemma FieldsArePlain(r: Reference)
    requires Clean(r)
    ensures PlainFields(AllFields(r))
  {
    ObservationFieldsArePlain(r);
    var g := AllFields(r);
    assert PlainFields(g.rest.rest.rest.rest.rest);
    assert PlainFields(g.rest.rest.rest);
    assert PlainFields(g.rest);
  }

  lemma FieldsInOrder(r: Reference)
    ensures InOrder(AllFields(r), 0)
  {
    var f := ObservationFields(r);
    assert InOrder(f.rest.rest.rest.rest, 10);
    assert InOrder(f.rest.rest, 8);
    assert InOrder(f, 6);
    var g := AllFields(r);
    assert InOrder(g.rest.rest.rest.rest, 4);
    assert InOrder(g.rest.rest, 2);
  }

  lemma NatTextParses(n: uint64)
    requires n != 0
    ensures ParseUintField(NatText(n)) == Some(n)
  {
    ParsePrint(n);
  }

  lemma ApplyPut(fields: Fields, r: Reference, next: Reference)
    requires fields.Put?
    requires if fields.value == "" then next == r else Assign(r, fields.key, fields.value) == Some(next)
    ensures Applied(fields, r) == Applied(fields.rest, next)
  {
  }

  lemma ApplyNat(fields: Fields, r: Reference, n: uint64)
    requires fields.Put? && fields.value == NatText(n)
    requires fields.key == Bn ==> r.obsBlockNumber == 0
    requires fields.key == Cf ==> r.obsConfirmations == 0
    ensures fields.key == Bn ==> Applied(fields, r) == Applied(fields.rest, r.(obsBlockNumber := n))
    ensures fields.key == Cf ==> Applied(fields, r) == Applied(fields.rest, r.(obsConfirmations := n))
  {
    if n != 0 {
      NatTextParses(n);
    }
  }

  lemma ObservationReadsBack(r: Reference)
    requires Clean(r)
    requires if WritesObservation(r) then r.obsKnown else r.obsConfirmations == 0
    ensures Applied(ObservationFields(r), r.(obsPresent := false, obsKnown := false, obsBlockHash := "",
              obsBlockNumber := 0, obsConfirmations := 0, obsLogFingerprint := "")) == Some(r)
  {
    hide NatToString, Plain;
    var f := ObservationFields(r);
    var r5 := r.(obsLogFingerprint := "");
    var r4 := r5.(obsConfirmations := 0);
    var r3 := r4.(obsBlockNumber := 0);
    var r2 := r3.(obsBlockHash := "");
    var r1 := r2.(obsKnown := false);
    ApplyPut(f, r1.(obsPresent := false), r1);
    ApplyPut(f.rest, r1, r2);
    ApplyPut(f.rest.rest, r2, r3);
    ApplyNat(f.rest.rest.rest, r3, r.obsBlockNumber);
    if WritesObservation(r) {
      ApplyNat(f.rest.rest.rest.rest, r4, r.obsConfirmations);
    } else {
      ApplyPut(f.rest.rest.rest.rest, r4, r5);
    }
    ApplyPut(f.rest.rest.rest.rest.rest, r5, r);
  }

  lemma FieldsReadBack(r: Reference)
    requires Valid(r)
    ensures Applied(AllFields(r), EMPTY) == Some(r)
  {
    ValidIsClean(r);
    ObservationReadsBack(r);
    var f := AllFields(r);
    var r5 := EMPTY.(provider := r.provider, chainID := r.chainID, walletID := r.walletID,
      challengeID := r.challengeID, providerTransactionID := r.providerTransactionID);
    var r4 := r5.(providerTransactionID := "");
    var r3 := r4.(challengeID := "");
    var r2 := r3.(walletID := "");
    var r1 := r2.(chainID := "");
    ApplyPut(f, EMPTY, r1);
    ApplyPut(f.rest, r1, r2);
    ApplyPut(f.rest.rest, r2, r3);
    ApplyPut(f.rest.rest.rest, r3, r4);
    ApplyPut(f.rest.rest.rest.rest, r4, r5);
    ApplyPut(f.rest.rest.rest.rest.rest, r5, r5.(transactionHash := r.transactionHash));
  }

  lemma NormalisedTwice(r: Reference)
    ensures Normalised(Normalised(r)) == Normalised(r)
  {
    NormalIdempotent(r.obsBlockHash);
    NormalIdempotent(r.obsLogFingerprint);
    assert Normal("") == "";
  }

  /** Whatever Encode writes, ParseReference reads back as the normalised reference. */
  lemma RoundTrip(reference: Reference)
    requires Encode(reference).Some?
    ensures Parse(Encode(reference).value) == Some(Normalised(reference))
    ensures Encode(Normalised(reference)) == Encode(reference)
  {
    var r := Normalised(reference);
    NormalisedTwice(reference);
    PartsWritten(r);
    ValidIsClean(r);
    FieldsArePlain(r);
    WrittenIsPlain(AllFields(r));
    var parts := [PREFIX] + Written(AllFields(r));
    assert forall k | 0 <= k < |parts| :: Plain(parts[k]);
    SplitJoin(parts, ';');
    assert parts[1..] == Written(AllFields(r));
    FieldsInOrder(r);
    FillApplies(AllFields(r), EMPTY, 0, {});
    FieldsReadBack(r);
    assert |Join(parts, ';')| > 0;
  }

  predicate NoSpace(s: string) { forall i | 0 <= i < |s| :: !IsSpace(s[i]) }

  lemma {:induction false} JoinHasNoSpace(parts: seq<string>)
    requires |parts| > 0 && forall k | 0 <= k < |parts| :: Plain(parts[k])
    ensures NoSpace(Join(parts, ';'))
  {
    if |parts| > 1 {
      JoinHasNoSpace(parts[1..]);
    }
  }

  /** An encoded reference survives the trimming applied when results are stored. */
  lemma EncodedIsTrimmed(reference: Reference)
    requires Encode(reference).Some?
    ensures Trim(Encode(reference).value) == Encode(reference).value
  {
    var r := Normalised(reference);
    PartsWritten(r);
    ValidIsClean(r);
    FieldsArePlain(r);
    WrittenIsPlain(AllFields(r));
    var parts := [PREFIX] + Written(AllFields(r));
    assert forall k | 0 <= k < |parts| :: Plain(parts[k]);
    JoinHasNoSpace(parts);
  }

  /** Different normalised references never share an encoding. */
  lemma EncodeIsInjective(a: Reference, b: Reference)
    requires Encode(a).Some? && Encode(a) == Encode(b)
    ensures Normalised(a) == Normalised(b)
  {
    RoundTrip(a);
    RoundTrip(b);
  }

  // ---------------------------------------------------------------- when a reference fits

  function Size(fields: Fields): nat {
    match fields
    case Done => 0
    case Put(key, value, rest) => (if value == "" then 0 else |Name(key)| + |value| + 2) + Size(rest)
  }

  function TotalLength(parts: seq<string>): nat {
    if parts == [] then 0 else |parts[0]| + TotalLength(parts[1..])
  }

  lemma {:induction false} JoinLength(parts: seq<string>)
    requires |parts| > 0
    ensures |Join(parts, ';')| == TotalLength(parts) + |parts| - 1
  {
    if |parts| == 1 {
      assert parts[1..] == [];
    } else {
      JoinLength(parts[1..]);
    }
  }

  lemma {:induction false} WrittenLength(fields: Fields)
    ensures TotalLength(Written(fields)) + |Written(fields)| == Size(fields)
  {
    if fields.Put? {
      WrittenLength(fields.rest);
      if fields.value != "" {
        assert Written(fields)[1..] == Written(fields.rest);
      } else {
        assert Written(fields) == Written(fields.rest);
      }
    }
  }

  /** A valid reference encodes exactly when the sizes of its fields add up to at most 512. */
  lemma EncodesIff(reference: Reference)
    ensures var r := Normalised(reference);
            Encode(reference).Some? <==> Valid(r) && |PREFIX| + Size(AllFields(r)) <= MAX_REFERENCE_LENGTH
  {
    var r := Normalised(reference);
    if Valid(r) {
      PartsWritten(r);
      var parts := [PREFIX] + Written(AllFields(r));
      JoinLength(parts);
      assert parts[1..] == Written(AllFields(r));
      WrittenLength(AllFields(r));
    }
  }

  lemma Uint64Prints(n: uint64)
    ensures |NatText(n)| <= 20
    ensures n == 18_446_744_073_709_551_615 ==> |NatText(n)| == 20
  {
    assert Pow10(19) == 10_000_000_000_000_000_000 by {
      assert Pow10(5) == 100_000;
      assert Pow10(10) == 10_000_000_000;
      assert Pow10(15) == 1_000_000_000_000_000;
    }
    PrintLength(n, 20);
    if n >= Pow10(19) {
      PrintLengthAbove(n, 19);
    }
  }

  lemma {:induction false} PrintLengthAbove(n: nat, k: nat)
    requires n >= Pow10(k)
    ensures |NatToString(n)| > k
  {
    if k > 0 {
      PrintLengthAbove(n / 10, k - 1);
    }
  }

  lemma ObservationSize(r: Reference)
    requires Valid(r)
    ensures Size(ObservationFields(r)) <= 196
    ensures r.obsKnown && r.obsBlockHash != "" && |NatText(r.obsBlockNumber)| == 20
            && |NatText(r.obsConfirmations)| == 20 && r.obsLogFingerprint != ""
            ==> Size(ObservationFields(r)) == 196
  {
    hide NatToString, AllLowerHex, ValidProviderIdentifier, ValidChainID;
    Uint64Prints(r.obsBlockNumber);
    Uint64Prints(r.obsConfirmations);
    var f := ObservationFields(r);
    assert Size(f.rest.rest.rest.rest.rest) == if r.obsLogFingerprint == "" then 0 else 68;
    assert Size(f.rest.rest.rest.rest) <= 24 + Size(f.rest.rest.rest.rest.rest);
    assert Size(f.rest.rest.rest) <= 24 + Size(f.rest.rest.rest.rest);
    assert Size(f.rest.rest) <= 70 + Size(f.rest.rest.rest);
    assert Size(f.rest) <= 5 + Size(f.rest.rest);
    assert Size(f) <= 5 + Size(f.rest);
  }

  /** Everything but the three identifiers takes at most 342 characters. */
  lemma SizeBound(r: Reference)
    requires Valid(r)
    ensures |PREFIX| + Size(AllFields(r)) <= 342 + |r.walletID| + |r.challengeID| + |r.providerTransactionID|
    ensures |r.chainID| == 20 && r.walletID != "" && r.challengeID != "" && r.providerTransactionID != ""
            && r.transactionHash != "" && Size(ObservationFields(r)) == 196
            ==> |PREFIX| + Size(AllFields(r)) == 342 + |r.walletID| + |r.challengeID| + |r.providerTransactionID|
  {
    ObservationSize(r);
    var f := AllFields(r);
    assert |CIRCLE_USER_CONTROLLED| == 29;
    assert Size(f.rest.rest.rest.rest.rest) == (if r.transactionHash == "" then 0 else 72) + Size(ObservationFields(r));
    var tx := r.providerTransactionID;
    assert Size(f.rest.rest.rest.rest) == (if tx == "" then 0 else 4 + |tx|) + Size(f.rest.rest.rest.rest.rest);
    assert Size(f.rest.rest.rest)
      == (if r.challengeID == "" then 0 else 4 + |r.challengeID|) + Size(f.rest.rest.rest.rest);
    assert Size(f.rest.rest) == (if r.walletID == "" then 0 else 3 + |r.walletID|) + Size(f.rest.rest.rest);
    assert Size(f.rest) == 7 + |r.chainID| + Size(f.rest.rest);
    assert Size(f) == 32 + Size(f.rest);
  }

  /** Identifiers of at most 170 characters in all always leave room for every observation. */
  lemma ShortIdentifiersFit(reference: Reference)
    requires Valid(Normalised(reference))
    requires |reference.walletID| + |reference.challengeID| + |reference.providerTransactionID| <= 170
    ensures Encode(reference).Some?
  {
    SizeBound(Normalised(reference));
    EncodesIff(reference);
  }

  /** The bound is tight: one more identifier character can make a valid reference too long. */
  lemma LongIdentifiersOverflow()
    ensures exists r: Reference ::
              && Valid(Normalised(r))
              && |r.walletID| + |r.challengeID| + |r.providerTransactionID| == 171
              && Encode(r).None?
  {
    var digits := seq(64, i => 'a');
    var hash := "0x" + digits;
    assert hash[2..] == digits;
    HashIsPlain(hash);
    var most: uint64 := 18_446_744_073_709_551_615;
    var id := seq(57, i => 'a');
    var r := Reference(CIRCLE_USER_CONTROLLED, seq(20, i => '1'), id, id, id, hash,
                       true, true, hash, most, most, digits);
    assert Lower(digits) == digits;
    assert Trim(hash) == hash && Trim(digits) == digits;
    assert Normalised(r) == r;
    Uint64Prints(most);
    ObservationSize(r);
    SizeBound(r);
    EncodesIff(r);
  }
}
