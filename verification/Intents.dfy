/** Financial parameters of PAYROLL and SWAP intents (internal/intents/payroll_params.go,
    internal/intents/swap_params.go, internal/intents/types.go). */
module Intents {
  import opened Text
  import opened Receipts
  import opened Amounts

  // internal/contracts/resources.go and internal/contracts/deployment.go
  const ARC_MAINNET := "5042"
  const USDC := "0x3600000000000000000000000000000000000000"
  const EURC := "0xbEf5f6d51CB62b58e6A8f77868681825C6fe21c1"
  const PAYROLL_CONTRACT := "0x77AC7Cb6507D404b5530fC03e3D39BAaEdE10C34"
  const SWAP_CONTRACT := "0x7A051F17B237750EF9D4E63fb75381B9F8755774"
  const ROUTER := "0x4fca4a51ab4f23a7447b3284fbd7d73289a89fb1"
  const ZERO_ADDRESS := "0x0000000000000000000000000000000000000000"
  const TOKEN_DECIMALS := 6
  const MAX_FEE_BPS := 100
  const BPS := 10_000

  /** Native value per base unit of a six-decimal token. */
  const NATIVE_SCALE := 1_000_000_000_000

  const MAX_TEXT := 256
  const MAX_RECIPIENTS := 50
  const MAX_REFERENCE_ID := 64
  const PHASE12 := 1
  const UINT128_LIMIT := 0x1_0000_0000_0000_0000_0000_0000_0000_0000
  const SECOND: Time := 1_000_000_000
  const CONTRACT_WINDOW: Time := 1200 * SECOND

  predicate ValidText(s: string) { IsBoundedText(s, MAX_TEXT) }

  predicate NonZeroAddress(s: string) { ValidAddress(s) && NormalizeAddress(s) != ZERO_ADDRESS }

  datatype Token = Token(chainID: string, standard: string, address: string, symbol: string, decimals: nat)

  const NO_TOKEN := Token("", "", "", "", 0)

  predicate ValidToken(t: Token) {
    && ValidChainID(t.chainID) && ValidText(t.standard) && ValidText(t.address) && ValidText(t.symbol)
    && t.decimals <= MAX_DECIMALS
  }

  predicate ValidPhase12Token(t: Token) { ValidToken(t) && NonZeroAddress(t.address) }

  predicate CanonicalPayrollToken(t: Token) {
    && t.chainID == ARC_MAINNET && t.standard == "ERC20" && t.decimals == TOKEN_DECIMALS
    && ((t.symbol == "USDC" && AddressesEqual(t.address, USDC)) || (t.symbol == "EURC" && AddressesEqual(t.address,
                                                                                                         EURC)))
  }

  predicate SamePayrollToken(a: Token, b: Token) {
    && CanonicalPayrollToken(a) && CanonicalPayrollToken(b)
    && a.symbol == b.symbol && AddressesEqual(a.address, b.address)
  }

  // ---------------------------------------------------------------- payroll

  datatype Variant = NoVariant | Single | BatchSingleTokenOut | BatchMultiTokenOut | UnknownVariant

  datatype Recipient = Recipient(
    address: string, amount: Amount, tokenOut: Token, amountIn: Amount, minAmountOut: Amount)

  datatype CrossToken = CrossToken(grossInput: Amount, minTotalOut: Amount, minHopPriceX36: string, deadline: Time)

  datatype Payroll = Payroll(
    schemaVersion: nat, variant: Variant, tokenIn: Token, token: Token, recipients: seq<Recipient>,
    total: Amount, referenceID: string, crossToken: Option<CrossToken>)

  predicate ValidReferenceID(s: string) { ValidText(s) && ByteLength(s) <= MAX_REFERENCE_ID }

  /** No two lines pay the same address, whatever its letter case. */
  predicate DistinctRecipients(rs: seq<Recipient>) { DistinctKeys(rs, Payee) }

  function Payee(r: Recipient): string { NormalizeAddress(r.address) }

  function UnitsIn(r: Recipient): nat { BaseUnits(r.amountIn) }

  function UnitsOut(r: Recipient): nat { BaseUnits(r.minAmountOut) }

  function Sum(rs: seq<Recipient>, units: Recipient -> nat): nat {
    if rs == [] then 0 else Sum(rs[..|rs| - 1], units) + units(rs[|rs| - 1])
  }

  function SumIn(rs: seq<Recipient>): nat { Sum(rs, UnitsIn) }

  function SumOut(rs: seq<Recipient>): nat { Sum(rs, UnitsOut) }

  /** Every line passes, and agrees with the first one on its output token. */
  predicate Passes(rs: seq<Recipient>, line: Recipient -> bool, alike: (Recipient, Recipient) -> bool) {
    && (forall i | 0 <= i < |rs| :: line(rs[i]))
    && (forall i | 0 < i < |rs| :: alike(rs[0], rs[i]))
  }

  predicate DistinctKeys(rs: seq<Recipient>, key: Recipient -> string) {
    forall i, j | 0 <= i < j < |rs| :: key(rs[i]) != key(rs[j])
  }

  /** The recipient loop of both validators: one pass with a set of seen addresses and a
      running total. */
  method ScanLines(
    rs: seq<Recipient>, line: Recipient -> bool, alike: (Recipient, Recipient) -> bool,
    key: Recipient -> string, units: Recipient -> nat
  ) returns (ok: bool, total: nat)
    ensures ok <==> Passes(rs, line, alike) && DistinctKeys(rs, key)
    ensures ok ==> total == Sum(rs, units)
  {
    total := 0;
    var seen: set<string> := {};
    var i := 0;
    while i < |rs|
      invariant i <= |rs|
      invariant Passes(rs[..i], line, alike)
      invariant DistinctKeys(rs[..i], key)
      invariant forall k | 0 <= k < i :: key(rs[k]) in seen
      invariant forall s | s in seen :: exists k | 0 <= k < i :: key(rs[k]) == s
      invariant total == Sum(rs[..i], units)
    {
      var recipient := rs[i];
      if key(recipient) in seen {
        return false, total;
      }
      seen := seen + {key(recipient)};
      if !line(recipient) || (i > 0 && !alike(rs[0], recipient)) {
        return false, total;
      }
      total := total + units(recipient);
      assert rs[..i + 1][..i] == rs[..i];
      i := i + 1;
    }
    assert rs[..i] == rs;
    return true, total;
  }

  predicate ValidLine(tokenIn: Token, r: Recipient) {
    && NonZeroAddress(r.address)
    && ValidPhase12Token(r.tokenOut) && r.tokenOut.chainID == tokenIn.chainID
    && IsPositive(r.amountIn) && r.amountIn.decimals == tokenIn.decimals
    && IsPositive(r.minAmountOut) && r.minAmountOut.decimals == r.tokenOut.decimals
    && r.amount == NO_AMOUNT
  }

  /** The checks before the recipient loop. */
  predicate ValidHead(p: Payroll) {
    && p.schemaVersion == PHASE12
    && (p.variant == Single || p.variant == BatchSingleTokenOut || p.variant == BatchMultiTokenOut)
    && ValidPhase12Token(p.tokenIn)
    && 0 < |p.recipients| <= MAX_RECIPIENTS
    && (p.variant == Single ==> |p.recipients| == 1)
    && ((p.variant == Single && p.referenceID == "") || ValidReferenceID(p.referenceID))
  }

  /** The checks after it. */
  predicate ValidTotals(p: Payroll, total: nat) {
    && IsPositive(p.total) && p.total.decimals == p.tokenIn.decimals
    && p.total.baseUnits == NatToString(total)
    && (p.token != NO_TOKEN ==>
          && ValidToken(p.token)
          && AddressesEqual(p.token.address, p.tokenIn.address) && p.token.chainID == p.tokenIn.chainID
          && p.token.decimals == p.tokenIn.decimals && p.token.standard == p.tokenIn.standard)
  }

  predicate AlikeIn(variant: Variant, a: Recipient, b: Recipient) {
    variant == BatchSingleTokenOut ==> NormalizeAddress(b.tokenOut.address) == NormalizeAddress(a.tokenOut.address)
  }

  predicate ValidPhase12(p: Payroll) {
    && ValidHead(p)
    && Passes(p.recipients, r => ValidLine(p.tokenIn, r), (a, b) => AlikeIn(p.variant, a, b))
    && DistinctRecipients(p.recipients)
    && ValidTotals(p, SumIn(p.recipients))
  }

  method ValidatePhase12(p: Payroll) returns (ok: bool)
    ensures ok <==> ValidPhase12(p)
  {
    if !ValidHead(p) {
      return false;
    }
    var scanned, total := ScanLines(
      p.recipients, r => ValidLine(p.tokenIn, r), (a, b) => AlikeIn(p.variant, a, b),
      Payee, UnitsIn);
    return scanned && ValidTotals(p, total);
  }

  predicate ExactLine(tokenIn: Token, r: Recipient) {
    SamePayrollToken(tokenIn, r.tokenOut) && r.amountIn == r.minAmountOut
  }

  predicate SameTokenShape(p: Payroll) {
    && ValidReferenceID(p.referenceID)
    && (p.variant == Single || p.variant == BatchSingleTokenOut)
    && CanonicalPayrollToken(p.tokenIn)
  }

  predicate ValidSameToken(p: Payroll) {
    && p.crossToken.None?
    && ValidPhase12(p)
    && SameTokenShape(p)
    && ExactLines(p.tokenIn, p.recipients)
  }

  predicate ExactLines(tokenIn: Token, rs: seq<Recipient>) {
    forall i | 0 <= i < |rs| :: ExactLine(tokenIn, rs[i])
  }

  method ValidateSameToken(p: Payroll) returns (ok: bool)
    ensures ok <==> ValidSameToken(p)
  {
    if p.crossToken.Some? {
      return false;
    }
    var shaped := ValidatePhase12(p);
    if !shaped || !SameTokenShape(p) {
      return false;
    }
    ok := AreExact(p.tokenIn, p.recipients);
  }

  method AreExact(tokenIn: Token, rs: seq<Recipient>) returns (ok: bool)
    ensures ok <==> ExactLines(tokenIn, rs)
  {
    ok := AllLines(rs, r => ExactLine(tokenIn, r));
  }

  method AllLines(rs: seq<Recipient>, line: Recipient -> bool) returns (ok: bool)
    ensures ok <==> forall i | 0 <= i < |rs| :: line(rs[i])
  {
    for i := 0 to |rs|
      invariant forall k | 0 <= k < i :: line(rs[k])
    {
      if !line(rs[i]) {
        return false;
      }
    }
    return true;
  }

  predicate PositiveUint128(a: Amount, decimals: nat) {
    IsPositive(a) && a.decimals == decimals && BaseUnits(a) < UINT128_LIMIT
  }

  predicate ValidPrice(s: string) {
    && ParseBig(s).Some? && 0 < ParseBig(s).value < UINT128_LIMIT
    && (|s| > 1 ==> s[0] != '0')
  }

  /** Seconds from the start of year 1, Go's zero time, to the Unix epoch. */
  const UNIX_EPOCH := 62_135_596_800

  function UnixSeconds(t: Time): int { t / SECOND - UNIX_EPOCH }

  predicate ValidObligation(tokenIn: Token, employer: string, r: Recipient) {
    && NonZeroAddress(r.address)
    && !AddressesEqual(r.address, PAYROLL_CONTRACT)
    && !(employer != "" && AddressesEqual(r.address, employer))
    && CanonicalPayrollToken(r.tokenOut) && !SamePayrollToken(tokenIn, r.tokenOut)
    && r.amountIn == NO_AMOUNT && r.amount == NO_AMOUNT
    && PositiveUint128(r.minAmountOut, r.tokenOut.decimals)
  }

  predicate ValidCrossHead(p: Payroll) {
    && p.crossToken.Some?
    && p.schemaVersion == PHASE12
    && (p.variant == Single || p.variant == BatchSingleTokenOut)
    && CanonicalPayrollToken(p.tokenIn)
    && 0 < |p.recipients| <= MAX_RECIPIENTS
    && (p.variant == Single ==> |p.recipients| == 1)
    && ValidReferenceID(p.referenceID)
  }

  /** After creation and at most twenty minutes later, no later than the constraint deadline
      and the expiry; a bound that is not given does not bind. */
  predicate WithinTimeline(deadline: Time, createdAt: Time, constraintDeadline: Time, expiresAt: Time) {
    && (createdAt == 0 || 0 < deadline - createdAt <= 20 * 60 * SECOND)
    && (constraintDeadline == 0 || deadline <= constraintDeadline) && (expiresAt == 0 || deadline <= expiresAt)
  }

  method CheckTimeline(deadline: Time, createdAt: Time, constraintDeadline: Time, expiresAt: Time) returns (ok: bool)
    ensures ok <==> WithinTimeline(deadline, createdAt, constraintDeadline, expiresAt)
  {
    if createdAt != 0 {
      if deadline <= createdAt {
        return false;
      }
      if deadline > createdAt + CONTRACT_WINDOW {
        return false;
      }
    }
    if constraintDeadline != 0 && deadline > constraintDeadline {
      return false;
    }
    if expiresAt != 0 && deadline > expiresAt {
      return false;
    }
    return true;
  }

  predicate ValidCrossTail(p: Payroll, obligations: nat)
    requires p.crossToken.Some? && |p.recipients| > 0
  {
    var c, tokenOut := p.crossToken.value, p.recipients[0].tokenOut;
    && IsPositive(p.total) && p.total.decimals == tokenOut.decimals && p.total.baseUnits == NatToString(obligations)
    && PositiveUint128(c.grossInput, p.tokenIn.decimals)
    && PositiveUint128(c.minTotalOut, tokenOut.decimals)
    && BaseUnits(c.minTotalOut) >= obligations
    && ValidPrice(c.minHopPriceX36)
    && c.deadline != 0 && UnixSeconds(c.deadline) > 0
    && p.token == NO_TOKEN
  }

  predicate ValidCrossTimeline(
    p: Payroll, createdAt: Time, constraintDeadline: Time, expiresAt: Time, employer: string)
  {
    && ValidCrossHead(p)
    && Passes(p.recipients, r => ValidObligation(p.tokenIn, employer, r), SameTokenOut)
    && DistinctRecipients(p.recipients)
    && ValidCrossTail(p, SumOut(p.recipients))
    && WithinTimeline(p.crossToken.value.deadline, createdAt, constraintDeadline, expiresAt)
  }

  predicate SameTokenOut(a: Recipient, b: Recipient) { SamePayrollToken(a.tokenOut, b.tokenOut) }

  predicate ValidCrossToken(p: Payroll) { ValidCrossTimeline(p, 0, 0, 0, "") }

  method ValidateCrossTokenTimeline(
    p: Payroll, createdAt: Time, constraintDeadline: Time, expiresAt: Time, employer: string
  ) returns (ok: bool)
    ensures ok <==> ValidCrossTimeline(p, createdAt, constraintDeadline, expiresAt, employer)
  {
    if !ValidCrossHead(p) {
      return false;
    }
    var scanned, obligations := ScanLines(
      p.recipients, r => ValidObligation(p.tokenIn, employer, r), SameTokenOut,
      Payee, UnitsOut);
    if !scanned || !ValidCrossTail(p, obligations) {
      return false;
    }
    ok := CheckTimeline(p.crossToken.value.deadline, createdAt, constraintDeadline, expiresAt);
  }

  /** The total of a validated payroll is the exact sum of its lines. */
  lemma SameTokenTotal(p: Payroll)
    requires ValidPhase12(p)
    ensures BaseUnits(p.total) == SumIn(p.recipients)
  {
    ParsePrint(SumIn(p.recipients));
  }

  lemma CrossTokenTotal(p: Payroll, createdAt: Time, constraintDeadline: Time, expiresAt: Time, employer: string)
    requires ValidCrossTimeline(p, createdAt, constraintDeadline, expiresAt, employer)
    ensures BaseUnits(p.total) == SumOut(p.recipients) <= BaseUnits(p.crossToken.value.minTotalOut)
  {
    ParsePrint(SumOut(p.recipients));
  }

  /** No payroll is executable both ways. */
  lemma VariantsExclude(p: Payroll)
    ensures !(ValidSameToken(p) && ValidCrossToken(p))
  {
  }

  // ---------------------------------------------------------------- swap

  datatype Quote = Quote(
    quoteID: string, source: string, expectedAmountOut: Amount, minAmountOut: Amount, router: string,
    expiresAt: Time, evidenceReference: string)

  datatype Swap = Swap(
    schemaVersion: nat, inputToken: Token, outputToken: Token, inputAmount: Amount, expectedOutput: Amount,
    minimumOutput: Amount, quoteReference: string, maxSlippageBPS: nat, minHopPriceX36: string,
    router: string, recipient: string, quote: Option<Quote>, deadline: Time)

  /** minimumOutputCeiling. */
  function MinimumOutputCeiling(expected: nat, bps: nat): nat
    requires bps <= BPS
  {
    (expected * (BPS - bps) + (BPS - 1)) / BPS
  }

  predicate CanonicalSwapToken(t: Token) {
    && t.chainID == ARC_MAINNET && t.standard == "ERC20" && t.decimals == TOKEN_DECIMALS
    && (if AddressesEqual(t.address, USDC) then t.symbol == "USDC"
        else AddressesEqual(t.address, EURC) && t.symbol == "EURC")
  }

  predicate ValidQuote(q: Quote, decimals: nat) {
    && ValidText(q.quoteID) && ValidText(q.source) && ValidText(q.evidenceReference)
    && NonZeroAddress(q.router) && q.expiresAt != 0
    && IsPositive(q.expectedAmountOut) && q.expectedAmountOut.decimals == decimals
    && IsPositive(q.minAmountOut) && q.minAmountOut.decimals == decimals
    && BaseUnits(q.minAmountOut) <= BaseUnits(q.expectedAmountOut)
  }

  predicate ValidSwapTokens(p: Swap) {
    && ValidPhase12Token(p.inputToken) && ValidPhase12Token(p.outputToken)
    && p.inputToken.chainID == p.outputToken.chainID
    && !AddressesEqual(p.inputToken.address, p.outputToken.address)
    && CanonicalSwapToken(p.inputToken) && CanonicalSwapToken(p.outputToken)
    && ((AddressesEqual(p.inputToken.address, USDC) && AddressesEqual(p.outputToken.address, EURC))
        || (AddressesEqual(p.inputToken.address, EURC) && AddressesEqual(p.outputToken.address, USDC)))
  }

  predicate ValidSwapAmounts(p: Swap) {
    && IsPositive(p.inputAmount) && p.inputAmount.decimals == p.inputToken.decimals
    && IsPositive(p.expectedOutput) && p.expectedOutput.decimals == p.outputToken.decimals
    && IsPositive(p.minimumOutput) && p.minimumOutput.decimals == p.outputToken.decimals
    && p.maxSlippageBPS <= BPS
    && ValidPrice(p.minHopPriceX36)
    && MinimumOutputCeiling(BaseUnits(p.expectedOutput), p.maxSlippageBPS)
         <= BaseUnits(p.minimumOutput) <= BaseUnits(p.expectedOutput)
  }

  predicate ValidSwap(p: Swap, createdAt: Time, constraintDeadline: Time, expiresAt: Time) {
    && p.schemaVersion == PHASE12
    && ValidSwapTokens(p) && ValidSwapAmounts(p)
    && NonZeroAddress(p.router) && AddressesEqual(p.router, ROUTER) && NonZeroAddress(p.recipient)
    && p.quote.Some? && ValidQuote(p.quote.value, p.outputToken.decimals)
    && AddressesEqual(p.quote.value.router, p.router)
    && p.quote.value.expectedAmountOut == p.expectedOutput && p.quote.value.minAmountOut == p.minimumOutput
    && (p.quoteReference != "" ==> p.quoteReference == p.quote.value.quoteID)
    && p.deadline != 0
    && (createdAt != 0 ==> createdAt < p.quote.value.expiresAt)
    && p.deadline <= p.quote.value.expiresAt
    && WithinTimeline(p.deadline, createdAt, constraintDeadline, expiresAt)
  }

  /** The ceiling is the least amount within the slippage bound, and never above the
      expected output. */
  lemma CeilingIsLeast(expected: nat, bps: nat, m: nat)
    requires bps <= BPS
    ensures BPS * m >= expected * (BPS - bps) <==> m >= MinimumOutputCeiling(expected, bps)
    ensures MinimumOutputCeiling(expected, bps) <= expected
  {
    var n := expected * (BPS - bps);
    CeilingDivision(n, m);
    assert n <= BPS * expected;
    CeilingDivision(n, expected);
  }

  lemma CeilingDivision(n: nat, m: nat)
    ensures BPS * m >= n <==> m >= (n + (BPS - 1)) / BPS
  {
  }
}
