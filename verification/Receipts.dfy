/** Chain receipts as handed to verification (internal/providers/receipt.go and the
    Receipt type of internal/providers/verifier.go), and EVM addresses
    (internal/contracts/address.go). */
module Receipts {
  import opened Text

  type uint64 = n: int | 0 <= n < 0x1_0000_0000_0000_0000

  newtype byte = b: int | 0 <= b < 256

  type Bytes = seq<byte>

  /** Nanoseconds since the start of year 1, Go's zero time. */
  type Time = int

  const MAX_RECEIPT_LOGS := 64
  const MAX_LOG_TOPICS := 4
  const MAX_LOG_DATA_BYTES := 8192

  datatype ReceiptStatus = Unknown | Success | Reverted | ReorgInconsistent | Unrecognised

  datatype ReceiptLog = ReceiptLog(
    address: string, topics: seq<Bytes>, data: Bytes, index: uint64, hasIndex: bool, transactionHash: string)

  datatype Receipt = Receipt(
    status: ReceiptStatus, chainID: string, transactionHash: string,
    blockNumber: uint64, blockHash: string, confirmations: uint64,
    logs: seq<ReceiptLog>,
    hasTransaction: bool, from: string, to: string, value: string, input: Bytes)

  predicate ValidChainID(s: string) {
    s != "" && |s| <= 20 && s[0] != '0' && AllDigits(s)
  }

  predicate IsLowerHex(c: char) { IsDigit(c) || 'a' <= c <= 'f' }

  predicate IsHex(c: char) { IsLowerHex(c) || 'A' <= c <= 'F' }

  predicate AllLowerHex(s: string) { forall i | 0 <= i < |s| :: IsLowerHex(s[i]) }

  predicate ValidTransactionHash(s: string) {
    |s| == 66 && s[..2] == "0x" && AllLowerHex(s[2..])
  }

  /** providers.ValidAddress: only the lower-case 0x prefix. */
  predicate ValidLogAddress(s: string) {
    |s| == 42 && s[..2] == "0x" && forall i | 2 <= i < 42 :: IsHex(s[i])
  }

  /** contracts.ValidAddress: 0x or 0X, then forty hexadecimal digits. */
  predicate ValidAddress(s: string) {
    |s| == 42 && s[0] == '0' && (s[1] == 'x' || s[1] == 'X') && forall i | 2 <= i < 42 :: IsHex(s[i])
  }

  function NormalizeAddress(s: string): string {
    var t := Trim(s);
    if ValidAddress(t) then Lower(t) else t
  }

  predicate AddressesEqual(a: string, b: string) {
    ValidAddress(a) && ValidAddress(b) && NormalizeAddress(a) == NormalizeAddress(b)
  }

  predicate ValidLog(log: ReceiptLog) {
    && ValidLogAddress(log.address)
    && |log.topics| <= MAX_LOG_TOPICS
    && (forall i | 0 <= i < |log.topics| :: |log.topics[i]| == 32)
    && |log.data| <= MAX_LOG_DATA_BYTES
    && (log.transactionHash != "" ==> ValidTransactionHash(log.transactionHash))
  }

  predicate ValidLogs(logs: seq<ReceiptLog>) {
    && |logs| <= MAX_RECEIPT_LOGS
    && forall i | 0 <= i < |logs| :: ValidLog(logs[i])
  }

  predicate ValidReasonCode(s: string) {
    && 2 <= |s| <= 64
    && 'A' <= s[0] <= 'Z'
    && forall i | 1 <= i < |s| :: 'A' <= s[i] <= 'Z' || IsDigit(s[i]) || s[i] == '_'
  }
}
