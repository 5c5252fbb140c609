/** Exact amounts (internal/intents/types.go): a canonical decimal text beside its integer
    base units, and the printer of internal/services/payroll.go and
    internal/policies/evaluator.go. */
module Amounts {
  import opened Text

  const MAX_DECIMALS := 36

  datatype Amount = Amount(decimal: string, baseUnits: string, decimals: nat)

  const NO_AMOUNT := Amount("", "", 0)

  /** big.Int.SetString with base 10: an optional sign before at least one digit. */
  function ParseBig(s: string): Option<int> {
    if s == "" then None
    else if s[0] == '+' || s[0] == '-' then
      var digits := s[1..];
      if digits == "" || !AllDigits(digits) then None
      else Some(if s[0] == '-' then 0 - StringToNat(digits) else StringToNat(digits) as int)
    else if AllDigits(s) then Some(StringToNat(s)) else None
  }

  function Zeros(k: nat): (z: string)
    ensures |z| == k && forall i | 0 <= i < k :: z[i] == '0'
  {
    seq(k, _ => '0')
  }

  predicate CanonicalFraction(fraction: string, decimals: nat) {
    && fraction != "" && |fraction| <= decimals
    && fraction[|fraction| - 1] != '0' && AllDigits(fraction)
  }

  /** decimalToBaseUnits: the text's digits, with the fraction padded to `decimals`. */
  function DecimalToBaseUnits(value: string, decimals: nat): Option<nat> {
    if value == "" || Trim(value) != value || value[0] == '+' || value[0] == '-' then None else
      var parts := Split(value, '.');
      if |parts| > 2 || !IsCanonicalNat(parts[0]) then None
      else if |parts| == 1 then Some(StringToNat(Padded(parts[0], "", decimals)))
      else if !CanonicalFraction(parts[1], decimals) then None
      else Some(StringToNat(Padded(parts[0], parts[1], decimals)))
  }

  function Padded(whole: string, fraction: string, decimals: nat): string
    requires |fraction| <= decimals
  {
    whole + (fraction + Zeros(decimals - |fraction|))
  }

  predicate ValidAmount(a: Amount) {
    && a.decimals <= MAX_DECIMALS
    && DecimalToBaseUnits(a.decimal, a.decimals).Some?
    && a.baseUnits != "" && (|a.baseUnits| > 1 ==> a.baseUnits[0] != '0')
    && ParseBig(a.baseUnits) == Some(DecimalToBaseUnits(a.decimal, a.decimals).value)
  }

  /** BaseInt, and 0 where the source reports an error. */
  function BaseUnits(a: Amount): nat {
    if ValidAmount(a) then DecimalToBaseUnits(a.decimal, a.decimals).value else 0
  }

  predicate IsPositive(a: Amount) { ValidAmount(a) && BaseUnits(a) > 0 }

  function TrimRightZeros(s: string): string {
    if s != "" && s[|s| - 1] == '0' then TrimRightZeros(s[..|s| - 1]) else s
  }

  /** canonicalAmountDecimal. */
  function CanonicalDecimal(value: nat, decimals: nat): string {
    var printed := NatToString(value);
    if decimals == 0 then printed else
      var digits := if |printed| <= decimals then Zeros(decimals - |printed| + 1) + printed else printed;
      var whole, fraction := digits[..|digits| - decimals], TrimRightZeros(digits[|digits| - decimals..]);
      if fraction == "" then whole else whole + "." + fraction
  }

  /** amountFromBaseUnits. */
  function AmountFromBaseUnits(value: nat, decimals: nat): Amount {
    Amount(CanonicalDecimal(value, decimals), NatToString(value), decimals)
  }

  // ---------------------------------------------------------------- digit strings

  lemma {:induction false} LeadingZero(s: string)
    requires AllDigits(s)
    ensures AllDigits("0" + s) && StringToNat("0" + s) == StringToNat(s)
  {
    var t := "0" + s;
    if s == "" {
      assert t[..|t| - 1] == "";
    } else {
      assert t[..|t| - 1] == "0" + s[..|s| - 1];
      LeadingZero(s[..|s| - 1]);
    }
  }

  /** A digit string is the print of its value behind leading zeros. */
  lemma {:induction false} PaddedPrint(s: string)
    requires s != "" && AllDigits(s)
    ensures var printed := NatToString(StringToNat(s));
            |printed| <= |s| && s == Zeros(|s| - |printed|) + printed
  {
    if IsCanonicalNat(s) {
      PrintParse(s);
    } else {
      var rest := s[1..];
      assert s == "0" + rest;
      LeadingZero(rest);
      PaddedPrint(rest);
      var printed := NatToString(StringToNat(s));
      assert "0" + Zeros(|rest| - |printed|) == Zeros(|s| - |printed|);
    }
  }

  lemma {:induction false} ZerosThen(k: nat, s: string)
    requires AllDigits(s)
    ensures AllDigits(Zeros(k) + s) && StringToNat(Zeros(k) + s) == StringToNat(s)
  {
    if k == 0 {
      assert Zeros(0) + s == s;
    } else {
      ZerosThen(k - 1, s);
      LeadingZero(Zeros(k - 1) + s);
      assert Zeros(k) + s == "0" + (Zeros(k - 1) + s);
    }
  }

  lemma {:induction false} TrimmedZeros(s: string)
    ensures var t := TrimRightZeros(s);
            && |t| <= |s| && s == t + Zeros(|s| - |t|)
            && (t != "" ==> t[|t| - 1] != '0')
  {
    if s != "" && s[|s| - 1] == '0' {
      var front := s[..|s| - 1];
      TrimmedZeros(front);
      assert s == front + "0";
    }
  }

  lemma {:induction false} TrimPadding(fraction: string, k: nat)
    requires fraction != "" ==> fraction[|fraction| - 1] != '0'
    ensures TrimRightZeros(fraction + Zeros(k)) == fraction
  {
    var s := fraction + Zeros(k);
    if k == 0 {
      assert s == fraction;
    } else {
      assert s[..|s| - 1] == fraction + Zeros(k - 1);
      TrimPadding(fraction, k - 1);
    }
  }

  // ---------------------------------------------------------------- print and parse

  /** A decimal text by its parts. */
  predicate IsParts(whole: string, fraction: string, decimals: nat) {
    IsCanonicalNat(whole) && (fraction == "" || CanonicalFraction(fraction, decimals))
  }

  function Written(whole: string, fraction: string): string {
    if fraction == "" then whole else whole + "." + fraction
  }

  lemma PaddedIsDigits(whole: string, fraction: string, decimals: nat)
    requires IsParts(whole, fraction, decimals)
    ensures AllDigits(Padded(whole, fraction, decimals))
  {
  }

  lemma SplitWritten(whole: string, fraction: string, decimals: nat)
    requires IsParts(whole, fraction, decimals)
    ensures Split(Written(whole, fraction), '.') == if fraction == "" then [whole] else [whole, fraction]
    ensures Trim(Written(whole, fraction)) == Written(whole, fraction)
  {
    if fraction == "" {
      IndexOfNone(whole, '.');
    } else {
      SplitFirst(whole, '.', fraction);
      IndexOfNone(fraction, '.');
    }
  }

  lemma WrittenParses(whole: string, fraction: string, decimals: nat)
    requires IsParts(whole, fraction, decimals) && AllDigits(Padded(whole, fraction, decimals))
    ensures DecimalToBaseUnits(Written(whole, fraction), decimals) == Some(StringToNat(Padded(whole, fraction,
                                                                                              decimals)))
  {
    SplitWritten(whole, fraction, decimals);
    assert Written(whole, fraction)[0] == whole[0];
  }

  lemma {:induction false} JoinSplit(s: string, sep: char)
    ensures Join(Split(s, sep), sep) == s
    decreases |s|
  {
    var i := IndexOf(s, sep);
    if i < |s| {
      var rest := Split(s[i + 1..], sep);
      JoinSplit(s[i + 1..], sep);
      var parts := [s[..i]] + rest;
      assert Split(s, sep) == parts && parts[1..] == rest && |parts| > 1;
      hide Split, IndexOf;
      assert Join(parts, sep) == s[..i] + [sep] + Join(rest, sep);
      assert s == s[..i] + [sep] + s[i + 1..];
    }
  }

  lemma AcceptedIsWritten(text: string, decimals: nat) returns (whole: string, fraction: string)
    requires DecimalToBaseUnits(text, decimals).Some?
    ensures IsParts(whole, fraction, decimals) && text == Written(whole, fraction)
    ensures AllDigits(Padded(whole, fraction, decimals))
    ensures DecimalToBaseUnits(text, decimals) == Some(StringToNat(Padded(whole, fraction, decimals)))
  {
    var parts := Split(text, '.');
    JoinSplit(text, '.');
    whole, fraction := parts[0], if |parts| == 1 then "" else parts[1];
    PaddedIsDigits(whole, fraction, decimals);
  }

  /** The digits the printer works on: at least one, then exactly `decimals`. */
  function Digits(value: nat, decimals: nat): (digits: string)
    ensures |digits| > decimals
  {
    var printed := NatToString(value);
    if |printed| <= decimals then Zeros(decimals - |printed| + 1) + printed else printed
  }

  lemma DigitsOfCanonical(s: string, decimals: nat)
    requires |s| > decimals && IsCanonicalNat(s)
    ensures Digits(StringToNat(s), decimals) == s
  {
    PrintParse(s);
  }

  lemma DigitsOfFraction(s: string, decimals: nat)
    requires |s| == decimals + 1 && AllDigits(s)
    ensures Digits(StringToNat(s), decimals) == s
  {
    PaddedPrint(s);
    var printed := NatToString(StringToNat(s));
    assert Zeros(0) + printed == printed;
  }

  lemma DigitsOfPadded(whole: string, tail: string)
    requires IsCanonicalNat(whole) && AllDigits(tail) && AllDigits(whole + tail)
    ensures Digits(StringToNat(whole + tail), |tail|) == whole + tail
  {
    if whole[0] == '0' {
      DigitsOfFraction(whole + tail, |tail|);
    } else {
      DigitsOfCanonical(whole + tail, |tail|);
    }
  }

  lemma CanonicalDecimalBy(value: nat, decimals: nat)
    ensures var digits := Digits(value, decimals);
            CanonicalDecimal(value, decimals) ==
            Written(digits[..|digits| - decimals], TrimRightZeros(digits[|digits| - decimals..]))
  {
    if decimals == 0 {
      var digits := Digits(value, 0);
      assert digits[..|digits|] == digits;
    }
  }

  lemma PrintsWritten(whole: string, fraction: string, decimals: nat)
    requires IsParts(whole, fraction, decimals) && AllDigits(Padded(whole, fraction, decimals))
    ensures CanonicalDecimal(StringToNat(Padded(whole, fraction, decimals)), decimals) == Written(whole, fraction)
  {
    var tail := fraction + Zeros(decimals - |fraction|);
    DigitsOfPadded(whole, tail);
    CanonicalDecimalBy(StringToNat(whole + tail), decimals);
    TrimPadding(fraction, decimals - |fraction|);
    assert (whole + tail)[..|whole|] == whole && (whole + tail)[|whole|..] == tail;
  }

  lemma DigitsDenote(value: nat, decimals: nat)
    ensures var digits := Digits(value, decimals);
            && AllDigits(digits) && StringToNat(digits) == value
            && IsCanonicalNat(digits[..|digits| - decimals])
  {
    ParsePrint(value);
    var printed := NatToString(value);
    if |printed| <= decimals {
      ZerosThen(decimals - |printed| + 1, printed);
    }
  }

  lemma FractionOf(tail: string)
    requires AllDigits(tail)
    ensures var fraction := TrimRightZeros(tail);
            && |fraction| <= |tail| && fraction + Zeros(|tail| - |fraction|) == tail
            && (fraction == "" || CanonicalFraction(fraction, |tail|))
  {
    TrimmedZeros(tail);
    var fraction := TrimRightZeros(tail);
    assert fraction == tail[..|fraction|];
  }

  lemma PartsOf(value: nat, decimals: nat) returns (whole: string, fraction: string)
    ensures IsParts(whole, fraction, decimals) && AllDigits(Padded(whole, fraction, decimals))
    ensures StringToNat(Padded(whole, fraction, decimals)) == value
  {
    DigitsDenote(value, decimals);
    var digits := Digits(value, decimals);
    var tail := digits[|digits| - decimals..];
    whole, fraction := digits[..|digits| - decimals], TrimRightZeros(tail);
    FractionOf(tail);
    assert whole + tail == digits;
    assert Padded(whole, fraction, decimals) == digits;
  }

  /** Printing then parsing gives the value back. */
  lemma PrintedParses(value: nat, decimals: nat)
    ensures DecimalToBaseUnits(CanonicalDecimal(value, decimals), decimals) == Some(value)
  {
    var whole, fraction := PartsOf(value, decimals);
    PrintsWritten(whole, fraction, decimals);
    WrittenParses(whole, fraction, decimals);
  }

  /** Every accepted text is exactly the print of its value. */
  lemma ParsedPrints(text: string, decimals: nat)
    requires DecimalToBaseUnits(text, decimals).Some?
    ensures CanonicalDecimal(DecimalToBaseUnits(text, decimals).value, decimals) == text
  {
    var whole, fraction := AcceptedIsWritten(text, decimals);
    PrintsWritten(whole, fraction, decimals);
  }

  lemma PrintedIsBig(value: nat)
    ensures ParseBig(NatToString(value)) == Some(value)
  {
    ParsePrint(value);
    hide NatToString, StringToNat;
  }

  lemma PrintedIsValid(value: nat, decimals: nat)
    requires decimals <= MAX_DECIMALS
    ensures ValidAmount(AmountFromBaseUnits(value, decimals))
    ensures BaseUnits(AmountFromBaseUnits(value, decimals)) == value
  {
    hide DecimalToBaseUnits, CanonicalDecimal, ParseBig, NatToString;
    PrintedParses(value, decimals);
    PrintedIsBig(value);
  }

  /** Which amounts validate: the decimal is the print of a value, and the base units are
      any text of that value without a leading zero. */
  lemma ValidAmountIff(a: Amount)
    ensures ValidAmount(a) <==>
              && a.decimals <= MAX_DECIMALS
              && ParseBig(a.baseUnits).Some? && ParseBig(a.baseUnits).value >= 0
              && (|a.baseUnits| > 1 ==> a.baseUnits[0] != '0')
              && a.decimal == CanonicalDecimal(ParseBig(a.baseUnits).value, a.decimals)
  {
    if ValidAmount(a) {
      ParsedPrints(a.decimal, a.decimals);
    } else if ParseBig(a.baseUnits).Some? && ParseBig(a.baseUnits).value >= 0 {
      PrintedParses(ParseBig(a.baseUnits).value, a.decimals);
    }
  }

  /** So the decimal is unique per value, while the base units are not: a sign is accepted. */
  lemma SignedBaseUnitsValidate(value: nat, decimals: nat)
    requires decimals <= MAX_DECIMALS
    ensures ValidAmount(AmountFromBaseUnits(value, decimals).(baseUnits := "+" + NatToString(value)))
  {
    PrintedParses(value, decimals);
    ParsePrint(value);
    assert ("+" + NatToString(value))[1..] == NatToString(value);
  }
}
