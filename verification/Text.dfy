/** Text shared by the codecs and validators: decimal digits, Go white space and
    control characters, separators, trimming and ASCII case. */
module Text {

  datatype Option<+T> = None | Some(value: T)

  // ---------------------------------------------------------------- decimal digits

  predicate IsDigit(c: char) { '0' <= c <= '9' }

  predicate AllDigits(s: string) { forall i | 0 <= i < |s| :: IsDigit(s[i]) }

  /** Digits without a redundant leading zero. */
  predicate IsCanonicalNat(s: string) {
    s != "" && AllDigits(s) && (s[0] == '0' ==> |s| == 1)
  }

  function DigitValue(c: char): nat
    requires IsDigit(c)
  {
    c as int - '0' as int
  }

  function DigitChar(d: nat): (c: char)
    requires d < 10
    ensures IsDigit(c) && DigitValue(c) == d
  {
    (d + '0' as int) as char
  }

  function HexDigit(n: nat): (c: char)
    requires n < 16
    ensures c != '"'
  {
    "0123456789abcdef"[n]
  }

  function NatToString(n: nat): (s: string)
    ensures IsCanonicalNat(s)
    ensures n > 0 ==> s[0] != '0'
  {
    if n < 10 then [DigitChar(n)] else NatToString(n / 10) + [DigitChar(n % 10)]
  }

  function StringToNat(s: string): nat
    requires AllDigits(s)
  {
    if s == "" then 0 else StringToNat(s[..|s| - 1]) * 10 + DigitValue(s[|s| - 1])
  }

  lemma {:induction false} ParsePrint(n: nat)
    ensures StringToNat(NatToString(n)) == n
  {
    if n >= 10 {
      var s := NatToString(n);
      assert s[..|s| - 1] == NatToString(n / 10);
      ParsePrint(n / 10);
    } else {
      assert NatToString(n)[..0] == "";
    }
  }

  lemma {:induction false} CanonicalIsPositive(s: string)
    requires IsCanonicalNat(s) && s[0] != '0'
    ensures StringToNat(s) > 0
  {
    if |s| == 1 {
      assert s[..0] == "";
    } else {
      CanonicalIsPositive(s[..|s| - 1]);
    }
  }

  lemma {:induction false} PrintParse(s: string)
    requires IsCanonicalNat(s)
    ensures NatToString(StringToNat(s)) == s
  {
    if |s| == 1 {
      assert s[..0] == "";
      assert s == [s[0]];
    } else {
      var front := s[..|s| - 1];
      PrintParse(front);
      CanonicalIsPositive(front);
      assert StringToNat(s) / 10 == StringToNat(front);
      assert front + [s[|s| - 1]] == s;
    }
  }

  function Pow10(k: nat): (p: nat)
    ensures p > 0
  {
    if k == 0 then 1 else 10 * Pow10(k - 1)
  }

  lemma {:induction false} PrintLength(n: nat, k: nat)
    requires n < Pow10(k) && k > 0
    ensures |NatToString(n)| <= k
  {
    if n >= 10 {
      PrintLength(n / 10, k - 1);
    }
  }

  // ---------------------------------------------------------------- separators

  function IndexOf(s: string, c: char): (i: nat)
    ensures i <= |s|
    ensures c !in s[..i]
    ensures i < |s| ==> s[i] == c
  {
    if s == "" || s[0] == c then 0 else
      var j := IndexOf(s[1..], c);
      assert s[..1 + j] == [s[0]] + s[1..][..j];
      1 + j
  }

  function Split(s: string, sep: char): (parts: seq<string>)
    ensures |parts| > 0
  {
    var i := IndexOf(s, sep);
    if i == |s| then [s] else [s[..i]] + Split(s[i + 1..], sep)
  }

  function Join(parts: seq<string>, sep: char): string
    requires |parts| > 0
  {
    if |parts| == 1 then parts[0] else parts[0] + [sep] + Join(parts[1..], sep)
  }

  lemma {:induction false} IndexOfFirst(front: string, c: char, rest: string)
    requires c !in front
    ensures IndexOf(front + [c] + rest, c) == |front|
  {
    if front != "" {
      assert (front + [c] + rest)[1..] == front[1..] + [c] + rest;
      IndexOfFirst(front[1..], c, rest);
    }
  }

  lemma {:induction false} IndexOfNone(s: string, c: char)
    requires c !in s
    ensures IndexOf(s, c) == |s|
  {
    if s != "" {
      IndexOfNone(s[1..], c);
    }
  }

  lemma {:induction false} SplitJoin(parts: seq<string>, sep: char)
    requires |parts| > 0
    requires forall i | 0 <= i < |parts| :: sep !in parts[i]
    ensures Split(Join(parts, sep), sep) == parts
  {
    if |parts| == 1 {
      IndexOfNone(parts[0], sep);
      assert parts == [parts[0]];
    } else {
      var head, rest := parts[0], Join(parts[1..], sep);
      SplitFirst(head, sep, rest);
      SplitJoin(parts[1..], sep);
      assert parts == [head] + parts[1..];
    }
  }

  lemma SplitFirst(head: string, sep: char, rest: string)
    requires sep !in head
    ensures Split(head + [sep] + rest, sep) == [head] + Split(rest, sep)
  {
    var s := head + [sep] + rest;
    IndexOfFirst(head, sep, rest);
    assert s[..|head|] == head && s[|head| + 1..] == rest;
  }

  // ---------------------------------------------------------------- trimming and case

  /** Code points with the Unicode White_Space property, as trimmed by Go. */
  predicate IsSpace(c: char) {
    var k := c as int;
    || 0x09 <= k <= 0x0d || k == 0x20 || k == 0x85 || k == 0xa0 || k == 0x1680
    || 0x2000 <= k <= 0x200a || k == 0x2028 || k == 0x2029 || k == 0x202f || k == 0x205f || k == 0x3000
  }

  predicate IsControl(c: char) {
    var k := c as int;
    k < 0x20 || 0x7f <= k <= 0x9f
  }

  function Trim(s: string): (t: string)
    ensures t == "" || (!IsSpace(t[0]) && !IsSpace(t[|t| - 1]))
    ensures s == "" || (!IsSpace(s[0]) && !IsSpace(s[|s| - 1])) ==> t == s
    decreases |s|
  {
    if s == "" then ""
    else if IsSpace(s[0]) then Trim(s[1..])
    else if IsSpace(s[|s| - 1]) then Trim(s[..|s| - 1])
    else s
  }

  function LowerChar(c: char): (d: char)
  {
    if 'A' <= c <= 'Z' then (c as int + 32) as char else c
  }

  function Lower(s: string): (t: string)
    ensures |t| == |s|
    ensures forall i | 0 <= i < |s| :: t[i] == LowerChar(s[i])
  {
    seq(|s|, i requires 0 <= i < |s| => LowerChar(s[i]))
  }

  /** Bytes Go's len counts: the UTF-8 length of the text. */
  function ByteLength(s: string): nat {
    if s == "" then 0 else
      var k := s[0] as int;
      (if k < 0x80 then 1 else if k < 0x800 then 2 else if k < 0x10000 then 3 else 4) + ByteLength(s[1..])
  }

  /** Non-empty, untrimmed-equal-trimmed, bounded, free of control characters. */
  predicate IsBoundedText(s: string, max: nat) {
    && s != ""
    && Trim(s) == s
    && ByteLength(s) <= max
    && forall i | 0 <= i < |s| :: !IsControl(s[i])
  }

  /** What a collision-free hash is. */
  ghost predicate Injective(f: string -> string) { forall a, b :: f(a) == f(b) ==> a == b }
}
