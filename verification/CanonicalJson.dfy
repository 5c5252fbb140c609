/** Canonical JSON of frozen intents (internal/intents/canonical.go): the subset of RFC 8785
    with null, booleans, integers, strings, arrays and name-sorted records. */
module CanonicalJson {
  import opened Text
  import opened Ordering

  datatype Value
    = Null
    | Bool(flag: bool)
    | Int(number: int)
    | Str(text: string)
    | Arr(items: seq<Value>)
    | Obj(fields: seq<Field>)
    | Unsupported

  datatype Field = Field(name: string, value: Value)

  function NameOf(f: Field): string { f.name }

  // ---------------------------------------------------------------- rendering

  /** One character inside a string literal, as section 3.2.2.2 of RFC 8785 writes it. */
  function EscapeChar(c: char): string {
    if c == '"' || c == '\\' then ['\\', c]
    else if c as int == 0x08 then "\\b"
    else if c as int == 0x09 then "\\t"
    else if c as int == 0x0a then "\\n"
    else if c as int == 0x0c then "\\f"
    else if c as int == 0x0d then "\\r"
    else if c as int < 0x20 then ['\\', 'u', '0', '0', HexDigit(c as int / 16), HexDigit(c as int % 16)]
    else [c]
  }

  function Escape(s: string): string {
    if s == "" then "" else EscapeChar(s[0]) + Escape(s[1..])
  }

  function Quoted(s: string): string { ['"'] + Escape(s) + ['"'] }

  function IntText(n: int): string { if n < 0 then "-" + NatToString(-n) else NatToString(n) }

  predicate Supported(v: Value) {
    match v
    case Unsupported => false
    case Arr(items) => forall i | 0 <= i < |items| :: Supported(items[i])
    case Obj(fields) => forall i | 0 <= i < |fields| :: Supported(fields[i].value)
    case _ => true
  }

  function Render(v: Value): string
    decreases v, 0
  {
    match v
    case Null => "null"
    case Bool(flag) => if flag then "true" else "false"
    case Int(n) => IntText(n)
    case Str(s) => Quoted(s)
    case Arr(items) => "[" + RenderItems(items) + "]"
    case Obj(fields) => "{" + RenderFields(fields) + "}"
    case Unsupported => ""
  }

  function RenderItems(items: seq<Value>): string
    decreases items, 0
  {
    if items == [] then ""
    else if |items| == 1 then Render(items[0])
    else Render(items[0]) + "," + RenderItems(items[1..])
  }

  function RenderField(f: Field): string
    decreases f, 0
  {
    Quoted(f.name) + ":" + Render(f.value)
  }

  function RenderFields(fields: seq<Field>): string
    decreases fields, 0
  {
    if fields == [] then ""
    else if |fields| == 1 then RenderField(fields[0])
    else RenderField(fields[0]) + "," + RenderFields(fields[1..])
  }

  // ---------------------------------------------------------------- key order

  /** The tree with the fields of every record sorted by name. */
  function Canon(v: Value): Value
    decreases v, 0
  {
    match v
    case Arr(items) => Arr(CanonItems(items))
    case Obj(fields) => Obj(SortBy(CanonFields(fields), NameOf))
    case _ => v
  }

  function CanonItems(items: seq<Value>): (out: seq<Value>)
    ensures |out| == |items|
    decreases items, 0
  {
    if items == [] then [] else [Canon(items[0])] + CanonItems(items[1..])
  }

  function CanonField(f: Field): Field
    decreases f, 0
  {
    Field(f.name, Canon(f.value))
  }

  function CanonFields(fields: seq<Field>): (out: seq<Field>)
    ensures |out| == |fields|
    decreases fields, 0
  {
    if fields == [] then [] else [CanonField(fields[0])] + CanonFields(fields[1..])
  }

  // ---------------------------------------------------------------- decoding

  datatype Parsed<+T> = Fail | Done(value: T, rest: string)

  function HexValue(c: char): Option<nat> {
    if '0' <= c <= '9' then Some(c as int - '0' as int)
    else if 'a' <= c <= 'f' then Some(c as int - 'a' as int + 10)
    else None
  }

  /** The character an escape stands for, and what follows it. */
  function Unescape(s: string): (r: Parsed<char>)
    requires s != ""
    ensures r.Done? ==> |r.rest| < |s|
  {
    if s[0] == '"' || s[0] == '\\' then Done(s[0], s[1..])
    else if s[0] == 'b' then Done(8 as char, s[1..])
    else if s[0] == 't' then Done(9 as char, s[1..])
    else if s[0] == 'n' then Done(10 as char, s[1..])
    else if s[0] == 'f' then Done(12 as char, s[1..])
    else if s[0] == 'r' then Done(13 as char, s[1..])
    else if |s| >= 5 && s[0] == 'u' && s[1] == '0' && s[2] == '0' && (s[3] == '0' || s[3] == '1')
            && HexValue(s[4]).Some? then
      Done((HexValue(s[3]).value * 16 + HexValue(s[4]).value) as char, s[5..])
    else Fail
  }

  /** Characters up to the closing quote. */
  function ParseChars(s: string): (r: Parsed<string>)
    ensures r.Done? ==> |r.rest| < |s|
    decreases |s|
  {
    if s == "" then Fail
    else if s[0] == '"' then Done("", s[1..])
    else if s[0] == '\\' then
      if |s| == 1 then Fail else
        var c := Unescape(s[1..]);
        if c.Fail? then Fail else
          var more := ParseChars(c.rest);
          if more.Fail? then Fail else Done([c.value] + more.value, more.rest)
    else
      var more := ParseChars(s[1..]);
      if more.Fail? then Fail else Done([s[0]] + more.value, more.rest)
  }

  function DigitPrefix(s: string): (k: nat)
    ensures k <= |s| && AllDigits(s[..k])
  {
    if s == "" || !IsDigit(s[0]) then 0 else 1 + DigitPrefix(s[1..])
  }

  function ParseInt(s: string): (r: Parsed<int>)
    ensures r.Done? ==> |r.rest| < |s|
  {
    var negative := s != "" && s[0] == '-';
    var digits := if negative then s[1..] else s;
    var k := DigitPrefix(digits);
    if k == 0 then Fail
    else Done(if negative then 0 - StringToNat(digits[..k]) else StringToNat(digits[..k]) as int, digits[k..])
  }

  predicate StartsWith(s: string, prefix: string) { |s| >= |prefix| && s[..|prefix|] == prefix }

  function Decode(s: string): (r: Parsed<Value>)
    ensures r.Done? ==> |r.rest| < |s|
    decreases |s|, 0
  {
    if s == "" then Fail
    else if s[0] == 'n' then if StartsWith(s, "null") then Done(Null, s[4..]) else Fail
    else if s[0] == 't' then if StartsWith(s, "true") then Done(Bool(true), s[4..]) else Fail
    else if s[0] == 'f' then if StartsWith(s, "false") then Done(Bool(false), s[5..]) else Fail
    else if s[0] == '"' then
      var t := ParseChars(s[1..]);
      if t.Fail? then Fail else Done(Str(t.value), t.rest)
    else if s[0] == '[' then
      if |s| > 1 && s[1] == ']' then Done(Arr([]), s[2..]) else
        var t := DecodeItems(s[1..]);
        if t.Fail? then Fail else Done(Arr(t.value), t.rest)
    else if s[0] == '{' then
      if |s| > 1 && s[1] == '}' then Done(Obj([]), s[2..]) else
        var t := DecodeFields(s[1..]);
        if t.Fail? then Fail else Done(Obj(t.value), t.rest)
    else
      var t := ParseInt(s);
      if t.Fail? then Fail else Done(Int(t.value), t.rest)
  }

  function DecodeItems(s: string): (r: Parsed<seq<Value>>)
    ensures r.Done? ==> |r.rest| < |s|
    decreases |s|, 1
  {
    var head := Decode(s);
    if head.Fail? || head.rest == "" then Fail
    else if head.rest[0] == ']' then Done([head.value], head.rest[1..])
    else if head.rest[0] == ',' then
      var more := DecodeItems(head.rest[1..]);
      if more.Fail? then Fail else Done([head.value] + more.value, more.rest)
    else Fail
  }

  function DecodeField(s: string): (r: Parsed<Field>)
    ensures r.Done? ==> |r.rest| < |s|
    decreases |s|, 1
  {
    if s == "" || s[0] != '"' then Fail else
      var name := ParseChars(s[1..]);
      if name.Fail? || name.rest == "" || name.rest[0] != ':' then Fail else
        var value := Decode(name.rest[1..]);
        if value.Fail? then Fail else Done(Field(name.value, value.value), value.rest)
  }

  function DecodeFields(s: string): (r: Parsed<seq<Field>>)
    ensures r.Done? ==> |r.rest| < |s|
    decreases |s|, 2
  {
    var head := DecodeField(s);
    if head.Fail? || head.rest == "" then Fail
    else if head.rest[0] == '}' then Done([head.value], head.rest[1..])
    else if head.rest[0] == ',' then
      var more := DecodeFields(head.rest[1..]);
      if more.Fail? then Fail else Done([head.value] + more.value, more.rest)
    else Fail
  }

  // ---------------------------------------------------------------- what is written reads back

  lemma EscapedReads(c: char, rest: string)
    ensures var s := EscapeChar(c) + rest;
            if EscapeChar(c)[0] == '\\' then |s| > 1 && Unescape(s[1..]) == Done(c, rest)
            else EscapeChar(c) == [c] && c != '"'
  {
    var e := EscapeChar(c);
    var s := e + rest;
    if e[0] == '\\' {
      if |e| == 2 {
        assert s[1..][1..] == rest;
      } else {
        var t := s[1..];
        assert t == e[1..] + rest;
        HexReads(c as int / 16);
        HexReads(c as int % 16);
        assert t[5..] == rest;
      }
    }
  }

  lemma HexReads(n: nat)
    requires n < 16
    ensures HexValue(HexDigit(n)) == Some(n)
  {
  }

  lemma {:induction false} CharsRead(text: string, rest: string)
    ensures ParseChars(Escape(text) + ['"'] + rest) == Done(text, rest)
  {
    var s := Escape(text) + ['"'] + rest;
    if text == "" {
      assert s[1..] == rest;
    } else {
      var e, tail := EscapeChar(text[0]), Escape(text[1..]) + ['"'] + rest;
      assert s == e + tail;
      EscapedReads(text[0], tail);
      CharsRead(text[1..], rest);
      assert [text[0]] + text[1..] == text;
      if e[0] != '\\' {
        assert s[1..] == tail;
      }
    }
  }

  lemma {:induction false} DigitsRead(digits: string, rest: string)
    requires AllDigits(digits) && Ends(rest)
    ensures DigitPrefix(digits + rest) == |digits|
  {
    if digits == "" {
      assert digits + rest == rest;
    } else {
      assert (digits + rest)[1..] == digits[1..] + rest;
      DigitsRead(digits[1..], rest);
    }
  }

  /** What may follow a value: anything that does not prolong a number. */
  predicate Ends(rest: string) { rest == "" || !IsDigit(rest[0]) }

  lemma DigitsCut(digits: string, rest: string)
    requires AllDigits(digits) && Ends(rest)
    ensures var s := digits + rest;
            DigitPrefix(s) == |digits| && s[..|digits|] == digits && s[|digits|..] == rest
  {
    DigitsRead(digits, rest);
  }

  lemma IntReads(n: int, rest: string)
    requires Ends(rest)
    ensures ParseInt(IntText(n) + rest) == Done(n, rest)
    ensures IntText(n) != "" && (IntText(n)[0] == '-' || IsDigit(IntText(n)[0]))
  {
    hide NatToString, StringToNat, DigitPrefix;
    var size := if n < 0 then -n else n;
    var digits := NatToString(size);
    ParsePrint(size);
    DigitsCut(digits, rest);
    var s := IntText(n) + rest;
    if n < 0 {
      assert s[0] == '-' && s[1..] == digits + rest;
    } else {
      assert s == digits + rest && s[0] == digits[0] != '-';
    }
  }

  lemma RenderStarts(v: Value)
    requires Supported(v)
    ensures Render(v) != "" && Render(v)[0] != ']' && Render(v)[0] != '}'
  {
    if v.Int? {
      IntReads(v.number, "");
    }
  }

  lemma WordReads(s: string, word: string, rest: string)
    requires s == word + rest
    ensures StartsWith(s, word) && s[|word|..] == rest
  {
  }

  lemma {:induction false} ValueReads(v: Value, rest: string)
    requires Supported(v) && Ends(rest)
    ensures Decode(Render(v) + rest) == Done(v, rest)
    decreases v, 0
  {
    match v
    case Null => WordReads(Render(v) + rest, "null", rest);
    case Bool(flag) => WordReads(Render(v) + rest, if flag then "true" else "false", rest);
    case Int(n) => IntReads(n, rest);
    case Str(s) => StringReads(s, rest);
    case Arr(items) => ArrayReads(items, rest);
    case Obj(fields) => RecordReads(fields, rest);
  }

  lemma StringReads(s: string, rest: string)
    ensures Decode(Render(Str(s)) + rest) == Done(Str(s), rest)
  {
    hide Escape, ParseChars;
    CharsRead(s, rest);
    assert (Quoted(s) + rest)[1..] == Escape(s) + ['"'] + rest;
  }

  lemma {:induction false} ArrayReads(items: seq<Value>, rest: string)
    requires (forall i | 0 <= i < |items| :: Supported(items[i])) && Ends(rest)
    ensures Decode("[" + RenderItems(items) + "]" + rest) == Done(Arr(items), rest)
    decreases items, 2
  {
    var s := "[" + RenderItems(items) + "]" + rest;
    if items == [] {
      assert s == "[]" + rest;
    } else {
      ItemsRead(items, rest);
      RenderStarts(items[0]);
      assert s[1..] == RenderItems(items) + "]" + rest;
    }
  }

  lemma {:induction false} ItemsRead(items: seq<Value>, rest: string)
    requires items != [] && forall i | 0 <= i < |items| :: Supported(items[i])
    ensures DecodeItems(RenderItems(items) + "]" + rest) == Done(items, rest)
    decreases items, 1
  {
    hide Render, Decode;
    var s := RenderItems(items) + "]" + rest;
    if |items| == 1 {
      assert s == Render(items[0]) + ("]" + rest);
      ValueReads(items[0], "]" + rest);
      assert items == [items[0]];
    } else {
      var tail := RenderItems(items[1..]) + "]" + rest;
      assert s == Render(items[0]) + ("," + tail);
      ValueReads(items[0], "," + tail);
      ItemsRead(items[1..], rest);
      assert ("," + tail)[1..] == tail;
      assert items == [items[0]] + items[1..];
    }
  }

  lemma {:induction false} FieldReads(f: Field, rest: string)
    requires Supported(f.value) && Ends(rest)
    ensures DecodeField(RenderField(f) + rest) == Done(f, rest)
    decreases f, 1
  {
    hide Render, Decode, ParseChars, Escape;
    var after := ":" + Render(f.value) + rest;
    CharsRead(f.name, after);
    assert (RenderField(f) + rest)[1..] == Escape(f.name) + ['"'] + after;
    ValueReads(f.value, rest);
    assert after[1..] == Render(f.value) + rest;
  }

  lemma FieldsStart(fields: seq<Field>)
    requires fields != []
    ensures RenderFields(fields) != "" && RenderFields(fields)[0] == '"'
  {
    hide Render, Escape;
    assert RenderField(fields[0])[0] == '"';
  }

  lemma {:induction false} RecordReads(fields: seq<Field>, rest: string)
    requires (forall i | 0 <= i < |fields| :: Supported(fields[i].value)) && Ends(rest)
    ensures Decode("{" + RenderFields(fields) + "}" + rest) == Done(Obj(fields), rest)
    decreases fields, 3
  {
    hide RenderField, DecodeFields;
    var s := "{" + RenderFields(fields) + "}" + rest;
    if fields == [] {
      assert s == "{}" + rest;
    } else {
      FieldsRead(fields, rest);
      FieldsStart(fields);
      assert s[1..] == RenderFields(fields) + "}" + rest;
    }
  }

  lemma {:induction false} FieldsRead(fields: seq<Field>, rest: string)
    requires fields != [] && forall i | 0 <= i < |fields| :: Supported(fields[i].value)
    ensures DecodeFields(RenderFields(fields) + "}" + rest) == Done(fields, rest)
    decreases fields, 2
  {
    hide RenderField, DecodeField;
    var s := RenderFields(fields) + "}" + rest;
    if |fields| == 1 {
      assert s == RenderField(fields[0]) + ("}" + rest);
      FieldReads(fields[0], "}" + rest);
      assert fields == [fields[0]];
    } else {
      var tail := RenderFields(fields[1..]) + "}" + rest;
      assert s == RenderField(fields[0]) + ("," + tail);
      FieldReads(fields[0], "," + tail);
      FieldsRead(fields[1..], rest);
      assert ("," + tail)[1..] == tail;
      assert fields == [fields[0]] + fields[1..];
    }
  }

  /** Decoding inverts rendering. */
  lemma RoundTrip(v: Value)
    requires Supported(v)
    ensures Decode(Render(v)) == Done(v, "")
  {
    ValueReads(v, "");
    assert Render(v) + "" == Render(v);
  }

  // ---------------------------------------------------------------- canonical form

  lemma {:induction false} CanonFieldAt(fields: seq<Field>, i: nat)
    requires i < |fields|
    ensures CanonFields(fields)[i] == CanonField(fields[i])
  {
    if i > 0 {
      CanonFieldAt(fields[1..], i - 1);
    }
  }

  lemma {:induction false} CanonItemAt(items: seq<Value>, i: nat)
    requires i < |items|
    ensures CanonItems(items)[i] == Canon(items[i])
  {
    if i > 0 {
      CanonItemAt(items[1..], i - 1);
    }
  }

  /** Sorting and canonicalising the fields commute: names do not change. */
  lemma {:induction false} CanonInsert(f: Field, fields: seq<Field>)
    ensures CanonFields(InsertBy(f, fields, NameOf)) == InsertBy(CanonField(f), CanonFields(fields), NameOf)
  {
    var inserted := InsertBy(f, fields, NameOf);
    if fields == [] {
      assert CanonFields([f]) == [CanonField(f)];
    } else if Before(f.name, fields[0].name) {
      assert inserted[1..] == fields;
    } else {
      CanonInsert(f, fields[1..]);
      assert inserted[1..] == InsertBy(f, fields[1..], NameOf);
      assert CanonFields(fields)[1..] == CanonFields(fields[1..]);
    }
  }

  lemma {:induction false} CanonSort(fields: seq<Field>)
    ensures CanonFields(SortBy(fields, NameOf)) == SortBy(CanonFields(fields), NameOf)
  {
    if fields != [] {
      CanonSort(fields[1..]);
      CanonInsert(fields[0], SortBy(fields[1..], NameOf));
      assert CanonFields(fields)[1..] == CanonFields(fields[1..]);
    }
  }

  /** Sorting a record drops, adds and repeats nothing. */
  lemma CanonPermutes(fields: seq<Field>)
    ensures Canon(Obj(fields)).Obj? && multiset(Canon(Obj(fields)).fields) == multiset(CanonFields(fields))
    ensures forall i | 0 <= i < |fields| :: CanonFields(fields)[i] == CanonField(fields[i])
  {
    hide SortBy, CanonFields, CanonField;
    SortKeeps(CanonFields(fields), NameOf);
    forall i | 0 <= i < |fields| ensures CanonFields(fields)[i] == CanonField(fields[i]) {
      CanonFieldAt(fields, i);
    }
  }

  /** Every record, at every depth, has its names in order (section 3.2.3 of RFC 8785). */
  predicate InOrder(v: Value) {
    match v
    case Arr(items) => forall i | 0 <= i < |items| :: InOrder(items[i])
    case Obj(fields) => OrderedBy(fields, NameOf) && forall i | 0 <= i < |fields| :: InOrder(fields[i].value)
    case _ => true
  }

  lemma {:induction false} CanonIsInOrder(v: Value)
    ensures InOrder(Canon(v)) && (Supported(v) ==> Supported(Canon(v)))
  {
    match v
    case Arr(items) =>
      forall i | 0 <= i < |items|
        ensures InOrder(CanonItems(items)[i]) && (Supported(items[i]) ==> Supported(CanonItems(items)[i]))
      {
        CanonIsInOrder(items[i]);
        CanonItemAt(items, i);
      }
    case Obj(fields) =>
      var canon := CanonFields(fields);
      var sorted := SortBy(canon, NameOf);
      SortOrders(canon, NameOf);
      SameMembers(canon, NameOf);
      forall i | 0 <= i < |sorted| ensures InOrder(sorted[i].value) && (Supported(v) ==> Supported(sorted[i].value)) {
        assert sorted[i] in canon;
        var k :| 0 <= k < |canon| && canon[k] == sorted[i];
        CanonFieldAt(fields, k);
        CanonIsInOrder(fields[k].value);
      }
    case _ =>
  }

  /** canonicalJSON: none for material it does not support. */
  function Print(v: Value): Option<string> { if Supported(v) then Some(Render(Canon(v))) else None }

  /** The canonical bytes determine the material: they decode to the key-sorted tree, so
      trees that differ after sorting never print alike. */
  lemma PrintDecodes(v: Value)
    requires Supported(v)
    ensures Decode(Print(v).value) == Done(Canon(v), "")
    ensures InOrder(Canon(v))
  {
    CanonIsInOrder(v);
    RoundTrip(Canon(v));
  }

  lemma PrintIsInjective(a: Value, b: Value)
    requires Supported(a) && Supported(b) && Print(a) == Print(b)
    ensures Canon(a) == Canon(b)
  {
    PrintDecodes(a);
    PrintDecodes(b);
  }

  // ---------------------------------------------------------------- the builder

  class Builder {
    var text: string

    constructor ()
      ensures text == ""
    {
      text := "";
    }

    method Write(s: string)
      modifies this
      ensures text == old(text) + s
    {
      text := text + s;
    }

    /** appendJSONString. */
    method AppendString(value: string)
      modifies this
      ensures text == old(text) + Quoted(value)
    {
      hide EscapeChar;
      ghost var before := text;
      Write(['"']);
      var i := 0;
      while i < |value|
        invariant i <= |value|
        invariant text + Escape(value[i..]) == before + ['"'] + Escape(value)
      {
        assert value[i..][1..] == value[i + 1..];
        Write(EscapeChar(value[i]));
        i := i + 1;
      }
      assert text + "" == text;
      Write(['"']);
    }

    /** appendCanonical. On an error the text is abandoned by the caller. */
    method Append(v: Value) returns (ok: bool)
      modifies this
      ensures ok <==> Supported(v)
      ensures ok ==> text == old(text) + Render(Canon(v))
      decreases v, 1
    {
      match v {
        case Null => Write("null"); return true;
        case Bool(flag) => Write(if flag then "true" else "false"); return true;
        case Int(n) => Write(IntText(n)); return true;
        case Str(s) => AppendString(s); return true;
        case Arr(items) => ok := AppendArray(items);
        case Obj(fields) => ok := AppendRecord(v, fields);
        case Unsupported => return false;
      }
    }

    method AppendArray(items: seq<Value>) returns (ok: bool)
      modifies this
      ensures ok <==> forall i | 0 <= i < |items| :: Supported(items[i])
      ensures ok ==> text == old(text) + "[" + RenderItems(CanonItems(items)) + "]"
      decreases items, 0
    {
      ghost var before := text;
      Write("[");
      var i := 0;
      while i < |items|
        invariant i <= |items|
        invariant forall k | 0 <= k < i :: Supported(items[k])
        invariant text == before + "[" + RenderItems(CanonItems(items[..i]))
      {
        if i > 0 {
          Write(",");
        }
        var done := Append(items[i]);
        if !done {
          return false;
        }
        ItemsExtend(items, i);
        i := i + 1;
      }
      assert items[..i] == items;
      Write("]");
      return true;
    }

    method AppendRecord(v: Value, fields: seq<Field>) returns (ok: bool)
      requires v == Obj(fields)
      modifies this
      ensures ok <==> Supported(v)
      ensures ok ==> text == old(text) + Render(Canon(v))
      decreases v, 0
    {
      hide Render, Supported, SortBy, Canon, Quoted;
      ghost var before := text;
      var sorted := SortBy(fields, NameOf);
      Write("{");
      var i := 0;
      while i < |sorted|
        invariant i <= |sorted|
        invariant forall k | 0 <= k < i :: Supported(sorted[k].value)
        invariant text == before + "{" + RenderFields(CanonFields(sorted[..i]))
      {
        if i > 0 {
          Write(",");
        }
        MemberIsSmaller(v, sorted[i]);
        var done := AppendField(sorted[i]);
        if !done {
          return false;
        }
        FieldsExtend(sorted, i);
        i := i + 1;
      }
      assert sorted[..i] == sorted;
      Write("}");
      RecordDone(v);
      return true;
    }

    method AppendField(item: Field) returns (ok: bool)
      modifies this
      ensures ok <==> Supported(item.value)
      ensures ok ==> text == old(text) + Quoted(item.name) + ":" + Render(Canon(item.value))
      decreases item, 2
    {
      AppendString(item.name);
      Write(":");
      ok := Append(item.value);
    }
  }

  lemma MemberIsSmaller(v: Value, f: Field)
    requires v.Obj? && f in SortBy(v.fields, NameOf)
    ensures f < v
    ensures Supported(v) ==> Supported(f.value)
  {
    SameMembers(v.fields, NameOf);
    assert f in v.fields;
    var k :| 0 <= k < |v.fields| && v.fields[k] == f;
  }

  lemma RecordDone(v: Value)
    requires v.Obj? && forall f | f in SortBy(v.fields, NameOf) :: Supported(f.value)
    ensures Supported(v)
    ensures Render(Canon(v)) == "{" + RenderFields(CanonFields(SortBy(v.fields, NameOf))) + "}"
  {
    SameMembers(v.fields, NameOf);
    CanonSort(v.fields);
    forall k | 0 <= k < |v.fields| ensures Supported(v.fields[k].value) {
      assert v.fields[k] in v.fields;
    }
  }

  lemma {:induction false} RenderItemsSnoc(items: seq<Value>, v: Value)
    ensures RenderItems(items + [v]) == (if items == [] then "" else RenderItems(items) + ",") + Render(v)
  {
    if |items| == 0 {
      assert items + [v] == [v];
    } else {
      assert (items + [v])[1..] == items[1..] + [v];
      RenderItemsSnoc(items[1..], v);
    }
  }

  lemma {:induction false} RenderFieldsSnoc(fields: seq<Field>, f: Field)
    ensures RenderFields(fields + [f]) == (if fields == [] then "" else RenderFields(fields) + ",") + RenderField(f)
  {
    hide RenderField;
    if |fields| == 0 {
      assert fields + [f] == [f];
    } else {
      assert (fields + [f])[1..] == fields[1..] + [f];
      RenderFieldsSnoc(fields[1..], f);
    }
  }

  lemma ItemsExtend(items: seq<Value>, i: nat)
    requires i < |items|
    ensures RenderItems(CanonItems(items[..i + 1]))
         == (if i == 0 then "" else RenderItems(CanonItems(items[..i])) + ",") + Render(Canon(items[i]))
  {
    var before, after := CanonItems(items[..i]), CanonItems(items[..i + 1]);
    forall k | 0 <= k < i + 1 ensures after[k] == (before + [Canon(items[i])])[k] {
      CanonItemAt(items[..i + 1], k);
      if k < i {
        CanonItemAt(items[..i], k);
      }
    }
    assert after == before + [Canon(items[i])];
    RenderItemsSnoc(before, Canon(items[i]));
  }

  lemma FieldsExtend(fields: seq<Field>, i: nat)
    requires i < |fields|
    ensures RenderFields(CanonFields(fields[..i + 1]))
         == (if i == 0 then "" else RenderFields(CanonFields(fields[..i])) + ",")
            + Quoted(fields[i].name) + ":" + Render(Canon(fields[i].value))
  {
    var before, after := CanonFields(fields[..i]), CanonFields(fields[..i + 1]);
    forall k | 0 <= k < i + 1 ensures after[k] == (before + [CanonField(fields[i])])[k] {
      CanonFieldAt(fields[..i + 1], k);
      if k < i {
        CanonFieldAt(fields[..i], k);
      }
    }
    assert after == before + [CanonField(fields[i])];
    RenderFieldsSnoc(before, CanonField(fields[i]));
  }
}
