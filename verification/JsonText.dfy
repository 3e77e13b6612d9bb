/** Canonical JSON text: the printer shared by the JCS and the custody canonical forms, a decoder for
    JSON text (RFC 8259), and the laws that relate them.

    The printer takes the text that follows as a parameter, so that nested values need no
    re-association of concatenations. */
module JsonText {
  import opened Json

  datatype Parsed<+T> = Fail | Ok(value: T, rest: string)

  // ---- Printing ----

  function Hex(n: int): (c: char)
    requires 0 <= n < 16
  {
    "0123456789abcdef"[n]
  }

  function Escape(c: char): (r: string)
    ensures 1 <= |r| <= 6
  {
    if c == '\"' then "\\\""
    else if c == '\\' then "\\\\"
    else if c as int == 0x08 then "\\b"
    else if c as int == 0x09 then "\\t"
    else if c as int == 0x0a then "\\n"
    else if c as int == 0x0c then "\\f"
    else if c as int == 0x0d then "\\r"
    else if c as int < 0x20 then "\\u00" + [Hex(c as int / 16), Hex(c as int % 16)]
    else [c]
  }

  function EmitChars(s: string, rest: string): string {
    if s == [] then rest else Escape(s[0]) + EmitChars(s[1..], rest)
  }

  function EmitString(s: string, rest: string): string {
    ['\"'] + EmitChars(s, ['\"'] + rest)
  }

  function DigitChar(n: int): char
    requires 0 <= n < 10
  {
    "0123456789"[n]
  }

  function Digits(n: nat): (r: string)
    ensures r != []
  {
    if n < 10 then [DigitChar(n)] else Digits(n / 10) + [DigitChar(n % 10)]
  }

  function Decimal(n: int): string {
    if n < 0 then ['-'] + Digits(-n) else Digits(n)
  }

  function Emit(v: Json, rest: string): string
    decreases v, 1
  {
    match v
    case Null => "null" + rest
    case Bool(b) => if b then "true" + rest else "false" + rest
    case Int(n) => Decimal(n) + rest
    case Real => rest
    case Str(s) => EmitString(s, rest)
    case Arr(items) => ['['] + EmitItems(items, [']'] + rest)
    case Obj(members) => ['{'] + EmitMembers(members, ['}'] + rest)
  }

  function EmitItems(items: seq<Json>, rest: string): string
    decreases items, 0
  {
    if items == [] then rest
    else if |items| == 1 then Emit(items[0], rest)
    else Emit(items[0], [','] + EmitItems(items[1..], rest))
  }

  function EmitMembers(ms: seq<Member>, rest: string): string
    decreases ms, 0
  {
    if ms == [] then rest
    else if |ms| == 1 then EmitMember(ms[0], rest)
    else EmitMember(ms[0], [','] + EmitMembers(ms[1..], rest))
  }

  function EmitMember(m: Member, rest: string): string
    decreases m, 0
  {
    EmitString(m.key, [':'] + Emit(m.value, rest))
  }

  function Print(v: Json): string { Emit(v, "") }

  // ---- Decoding ----

  predicate Blank(c: char) { c == ' ' || c == '\t' || c == '\n' || c == '\r' }

  function Skip(t: string): (r: string)
    ensures |r| <= |t|
  {
    if t != [] && Blank(t[0]) then Skip(t[1..]) else t
  }

  function HexValue(c: char): int {
    if '0' <= c <= '9' then c as int - '0' as int
    else if 'a' <= c <= 'f' then c as int - 'a' as int + 10
    else if 'A' <= c <= 'F' then c as int - 'A' as int + 10
    else -1
  }

  /** The value of the first four hex digits of `t`, or -1. */
  function Hex4(t: string): (n: int)
    ensures -1 <= n < 0x10000
    ensures n >= 0 ==> |t| >= 4
  {
    if |t| < 4 || HexValue(t[0]) < 0 || HexValue(t[1]) < 0 || HexValue(t[2]) < 0 || HexValue(t[3]) < 0
    then -1
    else HexValue(t[0]) * 4096 + HexValue(t[1]) * 256 + HexValue(t[2]) * 16 + HexValue(t[3])
  }

  function Utf8(cp: int): (r: string)
    requires 0 <= cp < 0x110000
    ensures 1 <= |r| <= 4
    ensures |r| == 1 || forall c :: c in r ==> c as int >= 0x80
    ensures cp < 0x10000 ==> |r| <= 3
  {
    if cp < 0x80 then [cp as char]
    else if cp < 0x800 then [(0xc0 + cp / 64) as char, (0x80 + cp % 64) as char]
    else if cp < 0x10000 then
      [(0xe0 + cp / 4096) as char, (0x80 + cp / 64 % 64) as char, (0x80 + cp % 64) as char]
    else
      [(0xf0 + cp / 262144) as char, (0x80 + cp / 4096 % 64) as char,
       (0x80 + cp / 64 % 64) as char, (0x80 + cp % 64) as char]
  }

  /** Decodes what follows `\u`. A high surrogate must be followed by an escaped low one. */
  function ParseUnicode(t: string): (r: Parsed<string>)
    ensures r.Ok? ==> |r.rest| < |t|
  {
    var h := Hex4(t);
    if h < 0 || 0xdc00 <= h < 0xe000 then Fail
    else if h < 0xd800 || 0xe000 <= h then Ok(Utf8(h), t[4..])
    else if |t| < 6 || t[4] != '\\' || t[5] != 'u' then Fail
    else
      var low := Hex4(t[6..]);
      if 0xdc00 <= low < 0xe000
      then Ok(Utf8(0x10000 + (h - 0xd800) * 1024 + (low - 0xdc00)), t[10..])
      else Fail
  }

  /** Decodes what follows a backslash. */
  function ParseEscape(t: string): (r: Parsed<string>)
    ensures r.Ok? ==> |r.rest| < |t|
  {
    if t == [] then Fail
    else if t[0] == '\"' || t[0] == '\\' || t[0] == '/' then Ok([t[0]], t[1..])
    else if t[0] == 'b' then Ok([0x08 as char], t[1..])
    else if t[0] == 'f' then Ok([0x0c as char], t[1..])
    else if t[0] == 'n' then Ok([0x0a as char], t[1..])
    else if t[0] == 'r' then Ok([0x0d as char], t[1..])
    else if t[0] == 't' then Ok([0x09 as char], t[1..])
    else if t[0] == 'u' then ParseUnicode(t[1..])
    else Fail
  }

  /** Decodes the inside of a string up to and including the closing quote. */
  function ParseChars(t: string): (r: Parsed<string>)
    ensures r.Ok? ==> |r.rest| < |t|
    decreases |t|
  {
    if t == [] || t[0] as int < 0x20 then Fail
    else if t[0] == '\"' then Ok([], t[1..])
    else if t[0] == '\\' then
      match ParseEscape(t[1..])
      case Fail => Fail
      case Ok(cs, more) =>
        (match ParseChars(more) case Fail => Fail case Ok(tail, rest) => Ok(cs + tail, rest))
    else
      match ParseChars(t[1..]) case Fail => Fail case Ok(tail, rest) => Ok([t[0]] + tail, rest)
  }

  function ParseString(t: string): (r: Parsed<string>)
    ensures r.Ok? ==> |r.rest| < |t|
  {
    if t == [] || t[0] != '\"' then Fail else ParseChars(t[1..])
  }

  predicate IsDigit(c: char) { '0' <= c <= '9' }

  function DigitValue(c: char): (n: nat)
    requires IsDigit(c)
    ensures n < 10
  {
    c as int - '0' as int
  }

  function DigitRun(t: string): (k: nat)
    ensures k <= |t|
    ensures forall i :: 0 <= i < k ==> IsDigit(t[i])
    ensures k < |t| ==> !IsDigit(t[k])
  {
    if t == [] || !IsDigit(t[0]) then 0 else 1 + DigitRun(t[1..])
  }

  function NatValue(ds: string): nat
    requires forall i :: 0 <= i < |ds| ==> IsDigit(ds[i])
  {
    if ds == [] then 0
    else NatValue(ds[..|ds| - 1]) * 10 + DigitValue(ds[|ds| - 1])
  }

  function ParseExponent(t: string): (r: Parsed<Json>)
    ensures r.Ok? ==> |r.rest| <= |t|
  {
    if t == [] || (t[0] != 'e' && t[0] != 'E') then Ok(Real, t)
    else
      var u := if |t| > 1 && (t[1] == '+' || t[1] == '-') then t[2..] else t[1..];
      var k := DigitRun(u);
      if k == 0 then Fail else Ok(Real, u[k..])
  }

  function ParseFraction(t: string): (r: Parsed<Json>)
    ensures r.Ok? ==> |r.rest| <= |t|
  {
    if t == [] || t[0] != '.' then ParseExponent(t)
    else
      var k := DigitRun(t[1..]);
      if k == 0 then Fail else ParseExponent(t[1..][k..])
  }

  function ParseUnsigned(u: string, negative: bool): (r: Parsed<Json>)
    ensures r.Ok? ==> |r.rest| < |u|
  {
    var k := DigitRun(u);
    if k == 0 || (k > 1 && u[0] == '0') then Fail
    else if k < |u| && (u[k] == '.' || u[k] == 'e' || u[k] == 'E') then ParseFraction(u[k..])
    else
      var n := if negative then 0 - NatValue(u[..k]) else NatValue(u[..k]);
      Ok(if InWord(n) then Int(n) else Real, u[k..])
  }

  function ParseNumber(t: string): (r: Parsed<Json>)
    ensures r.Ok? ==> |r.rest| < |t|
  {
    if t != [] && t[0] == '-' then ParseUnsigned(t[1..], true) else ParseUnsigned(t, false)
  }

  function ParseValue(t: string): (r: Parsed<Json>)
    ensures r.Ok? ==> |r.rest| < |t|
    decreases |t|, 0
  {
    if t == [] then Fail
    else if t[0] == 'n' then (if "null" <= t then Ok(Null, t[4..]) else Fail)
    else if t[0] == 't' then (if "true" <= t then Ok(Bool(true), t[4..]) else Fail)
    else if t[0] == 'f' then (if "false" <= t then Ok(Bool(false), t[5..]) else Fail)
    else if t[0] == '\"' then
      match ParseString(t) case Fail => Fail case Ok(s, rest) => Ok(Str(s), rest)
    else if t[0] == '[' then
      var u := Skip(t[1..]);
      if u != [] && u[0] == ']' then Ok(Arr([]), u[1..])
      else match ParseItems(u) case Fail => Fail case Ok(items, rest) => Ok(Arr(items), rest)
    else if t[0] == '{' then
      var u := Skip(t[1..]);
      if u != [] && u[0] == '}' then Ok(Obj([]), u[1..])
      else match ParseMembers(u) case Fail => Fail case Ok(ms, rest) => Ok(Obj(ms), rest)
    else ParseNumber(t)
  }

  function ParseItems(t: string): (r: Parsed<seq<Json>>)
    ensures r.Ok? ==> |r.rest| < |t|
    decreases |t|, 1
  {
    match ParseValue(t)
    case Fail => Fail
    case Ok(v, more) =>
      var u := Skip(more);
      if u == [] then Fail
      else if u[0] == ']' then Ok([v], u[1..])
      else if u[0] == ',' then
        (match ParseItems(Skip(u[1..])) case Fail => Fail case Ok(vs, rest) => Ok([v] + vs, rest))
      else Fail
  }

  function ParseMember(t: string): (r: Parsed<Member>)
    ensures r.Ok? ==> |r.rest| < |t|
    decreases |t|, 1
  {
    match ParseString(t)
    case Fail => Fail
    case Ok(key, more) =>
      var u := Skip(more);
      if u == [] || u[0] != ':' then Fail
      else match ParseValue(Skip(u[1..])) case Fail => Fail case Ok(v, rest) => Ok(Member(key, v), rest)
  }

  function ParseMembers(t: string): (r: Parsed<seq<Member>>)
    ensures r.Ok? ==> |r.rest| < |t|
    decreases |t|, 2
  {
    match ParseMember(t)
    case Fail => Fail
    case Ok(m, more) =>
      var u := Skip(more);
      if u == [] then Fail
      else if u[0] == '}' then Ok([m], u[1..])
      else if u[0] == ',' then
        (match ParseMembers(Skip(u[1..])) case Fail => Fail case Ok(ms, rest) => Ok([m] + ms, rest))
      else Fail
  }

  datatype Decoded = Malformed | Document(value: Json)

  function ParseDocument(t: string): Decoded {
    match ParseValue(Skip(t))
    case Fail => Malformed
    case Ok(v, rest) => if Skip(rest) == [] then Document(v) else Malformed
  }

  // ---- What is printed decodes to what was printed ----

  /** No number but integers. */
  predicate Printable(v: Json)
    decreases v
  {
    match v
    case Real => false
    case Arr(items) => forall i :: 0 <= i < |items| ==> Printable(items[i])
    case Obj(members) => forall i :: 0 <= i < |members| ==> Printable(members[i].value)
    case _ => true
  }

  predicate EndsNumber(rest: string) {
    rest == [] || (!IsDigit(rest[0]) && rest[0] != '.' && rest[0] != 'e' && rest[0] != 'E')
  }

  lemma {:induction false} ParseEscaped(c: char, more: string)
    requires Escape(c) != [c]
    ensures Escape(c)[0] == '\\'
    ensures ParseEscape((Escape(c) + more)[1..]) == Ok([c], more)
  {
    hide ParseEscape, Escape;
    if Escape(c) in SHORT_ESCAPES { ParseShort(c, more); } else { ParseLong(c, more); }
  }

  const SHORT_ESCAPES: seq<string> := ["\\\"", "\\\\", "\\b", "\\t", "\\n", "\\f", "\\r"]

  lemma {:induction false} ParseShort(c: char, more: string)
    requires Escape(c) != [c] && Escape(c) in SHORT_ESCAPES
    ensures Escape(c)[0] == '\\' && ParseEscape((Escape(c) + more)[1..]) == Ok([c], more)
  {
    hide Hex, ParseUnicode;
    var e := Escape(c);
    assert |e| == 2 && (e + more)[1..] == [e[1]] + more && ([e[1]] + more)[1..] == more;
  }

  lemma {:induction false} HexValueOf(n: int)
    requires 0 <= n < 16
    ensures HexValue(Hex(n)) == n
  {
  }

  lemma {:induction false} LongEscape(c: char)
    requires Escape(c) != [c] && Escape(c) !in SHORT_ESCAPES
    ensures c as int < 0x20 && Escape(c) == ['\\', 'u', '0', '0', Hex(c as int / 16), Hex(c as int % 16)]
  {
    hide Hex;
    assert "\\u00" == ['\\', 'u', '0', '0'];
  }

  lemma {:induction false} ParseLong(c: char, more: string)
    requires Escape(c) != [c] && Escape(c) !in SHORT_ESCAPES
    ensures Escape(c)[0] == '\\' && ParseEscape((Escape(c) + more)[1..]) == Ok([c], more)
  {
    hide Hex, HexValue, Escape;
    LongEscape(c);
    var n := c as int;
    var t := ['0', '0', Hex(n / 16), Hex(n % 16)] + more;
    assert (Escape(c) + more)[1..] == ['u'] + t && (['u'] + t)[1..] == t;
    ParseHex(n, more);
  }

  lemma {:induction false} ParseHex(n: int, more: string)
    requires 0 <= n < 0x20
    ensures ParseUnicode(['0', '0', Hex(n / 16), Hex(n % 16)] + more) == Ok([n as char], more)
  {
    hide Hex;
    var t := ['0', '0', Hex(n / 16), Hex(n % 16)] + more;
    HexValueOf(n / 16);
    HexValueOf(n % 16);
    assert HexValue('0') == 0;
    assert t[4..] == more && Hex4(t) == n;
  }

  lemma {:induction false} ParseEmittedChars(s: string, rest: string)
    ensures ParseChars(EmitChars(s, ['\"'] + rest)) == Ok(s, rest)
  {
    if s == [] {
      assert (['\"'] + rest)[1..] == rest;
    } else {
      var more := EmitChars(s[1..], ['\"'] + rest);
      ParseEmittedChars(s[1..], rest);
      if Escape(s[0]) == [s[0]] {
        assert ([s[0]] + more)[1..] == more;
      } else {
        ParseEscaped(s[0], more);
      }
      assert s == [s[0]] + s[1..];
    }
  }

  lemma {:induction false} ParseEmittedString(s: string, rest: string)
    ensures ParseString(EmitString(s, rest)) == Ok(s, rest)
  {
    ParseEmittedChars(s, rest);
    assert EmitString(s, rest)[1..] == EmitChars(s, ['\"'] + rest);
  }

  lemma {:induction false} DigitsRead(n: nat)
    ensures forall i :: 0 <= i < |Digits(n)| ==> IsDigit(Digits(n)[i])
    ensures NatValue(Digits(n)) == n
    ensures |Digits(n)| > 1 ==> Digits(n)[0] != '0'
  {
    if n >= 10 {
      DigitsRead(n / 10);
      assert Digits(n)[..|Digits(n)| - 1] == Digits(n / 10);
      if |Digits(n / 10)| == 1 { assert n / 10 < 10; }
    } else {
      assert Digits(n)[..0] == [];
    }
  }

  lemma {:induction false} DigitRunOf(ds: string, rest: string)
    requires forall i :: 0 <= i < |ds| ==> IsDigit(ds[i])
    requires rest == [] || !IsDigit(rest[0])
    ensures DigitRun(ds + rest) == |ds|
  {
    if ds != [] {
      assert (ds + rest)[1..] == ds[1..] + rest;
      DigitRunOf(ds[1..], rest);
    } else {
      assert ds + rest == rest;
    }
  }

  lemma {:induction false} ParseDigits(ds: string, rest: string, negative: bool)
    requires ds != [] && forall i :: 0 <= i < |ds| ==> IsDigit(ds[i])
    requires |ds| > 1 ==> ds[0] != '0'
    requires EndsNumber(rest)
    requires InWord(if negative then 0 - NatValue(ds) else NatValue(ds))
    ensures ParseUnsigned(ds + rest, negative)
            == Ok(Int(if negative then 0 - NatValue(ds) else NatValue(ds)), rest)
  {
    var u := ds + rest;
    DigitRunOf(ds, rest);
    var k := DigitRun(u);
    assert k == |ds| && u[0] == ds[0];
    assert k < |u| ==> u[k] == rest[0];
    assert u[..k] == ds;
    assert u[k..] == rest;
  }

  lemma {:induction false} ParseEmittedNumber(n: int, rest: string)
    requires InWord(n) && EndsNumber(rest)
    ensures ParseNumber(Decimal(n) + rest) == Ok(Int(n), rest)
  {
    hide Digits, NatValue, ParseUnsigned, DigitRun;
    var m := if n < 0 then -n else n;
    var ds := Digits(m);
    DigitsRead(m);
    ParseDigits(ds, rest, n < 0);
    if n < 0 {
      assert (Decimal(n) + rest)[1..] == ds + rest;
    } else {
      assert IsDigit((ds + rest)[0]);
    }
  }

  /** The printed form of a value starts with a character that opens that kind of value. */
  lemma {:induction false} EmitStart(v: Json, rest: string)
    requires Printable(v)
    ensures var t := Emit(v, rest);
            t != [] && !Blank(t[0]) && t[0] != ']' && Skip(t) == t
    ensures var t := Emit(v, rest);
            v.Int? <==> t[0] != 'n' && t[0] != 't' && t[0] != 'f' && t[0] != '\"' && t[0] != '[' && t[0] != '{'
  {
    if v.Int? { DigitsRead(if v.n < 0 then -v.n else v.n); }
  }

  lemma {:induction false} EmitMemberStart(m: Member, rest: string)
    ensures var t := EmitMember(m, rest); t != [] && t[0] == '\"' && Skip(t) == t
  {
  }

  /** Decoding undoes printing, whatever text follows. */
  lemma {:induction false} ParseEmitted(v: Json, rest: string)
    requires Printable(v) && EndsNumber(rest)
    ensures ParseValue(Emit(v, rest)) == Ok(v, rest)
    decreases v, 1
  {
    var t := Emit(v, rest);
    EmitStart(v, rest);
    match v
    case Null => assert t[4..] == rest;
    case Bool(b) => assert t[if b then 4 else 5..] == rest;
    case Int(n) => ParseEmittedNumber(n, rest);
    case Str(s) => ParseEmittedString(s, rest);
    case Arr(items) =>
      assert t[1..] == EmitItems(items, [']'] + rest);
      if items == [] {
        assert ([']'] + rest)[1..] == rest;
      } else {
        ParseEmittedItems(items, rest);
      }
    case Obj(members) =>
      assert t[1..] == EmitMembers(members, ['}'] + rest);
      if members == [] {
        assert (['}'] + rest)[1..] == rest;
      } else {
        ParseEmittedMembers(members, rest);
      }
  }

  lemma {:induction false} ParseEmittedItems(items: seq<Json>, rest: string)
    requires items != [] && forall i :: 0 <= i < |items| ==> Printable(items[i])
    ensures var t := EmitItems(items, [']'] + rest);
            t != [] && t[0] != ']' && Skip(t) == t && ParseItems(t) == Ok(items, rest)
    decreases items, 0
  {
    hide Emit, ParseValue, Printable;
    if |items| == 1 {
      EmitStart(items[0], [']'] + rest);
      ParseEmitted(items[0], [']'] + rest);
      assert ([']'] + rest)[1..] == rest;
      assert items == [items[0]];
    } else {
      var tail := EmitItems(items[1..], [']'] + rest);
      ParseEmittedItems(items[1..], rest);
      EmitStart(items[0], [','] + tail);
      ParseEmitted(items[0], [','] + tail);
      assert ([','] + tail)[1..] == tail;
      assert items == [items[0]] + items[1..];
    }
  }

  lemma {:induction false} ParseEmittedMember(m: Member, rest: string)
    requires Printable(m.value) && EndsNumber(rest)
    ensures ParseMember(EmitMember(m, rest)) == Ok(m, rest)
    decreases m, 0
  {
    var u := [':'] + Emit(m.value, rest);
    ParseEmittedString(m.key, u);
    EmitStart(m.value, rest);
    ParseEmitted(m.value, rest);
    assert u[1..] == Emit(m.value, rest);
  }

  lemma {:induction false} ParseEmittedMembers(ms: seq<Member>, rest: string)
    requires ms != [] && forall i :: 0 <= i < |ms| ==> Printable(ms[i].value)
    ensures var t := EmitMembers(ms, ['}'] + rest);
            t != [] && t[0] == '\"' && Skip(t) == t && ParseMembers(t) == Ok(ms, rest)
    decreases ms, 0
  {
    hide EmitMember, ParseMember, ParseValue, Printable;
    if |ms| == 1 {
      EmitMemberStart(ms[0], ['}'] + rest);
      ParseEmittedMember(ms[0], ['}'] + rest);
      assert (['}'] + rest)[1..] == rest;
      assert ms == [ms[0]];
    } else {
      var tail := EmitMembers(ms[1..], ['}'] + rest);
      ParseEmittedMembers(ms[1..], rest);
      EmitMemberStart(ms[0], [','] + tail);
      ParseEmittedMember(ms[0], [','] + tail);
      assert ([','] + tail)[1..] == tail;
      assert ms == [ms[0]] + ms[1..];
    }
  }

  lemma {:induction false} ParsePrinted(v: Json)
    requires Printable(v)
    ensures ParseDocument(Print(v)) == Document(v)
  {
    EmitStart(v, "");
    ParseEmitted(v, "");
  }
}
