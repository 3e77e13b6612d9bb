/** Facts about canonical text that hold for every value or every input text: printing distributes
    over what follows, never produces a control character, and never lengthens the text it came from. */
module JsonLaws {
  import opened Json
  import opened JsonText

  // ---- Printing and the text that follows ----

  lemma {:induction false} EmitCharsSplit(s: string, rest: string)
    ensures EmitChars(s, rest) == EmitChars(s, "") + rest
  {
    if s != [] {
      EmitCharsSplit(s[1..], rest);
      assert EmitChars(s, rest) == Escape(s[0]) + (EmitChars(s[1..], "") + rest);
    }
  }

  lemma {:induction false} EmitStringSplit(s: string, rest: string)
    ensures EmitString(s, rest) == EmitString(s, "") + rest
  {
    EmitCharsSplit(s, ['\"'] + rest);
    EmitCharsSplit(s, ['\"'] + "");
  }

  lemma {:induction false} EmitSplit(v: Json, rest: string)
    ensures Emit(v, rest) == Print(v) + rest
    decreases v, 1
  {
    match v
    case Str(s) => EmitStringSplit(s, rest);
    case Arr(items) =>
      EmitItemsSplit(items, [']'] + rest);
      EmitItemsSplit(items, [']'] + "");
    case Obj(members) =>
      EmitMembersSplit(members, ['}'] + rest);
      EmitMembersSplit(members, ['}'] + "");
    case _ =>
  }

  lemma {:induction false} EmitItemsSplit(items: seq<Json>, rest: string)
    ensures EmitItems(items, rest) == EmitItems(items, "") + rest
    decreases items, 0
  {
    if |items| == 1 {
      EmitSplit(items[0], rest);
    } else if |items| > 1 {
      EmitItemsSplit(items[1..], rest);
      EmitSplit(items[0], [','] + EmitItems(items[1..], rest));
      EmitSplit(items[0], [','] + EmitItems(items[1..], ""));
    }
  }

  lemma {:induction false} EmitMemberSplit(m: Member, rest: string)
    ensures EmitMember(m, rest) == EmitMember(m, "") + rest
    decreases m, 0
  {
    EmitSplit(m.value, rest);
    EmitStringSplit(m.key, [':'] + Emit(m.value, rest));
    EmitStringSplit(m.key, [':'] + Emit(m.value, ""));
  }

  lemma {:induction false} EmitMembersSplit(ms: seq<Member>, rest: string)
    ensures EmitMembers(ms, rest) == EmitMembers(ms, "") + rest
    decreases ms, 0
  {
    hide EmitMember;
    if |ms| == 1 {
      EmitMemberSplit(ms[0], rest);
    } else if |ms| > 1 {
      var tail := EmitMembers(ms[1..], "");
      EmitMembersSplit(ms[1..], rest);
      EmitMemberSplit(ms[0], [','] + EmitMembers(ms[1..], rest));
      EmitMemberSplit(ms[0], [','] + tail);
      assert [','] + (tail + rest) == ([','] + tail) + rest;
    }
  }

  // ---- Adding one more element at the end ----

  lemma {:induction false} EmitItemsExtend(items: seq<Json>, v: Json, rest: string)
    requires items != []
    ensures EmitItems(items + [v], rest) == EmitItems(items, [','] + Emit(v, rest))
  {
    assert (items + [v])[1..] == items[1..] + [v];
    if |items| == 1 {
      assert items[1..] + [v] == [v];
    } else {
      EmitItemsExtend(items[1..], v, rest);
    }
  }

  lemma {:induction false} EmitMembersExtend(ms: seq<Member>, m: Member, rest: string)
    requires ms != []
    ensures EmitMembers(ms + [m], rest) == EmitMembers(ms, [','] + EmitMember(m, rest))
  {
    assert (ms + [m])[1..] == ms[1..] + [m];
    if |ms| == 1 {
      assert ms[1..] + [m] == [m];
    } else {
      EmitMembersExtend(ms[1..], m, rest);
    }
  }

  lemma {:induction false} EmitItemsSnoc(items: seq<Json>, v: Json)
    ensures EmitItems(items + [v], "")
            == EmitItems(items, "") + (if items == [] then "" else ",") + Print(v)
  {
    if items == [] {
      assert items + [v] == [v];
    } else {
      EmitItemsExtend(items, v, "");
      EmitItemsSplit(items, [','] + Print(v));
    }
  }

  lemma {:induction false} EmitMembersSnoc(ms: seq<Member>, m: Member)
    ensures EmitMembers(ms + [m], "")
            == EmitMembers(ms, "") + (if ms == [] then "" else ",") + EmitMember(m, "")
  {
    if ms == [] {
      assert ms + [m] == [m];
    } else {
      EmitMembersExtend(ms, m, "");
      EmitMembersSplit(ms, [','] + EmitMember(m, ""));
    }
  }

  lemma {:induction false} NoMembers()
    ensures EmitMembers([], "") == ""
  {
  }

  lemma {:induction false} FourMembers(a: Member, b: Member, c: Member, d: Member)
    ensures Print(Obj([a, b, c, d]))
            == ['{'] + EmitMember(a, "") + [','] + EmitMember(b, "") + [','] + EmitMember(c, "") + [',']
               + EmitMember(d, "") + ['}']
  {
    hide EmitMember, EmitMembers;
    EmitMembersSplit([a, b, c, d], ['}'] + "");
    assert [a, b, c, d] == [a, b, c] + [d] && [a, b, c] == [a, b] + [c] && [a, b] == [a] + [b];
    EmitMembersSnoc([a, b, c], d);
    EmitMembersSnoc([a, b], c);
    EmitMembersSnoc([a], b);
    EmitMembersSnoc([], a);
    assert [] + [a] == [a];
    NoMembers();
  }

  lemma {:induction false} Reassociate(open: string, comma: string, close: string,
                                       k1: string, v1: string, k2: string, v2: string,
                                       k3: string, v3: string, k4: string, v4: string)
    ensures (open + k1) + v1 + (comma + k2) + v2 + (comma + k3) + v3 + (comma + k4) + v4 + close
            == open + (k1 + v1) + comma + (k2 + v2) + comma + (k3 + v3) + comma + (k4 + v4) + close
  {
  }

  // ---- Text that needs no escaping ----

  predicate Plain(c: char) { c as int >= 0x20 && c != '\"' && c != '\\' }

  predicate PlainText(s: string) { forall i :: 0 <= i < |s| ==> Plain(s[i]) }

  lemma {:induction false} PlainEscape(c: char)
    requires Plain(c)
    ensures Escape(c) == [c]
  {
  }

  lemma {:induction false} PlainChars(s: string, rest: string)
    requires PlainText(s)
    ensures EmitChars(s, rest) == s + rest
  {
    hide Escape;
    if s != [] {
      PlainChars(s[1..], rest);
      PlainEscape(s[0]);
      assert s == [s[0]] + s[1..];
    }
  }

  lemma {:induction false} PlainString(s: string)
    requires PlainText(s)
    ensures EmitString(s, "") == ['\"'] + s + ['\"']
  {
    PlainChars(s, ['\"'] + "");
  }

  lemma {:induction false} PlainMember(key: string, v: Json)
    requires PlainText(key)
    ensures EmitMember(Member(key, v), "") == ['\"'] + key + ['\"', ':'] + Print(v)
  {
    EmitStringSplit(key, [':'] + Print(v));
    PlainString(key);
  }

  // ---- No control characters, hence no raw newline ----

  predicate Clean(t: string) { forall i :: 0 <= i < |t| ==> t[i] as int >= 0x20 }

  lemma {:induction false} EmitCharsClean(s: string, rest: string)
    requires Clean(rest)
    ensures Clean(EmitChars(s, rest))
  {
    if s != [] {
      EmitCharsClean(s[1..], rest);
      assert Clean(Escape(s[0]));
    }
  }

  lemma {:induction false} DigitsClean(n: nat)
    ensures Clean(Digits(n))
  {
    DigitsRead(n);
  }

  lemma {:induction false} EmitClean(v: Json, rest: string)
    requires Clean(rest)
    ensures Clean(Emit(v, rest))
    decreases v, 1
  {
    match v
    case Int(n) => DigitsClean(if n < 0 then -n else n);
    case Str(s) => EmitCharsClean(s, ['\"'] + rest);
    case Arr(items) => EmitItemsClean(items, [']'] + rest);
    case Obj(members) => EmitMembersClean(members, ['}'] + rest);
    case _ =>
  }

  lemma {:induction false} EmitItemsClean(items: seq<Json>, rest: string)
    requires Clean(rest)
    ensures Clean(EmitItems(items, rest))
    decreases items, 0
  {
    if |items| == 1 {
      EmitClean(items[0], rest);
    } else if |items| > 1 {
      EmitItemsClean(items[1..], rest);
      EmitClean(items[0], [','] + EmitItems(items[1..], rest));
    }
  }

  lemma {:induction false} EmitMemberClean(m: Member, rest: string)
    requires Clean(rest)
    ensures Clean(EmitMember(m, rest))
    decreases m, 0
  {
    EmitClean(m.value, rest);
    EmitCharsClean(m.key, ['\"'] + ([':'] + Emit(m.value, rest)));
  }

  lemma {:induction false} EmitMembersClean(ms: seq<Member>, rest: string)
    requires Clean(rest)
    ensures Clean(EmitMembers(ms, rest))
    decreases ms, 0
  {
    if |ms| == 1 {
      EmitMemberClean(ms[0], rest);
    } else if |ms| > 1 {
      EmitMembersClean(ms[1..], rest);
      EmitMemberClean(ms[0], [','] + EmitMembers(ms[1..], rest));
    }
  }

  // ---- Lengths ----

  function StringLength(s: string): nat { |EmitString(s, "")| }
  function Length(v: Json): nat { |Print(v)| }
  function MemberLength(m: Member): nat { |EmitMember(m, "")| }

  function SumLengths(ms: seq<Member>): nat {
    if ms == [] then 0 else MemberLength(ms[0]) + SumLengths(ms[1..])
  }

  function SumItems(items: seq<Json>): nat {
    if items == [] then 0 else Length(items[0]) + SumItems(items[1..])
  }

  function Commas(n: nat): nat { if n == 0 then 0 else n - 1 }

  lemma {:induction false} MembersLength(ms: seq<Member>)
    ensures |EmitMembers(ms, "")| == SumLengths(ms) + Commas(|ms|)
  {
    if |ms| == 1 {
      assert SumLengths(ms[1..]) == 0;
    } else if |ms| > 1 {
      MembersLength(ms[1..]);
      EmitMemberSplit(ms[0], [','] + EmitMembers(ms[1..], ""));
    }
  }

  lemma {:induction false} ItemsLength(items: seq<Json>)
    ensures |EmitItems(items, "")| == SumItems(items) + Commas(|items|)
  {
    if |items| == 1 {
      assert SumItems(items[1..]) == 0;
    } else if |items| > 1 {
      ItemsLength(items[1..]);
      EmitSplit(items[0], [','] + EmitItems(items[1..], ""));
    }
  }

  lemma {:induction false} ObjectLength(ms: seq<Member>)
    ensures Length(Obj(ms)) == 2 + SumLengths(ms) + Commas(|ms|)
  {
    EmitMembersSplit(ms, ['}'] + "");
    MembersLength(ms);
  }

  lemma {:induction false} ArrayLength(items: seq<Json>)
    ensures Length(Arr(items)) == 2 + SumItems(items) + Commas(|items|)
  {
    EmitItemsSplit(items, [']'] + "");
    ItemsLength(items);
  }

  lemma {:induction false} MemberLengthIs(m: Member)
    ensures MemberLength(m) == StringLength(m.key) + 1 + Length(m.value)
  {
    EmitStringSplit(m.key, [':'] + Emit(m.value, ""));
  }

  lemma {:induction false} StringLengthIs(s: string)
    ensures StringLength(s) == 2 + |EmitChars(s, "")|
  {
    EmitCharsSplit(s, ['\"'] + "");
  }

  // ---- Sorting keys keeps the length ----

  lemma {:induction false} InsertLength(o: Order, m: Member, ms: seq<Member>)
    ensures SumLengths(Insert(o, m, ms)) == MemberLength(m) + SumLengths(ms)
  {
    if ms != [] && KeyBelow(o, ms[0], m) {
      InsertLength(o, m, ms[1..]);
      assert ([ms[0]] + Insert(o, m, ms[1..]))[1..] == Insert(o, m, ms[1..]);
    } else {
      assert ([m] + ms)[1..] == ms;
    }
  }

  lemma {:induction false} SortLength(o: Order, ms: seq<Member>)
    ensures SumLengths(SortMembers(o, ms)) == SumLengths(ms)
  {
    if ms != [] {
      SortLength(o, ms[1..]);
      InsertLength(o, ms[0], SortMembers(o, ms[1..]));
    }
  }

  lemma {:induction false} NormalLength(o: Order, v: Json)
    ensures Length(Normal(o, v)) == Length(v)
    decreases v, 1
  {
    match v
    case Arr(items) =>
      NormalItemsLength(o, items);
      ArrayLength(items);
      ArrayLength(NormalItems(o, items));
    case Obj(members) =>
      NormalMembersLength(o, members);
      var nm := NormalMembers(o, members);
      SortLength(o, nm);
      ObjectLength(members);
      ObjectLength(SortMembers(o, nm));
    case _ =>
  }

  lemma {:induction false} NormalItemsLength(o: Order, items: seq<Json>)
    ensures SumItems(NormalItems(o, items)) == SumItems(items)
    decreases items, 0
  {
    if items != [] {
      NormalLength(o, items[0]);
      NormalItemsLength(o, items[1..]);
      assert NormalItems(o, items)[1..] == NormalItems(o, items[1..]);
    }
  }

  lemma {:induction false} NormalMembersLength(o: Order, ms: seq<Member>)
    ensures SumLengths(NormalMembers(o, ms)) == SumLengths(ms)
    decreases ms, 0
  {
    if ms != [] {
      NormalLength(o, ms[0].value);
      NormalMembersLength(o, ms[1..]);
      MemberLengthIs(ms[0]);
      MemberLengthIs(NormalMembers(o, ms)[0]);
      assert NormalMembers(o, ms)[1..] == NormalMembers(o, ms[1..]);
    }
  }

  // ---- Decoding and printing again never gives a longer text ----

  lemma {:induction false} EmitCharsAppend(a: string, b: string)
    ensures |EmitChars(a + b, "")| == |EmitChars(a, "")| + |EmitChars(b, "")|
  {
    if a == [] {
      assert a + b == b;
    } else {
      EmitCharsAppend(a[1..], b);
      assert (a + b)[1..] == a[1..] + b;
    }
  }

  lemma {:induction false} WideChars(s: string)
    requires forall c :: c in s ==> c as int >= 0x80
    ensures |EmitChars(s, "")| == |s|
  {
    if s != [] {
      forall c | c in s[1..] ensures c in s { }
      assert s[0] in s;
      WideChars(s[1..]);
    }
  }

  lemma {:induction false} OneChar(c: char)
    ensures EmitChars([c], "") == Escape(c)
  {
    assert [c][1..] == [];
  }

  lemma {:induction false} UnicodeShrinks(t: string)
    requires ParseUnicode(t).Ok?
    ensures |EmitChars(ParseUnicode(t).value, "")| + |ParseUnicode(t).rest| <= |t| + 2
  {
    var s := ParseUnicode(t).value;
    if |s| == 1 {
      OneChar(s[0]);
      assert s == [s[0]];
    } else {
      WideChars(s);
    }
  }

  lemma {:induction false} ShortEscape(t: string)
    requires t != [] && t[0] != 'u' && ParseEscape(t).Ok?
    ensures var r := ParseEscape(t); |r.value| == 1 && |Escape(r.value[0])| <= 2 && r.rest == t[1..]
  {
  }

  lemma {:induction false} EscapeShrinks(t: string)
    requires ParseEscape(t).Ok?
    ensures |EmitChars(ParseEscape(t).value, "")| + |ParseEscape(t).rest| <= |t| + 1
  {
    var r := ParseEscape(t);
    if t[0] == 'u' {
      UnicodeShrinks(t[1..]);
    } else {
      ShortEscape(t);
      OneChar(r.value[0]);
      assert r.value == [r.value[0]];
    }
  }

  lemma {:induction false} CharsShrink(t: string)
    requires ParseChars(t).Ok?
    ensures |EmitChars(ParseChars(t).value, "")| + 1 + |ParseChars(t).rest| <= |t|
    decreases |t|
  {
    if t[0] == '\"' {
    } else if t[0] == '\\' {
      EscapeShrinks(t[1..]);
      var Ok(cs, more) := ParseEscape(t[1..]);
      CharsShrink(more);
      EmitCharsAppend(cs, ParseChars(more).value);
    } else {
      CharsShrink(t[1..]);
      var s := ParseChars(t).value;
      assert s[1..] == ParseChars(t[1..]).value;
    }
  }

  lemma {:induction false} StringShrinks(t: string)
    requires ParseString(t).Ok?
    ensures StringLength(ParseString(t).value) + |ParseString(t).rest| <= |t|
  {
    CharsShrink(t[1..]);
    StringLengthIs(ParseString(t).value);
  }

  lemma {:induction false} DigitsShrink(ds: string)
    requires ds != [] && forall i :: 0 <= i < |ds| ==> IsDigit(ds[i])
    ensures |Digits(NatValue(ds))| <= |ds|
  {
    if NatValue(ds) >= 10 {
      var front := ds[..|ds| - 1];
      assert NatValue(ds) / 10 == NatValue(front);
      DigitsShrink(front);
    }
  }

  lemma {:induction false} UnsignedShrinks(u: string, negative: bool)
    requires ParseUnsigned(u, negative).Ok?
    ensures Length(ParseUnsigned(u, negative).value) + |ParseUnsigned(u, negative).rest|
            <= |u| + if negative then 1 else 0
  {
    var r := ParseUnsigned(u, negative);
    if r.value.Int? {
      var ds := u[..DigitRun(u)];
      DigitsShrink(ds);
      assert Print(r.value) == Decimal(r.value.n);
      assert |Decimal(r.value.n)| <= |ds| + if negative then 1 else 0;
    }
  }

  lemma {:induction false} NumberShrinks(t: string)
    requires ParseNumber(t).Ok?
    ensures Length(ParseNumber(t).value) + |ParseNumber(t).rest| <= |t|
  {
    if t != [] && t[0] == '-' {
      UnsignedShrinks(t[1..], true);
    } else {
      UnsignedShrinks(t, false);
    }
  }

  lemma {:induction false} ValueShrinks(t: string)
    requires ParseValue(t).Ok?
    ensures Length(ParseValue(t).value) + |ParseValue(t).rest| <= |t|
    decreases |t|, 0
  {
    if t[0] == '\"' {
      StringShrinks(t);
    } else if t[0] == '[' {
      var u := Skip(t[1..]);
      if u[0] != ']' {
        ItemsShrink(u);
        ArrayLength(ParseItems(u).value);
      }
    } else if t[0] == '{' {
      var u := Skip(t[1..]);
      if u[0] != '}' {
        MembersShrink(u);
        ObjectLength(ParseMembers(u).value);
      }
    } else if t[0] != 'n' && t[0] != 't' && t[0] != 'f' {
      NumberShrinks(t);
    }
  }

  lemma {:induction false} ItemsShrink(t: string)
    requires ParseItems(t).Ok?
    ensures var items := ParseItems(t).value;
            items != [] && SumItems(items) + |items| + |ParseItems(t).rest| <= |t|
    decreases |t|, 1
  {
    ValueShrinks(t);
    var Ok(v, more) := ParseValue(t);
    var u := Skip(more);
    if u[0] == ']' {
      assert SumItems([v]) == Length(v) + SumItems([v][1..]);
    } else {
      ItemsShrink(Skip(u[1..]));
      var vs := ParseItems(Skip(u[1..])).value;
      assert ([v] + vs)[1..] == vs;
    }
  }

  lemma {:induction false} MemberShrinks(t: string)
    requires ParseMember(t).Ok?
    ensures MemberLength(ParseMember(t).value) + |ParseMember(t).rest| <= |t|
    decreases |t|, 1
  {
    StringShrinks(t);
    var u := Skip(ParseString(t).rest);
    ValueShrinks(Skip(u[1..]));
    MemberLengthIs(ParseMember(t).value);
  }

  lemma {:induction false} MembersShrink(t: string)
    requires ParseMembers(t).Ok?
    ensures var ms := ParseMembers(t).value;
            ms != [] && SumLengths(ms) + |ms| + |ParseMembers(t).rest| <= |t|
    decreases |t|, 2
  {
    MemberShrinks(t);
    var Ok(m, more) := ParseMember(t);
    var u := Skip(more);
    if u[0] == '}' {
      assert SumLengths([m]) == MemberLength(m) + SumLengths([m][1..]);
    } else {
      MembersShrink(Skip(u[1..]));
      var ms := ParseMembers(Skip(u[1..])).value;
      assert ([m] + ms)[1..] == ms;
    }
  }

  /** Canonical text is never longer than the text it was decoded from. */
  lemma {:induction false} DocumentShrinks(o: Order, t: string)
    requires ParseDocument(t).Document?
    ensures |Print(Normal(o, ParseDocument(t).value))| <= |t|
  {
    ValueShrinks(Skip(t));
    NormalLength(o, ParseDocument(t).value);
  }
}
