/** The native custody printer: the recursive `append`, the escape rewriting that makes the C JSON
    writer agree with serde_json, and the hand-written capability message. */
module CustodySignature {
  import opened Json
  import opened JsonText
  import opened JsonLaws
  import opened Canonical

  // ---- The C writer's strings and their rewriting ----

  function UpperHex(n: int): char
    requires 0 <= n < 16
  {
    "0123456789ABCDEF"[n]
  }

  /** The C writer escapes as serde_json does, but with upper-case hex digits. */
  function WriterEscape(c: char): (r: string)
    ensures |r| == |Escape(c)|
  {
    if |Escape(c)| == 6 then "\\u00" + [UpperHex(c as int / 16), UpperHex(c as int % 16)] else Escape(c)
  }

  function WriterChars(s: string): string {
    if s == [] then "" else WriterEscape(s[0]) + WriterChars(s[1..])
  }

  function WriterString(s: string): string { ['\"'] + WriterChars(s) + ['\"'] }

  /** What the C writer produces for a value that is neither an array nor an object. */
  function WriterScalar(v: Json): string
    requires !v.Arr? && !v.Obj?
  {
    match v
    case Str(s) => WriterString(s)
    case _ => Print(v)
  }

  function LowerHex(c: char): char {
    if 'A' <= c <= 'F' then (c as int - 'A' as int + 'a' as int) as char else c
  }

  /** The rewriting, text by text: `\u` escapes get lower-case digits, every other escape is skipped
      whole so that an escaped backslash never starts a new escape. */
  function Lowered(t: string): (r: string)
    ensures |r| == |t|
    decreases |t|
  {
    if |t| < 2 then t
    else if t[0] != '\\' then [t[0]] + Lowered(t[1..])
    else if t[1] == 'u' && |t| > 5 then
      t[..2] + [LowerHex(t[2]), LowerHex(t[3]), LowerHex(t[4]), LowerHex(t[5])] + Lowered(t[6..])
    else t[..2] + Lowered(t[2..])
  }

  /** One turn of the rewriting loop: `n` characters at `i` are finished. */
  lemma {:induction false} LoweredStep(r: string, i: nat, changed: string, n: nat)
    requires i + n <= |r| == |changed| && changed[..i] == r[..i]
    requires Lowered(r[i..]) == changed[i..i + n] + Lowered(changed[i + n..])
    ensures r[..i] + Lowered(r[i..]) == changed[..i + n] + Lowered(changed[i + n..])
  {
    assert changed[..i + n] == changed[..i] + changed[i..i + n];
  }

  lemma {:induction false} LoweredCases(t: string)
    ensures |t| < 2 ==> Lowered(t) == t
    ensures |t| >= 2 && t[0] != '\\' ==> Lowered(t) == t[..1] + Lowered(t[1..])
    ensures |t| > 5 && t[0] == '\\' && t[1] == 'u' ==>
              Lowered(t) == t[..2] + [LowerHex(t[2]), LowerHex(t[3]), LowerHex(t[4]), LowerHex(t[5])]
                            + Lowered(t[6..])
    ensures |t| >= 2 && t[0] == '\\' && !(t[1] == 'u' && |t| > 5) ==> Lowered(t) == t[..2] + Lowered(t[2..])
  {
  }

  lemma {:induction false} LoweredPlainAt(r: string, i: nat)
    requires i + 1 < |r| && r[i] != '\\'
    ensures Lowered(r[i..]) == r[i..i + 1] + Lowered(r[i + 1..])
  {
    hide Lowered;
    LoweredCases(r[i..]);
    assert r[i..][1..] == r[i + 1..] && r[i..][..1] == r[i..i + 1];
  }

  lemma {:induction false} LoweredEscapeAt(r: string, i: nat)
    requires i + 1 < |r| && r[i] == '\\' && !(r[i + 1] == 'u' && i + 5 < |r|)
    ensures Lowered(r[i..]) == r[i..i + 2] + Lowered(r[i + 2..])
  {
    hide Lowered;
    LoweredCases(r[i..]);
    assert r[i..][2..] == r[i + 2..] && r[i..][..2] == r[i..i + 2];
  }

  lemma {:induction false} LoweredUnicodeAt(r: string, i: nat, changed: string)
    requires i + 5 < |r| == |changed| && r[i] == '\\' && r[i + 1] == 'u'
    requires changed[..i + 2] == r[..i + 2] && changed[i + 6..] == r[i + 6..]
    requires changed[i + 2..i + 6] == [LowerHex(r[i + 2]), LowerHex(r[i + 3]), LowerHex(r[i + 4]), LowerHex(r[i + 5])]
    ensures Lowered(r[i..]) == changed[i..i + 6] + Lowered(changed[i + 6..])
  {
    hide Lowered, LowerHex;
    LoweredCases(r[i..]);
    assert r[i..][6..] == r[i + 6..] && r[i..][..2] == r[i..i + 2];
    assert changed[i..i + 2] == changed[..i + 2][i..] && r[i..i + 2] == r[..i + 2][i..];
    assert changed[i..i + 6] == changed[i..i + 2] + changed[i + 2..i + 6];
  }

  method SerdeEscapes(value: string) returns (r: string)
    ensures r == Lowered(value)
  {
    hide Lowered, LowerHex;
    r := value;
    var i := 0;
    while i + 1 < |r|
      invariant 0 <= i <= |r| == |value|
      invariant r[..i] + Lowered(r[i..]) == Lowered(value)
    {
      var changed, n := r, 2;
      if r[i] != '\\' {
        n := 1;
        LoweredPlainAt(r, i);
      } else if r[i + 1] == 'u' && i + 5 < |r| {
        n := 6;
        changed := LowerDigits(r, i + 2);
        LoweredUnicodeAt(r, i, changed);
      } else {
        LoweredEscapeAt(r, i);
      }
      LoweredStep(r, i, changed, n);
      r, i := changed, i + n;
    }
    LoweredCases(r[i..]);
    assert r == r[..i] + r[i..];
  }

  method LowerDigits(text: string, start: nat) returns (r: string)
    requires start + 4 <= |text|
    ensures |r| == |text| && r[..start] == text[..start] && r[start + 4..] == text[start + 4..]
    ensures r[start..start + 4] == [LowerHex(text[start]), LowerHex(text[start + 1]),
                                    LowerHex(text[start + 2]), LowerHex(text[start + 3])]
  {
    r := text;
    for j := start to start + 4
      invariant |r| == |text|
      invariant forall k :: 0 <= k < |text| ==> r[k] == if start <= k < j then LowerHex(text[k]) else text[k]
    {
      if 'A' <= r[j] <= 'F' {
        r := r[j := (r[j] as int - 'A' as int + 'a' as int) as char];
      }
    }
  }

  lemma {:induction false} LoweredWriterChars(s: string)
    ensures Lowered(WriterChars(s) + ['\"']) == EmitChars(s, ['\"'] + "")
    decreases |s|
  {
    if s == [] {
      assert WriterChars(s) + ['\"'] == ['\"'];
    } else {
      var more := WriterChars(s[1..]) + ['\"'];
      var t := WriterChars(s) + ['\"'];
      assert t == WriterEscape(s[0]) + more;
      LoweredWriterChars(s[1..]);
      LoweredEscape(s[0], more);
    }
  }

  lemma {:induction false} LoweredEscape(c: char, more: string)
    requires more != []
    ensures Lowered(WriterEscape(c) + more) == Escape(c) + Lowered(more)
  {
    var e := WriterEscape(c);
    var t := e + more;
    if |e| == 1 {
      assert t[1..] == more;
    } else if |e| == 2 {
      assert t[1] != 'u' && t[..2] == e && t[2..] == more;
    } else {
      assert t[..2] == "\\u" && t[6..] == more;
      assert LowerHex(t[4]) == Hex(c as int / 16) && LowerHex(t[5]) == Hex(c as int % 16);
      assert Escape(c) == "\\u" + ['0', '0', Hex(c as int / 16), Hex(c as int % 16)];
    }
  }

  lemma {:induction false} LoweredPlain(t: string)
    requires '\\' !in t
    ensures Lowered(t) == t
    decreases |t|
  {
    if |t| >= 2 {
      LoweredPlain(t[1..]);
      assert t == [t[0]] + t[1..];
    }
  }

  /** Rewriting the C writer's text gives exactly the shared canonical printing of a scalar, including
      strings whose own characters look like escapes. */
  lemma {:induction false} LoweredScalar(v: Json)
    requires !v.Arr? && !v.Obj?
    ensures Lowered(WriterScalar(v)) == Print(v)
  {
    hide Lowered, Digits, WriterChars;
    match v
    case Str(s) => LoweredString(s);
    case Int(n) =>
      LoweredNumber(n);
      assert Decimal(n) + "" == Decimal(n);
    case _ => LoweredPlain(Print(v));
  }

  lemma {:induction false} LoweredNumber(n: int)
    ensures Lowered(Decimal(n)) == Decimal(n)
  {
    hide Lowered, Digits;
    DigitsRead(if n < 0 then -n else n);
    assert forall c :: c in Digits(if n < 0 then -n else n) ==> IsDigit(c);
    LoweredPlain(Decimal(n));
  }

  lemma {:induction false} LoweredString(s: string)
    ensures Lowered(WriterString(s)) == EmitString(s, "")
  {
    hide WriterChars, EmitChars;
    LoweredWriterChars(s);
    var inner := WriterChars(s) + ['\"'];
    assert WriterString(s) == ['\"'] + inner && (['\"'] + inner)[1..] == inner;
  }

  // ---- The recursive printer ----

  method Scalar(v: Json) returns (ok: bool, text: string)
    requires !v.Arr? && !v.Obj?
    ensures ok <==> !v.Real?
    ensures ok ==> text == Print(v)
  {
    if v.Real? { return false, ""; }
    text := SerdeEscapes(WriterScalar(v));
    LoweredScalar(v);
    ok := true;
  }

  /** Sorting looks at keys only, so it commutes with normalising the values. */
  lemma {:induction false} InsertNormal(o: Order, m: Member, ms: seq<Member>)
    ensures NormalMembers(o, Insert(o, m, ms))
            == Insert(o, Member(m.key, Normal(o, m.value)), NormalMembers(o, ms))
  {
    if ms != [] && KeyBelow(o, ms[0], m) {
      InsertNormal(o, m, ms[1..]);
      assert NormalMembers(o, ms)[1..] == NormalMembers(o, ms[1..]);
      assert Insert(o, m, ms)[1..] == Insert(o, m, ms[1..]);
    } else {
      assert Insert(o, m, ms)[1..] == ms;
    }
  }

  lemma {:induction false} SortNormal(o: Order, ms: seq<Member>)
    ensures NormalMembers(o, SortMembers(o, ms)) == SortMembers(o, NormalMembers(o, ms))
  {
    if ms != [] {
      SortNormal(o, ms[1..]);
      InsertNormal(o, ms[0], SortMembers(o, ms[1..]));
      assert NormalMembers(o, ms)[1..] == NormalMembers(o, ms[1..]);
    }
  }

  predicate NonDescending(o: Order, ms: seq<Member>) {
    forall i, j :: 0 <= i < j < |ms| ==> !KeyBelow(o, ms[j], ms[i])
  }

  lemma {:induction false} NotBelowTransitive(a: seq<int>, b: seq<int>, c: seq<int>)
    requires !Below(b, a) && !Below(c, b)
    ensures !Below(c, a)
  {
    BelowTotal(a, b);
    BelowTotal(b, c);
    BelowTotal(a, c);
    if Below(a, b) && Below(b, c) { BelowTransitive(a, b, c); }
  }

  lemma {:induction false} InsertNonDescending(o: Order, m: Member, ms: seq<Member>)
    requires NonDescending(o, ms)
    ensures NonDescending(o, Insert(o, m, ms))
  {
    hide Below, Rank;
    if ms != [] {
      BelowTotal(Rank(o, ms[0].key), Rank(o, m.key));
      var r := Insert(o, m, ms);
      if KeyBelow(o, ms[0], m) {
        InsertNonDescending(o, m, ms[1..]);
        var rest := Insert(o, m, ms[1..]);
        assert multiset(rest) == multiset(ms[1..] + [m]);
        SameElements(rest, ms[1..] + [m]);
        forall j | 0 <= j < |rest| ensures !KeyBelow(o, rest[j], ms[0]) {
          assert rest[j] in ms[1..] + [m];
        }
      } else {
        forall j | 0 <= j < |ms| ensures !KeyBelow(o, ms[j], m) {
          if 0 < j {
            NotBelowTransitive(Rank(o, m.key), Rank(o, ms[0].key), Rank(o, ms[j].key));
          }
        }
      }
    }
  }

  lemma {:induction false} SortNonDescending(o: Order, ms: seq<Member>)
    ensures NonDescending(o, SortMembers(o, ms))
  {
    if ms != [] {
      SortNonDescending(o, ms[1..]);
      InsertNonDescending(o, ms[0], SortMembers(o, ms[1..]));
    }
  }

  predicate RankApart(o: Order, x: Member, ms: seq<Member>) {
    forall y :: y in ms ==> Rank(o, x.key) != Rank(o, y.key)
  }

  lemma {:induction false} ConsDistinct(o: Order, x: Member, ms: seq<Member>)
    ensures DistinctRanks(o, [x] + ms) <==> DistinctRanks(o, ms) && RankApart(o, x, ms)
  {
    var r := [x] + ms;
    if DistinctRanks(o, r) {
      forall i, j | 0 <= i < j < |ms| ensures Rank(o, ms[i].key) != Rank(o, ms[j].key) {
        assert r[i + 1] == ms[i] && r[j + 1] == ms[j];
      }
      forall y | y in ms ensures Rank(o, x.key) != Rank(o, y.key) {
        var j :| 0 <= j < |ms| && ms[j] == y;
        assert r[0] == x && r[j + 1] == y;
      }
    }
  }

  lemma {:induction false} InsertApart(o: Order, x: Member, m: Member, ms: seq<Member>)
    ensures RankApart(o, x, Insert(o, m, ms))
            <==> RankApart(o, x, ms) && Rank(o, x.key) != Rank(o, m.key)
  {
    var r := Insert(o, m, ms);
    assert multiset(r) == multiset(ms + [m]);
    SameElements(r, ms + [m]);
    assert forall y :: y in r <==> y in ms || y == m;
  }

  lemma {:induction false} InsertDistinct(o: Order, m: Member, ms: seq<Member>)
    ensures DistinctRanks(o, Insert(o, m, ms)) <==> DistinctRanks(o, ms) && RankApart(o, m, ms)
  {
    hide DistinctRanks, Rank;
    if ms != [] && KeyBelow(o, ms[0], m) {
      InsertDistinct(o, m, ms[1..]);
      ConsDistinct(o, ms[0], Insert(o, m, ms[1..]));
      InsertApart(o, ms[0], m, ms[1..]);
      ConsDistinct(o, ms[0], ms[1..]);
      assert ms == [ms[0]] + ms[1..];
      assert forall y :: y in ms <==> y in ms[1..] || y == ms[0];
    } else {
      ConsDistinct(o, m, ms);
      assert Insert(o, m, ms) == [m] + ms;
    }
  }

  lemma {:induction false} SortDistinct(o: Order, ms: seq<Member>)
    ensures DistinctRanks(o, SortMembers(o, ms)) <==> DistinctRanks(o, ms)
  {
    hide DistinctRanks, Insert;
    if ms != [] {
      var rest := SortMembers(o, ms[1..]);
      SortDistinct(o, ms[1..]);
      InsertDistinct(o, ms[0], rest);
      SameElements(rest, ms[1..]);
      ConsDistinct(o, ms[0], ms[1..]);
      assert ms == [ms[0]] + ms[1..];
    }
  }

  lemma {:induction false} EqualCodes(a: string, b: string)
    ensures Codes(a) == Codes(b) <==> a == b
  {
    if Codes(a) == Codes(b) {
      assert |a| == |b|;
      forall i | 0 <= i < |a| ensures a[i] == b[i] {
        assert Codes(a)[i] == Codes(b)[i];
      }
    }
  }

  /** In a sorted sequence, looking at neighbours finds every duplicate. */
  lemma {:induction false} NeighboursDecide(ms: seq<Member>)
    ensures var keys := SortMembers(ByBytes, ms);
            DistinctRanks(ByBytes, ms) <==> forall i :: 0 < i < |keys| ==> keys[i - 1].key != keys[i].key
  {
    var keys := SortMembers(ByBytes, ms);
    SortDistinct(ByBytes, ms);
    SortNonDescending(ByBytes, ms);
    if forall i :: 0 < i < |keys| ==> keys[i - 1].key != keys[i].key {
      forall i | 0 <= i < |keys| - 1 ensures KeyBelow(ByBytes, keys[i], keys[i + 1]) {
        assert keys[i + 1 - 1].key != keys[i + 1].key;
        EqualCodes(keys[i].key, keys[i + 1].key);
        BelowTotal(Codes(keys[i].key), Codes(keys[i + 1].key));
        assert !KeyBelow(ByBytes, keys[i + 1], keys[i]);
      }
      AscendingSteps(ByBytes, keys);
      AscendingIsDistinct(ByBytes, keys);
    }
  }

  function ArrayPrefix(items: seq<Json>, i: nat): string
    requires i <= |items|
  {
    EmitItems(NormalItems(ByBytes, items)[..i], "")
  }

  lemma {:induction false} ArrayPrefixStart(items: seq<Json>)
    ensures ArrayPrefix(items, 0) == ""
  {
  }

  lemma {:induction false} ArrayPrefixNext(items: seq<Json>, i: nat)
    requires i < |items|
    ensures ArrayPrefix(items, i + 1)
            == ArrayPrefix(items, i) + (if i == 0 then "" else ",") + Form(Custody, items[i])
  {
    hide EmitItems, NormalItems, Print;
    var ni := NormalItems(ByBytes, items);
    assert ni[..i + 1] == ni[..i] + [ni[i]];
    EmitItemsSnoc(ni[..i], ni[i]);
  }

  lemma {:induction false} ArrayPrefixAll(items: seq<Json>)
    ensures ['['] + ArrayPrefix(items, |items|) + [']'] == Form(Custody, Arr(items))
  {
    var ni := NormalItems(ByBytes, items);
    assert ni[..|items|] == ni;
    EmitItemsSplit(ni, [']'] + "");
  }

  function ObjectPrefix(keys: seq<Member>, i: nat): string
    requires i <= |keys|
  {
    EmitMembers(NormalMembers(ByBytes, keys)[..i], "")
  }

  lemma {:induction false} ObjectPrefixStart(keys: seq<Member>)
    ensures ObjectPrefix(keys, 0) == ""
  {
  }

  lemma {:induction false} EmitMemberIs(m: Member)
    ensures EmitMember(m, "") == Print(Str(m.key)) + [':'] + Print(m.value)
  {
    EmitStringSplit(m.key, [':'] + Emit(m.value, ""));
  }

  lemma {:induction false} ObjectPrefixNext(keys: seq<Member>, i: nat)
    requires i < |keys|
    ensures ObjectPrefix(keys, i + 1)
            == ObjectPrefix(keys, i) + (if i == 0 then "" else ",")
               + (Print(Str(keys[i].key)) + [':'] + Form(Custody, keys[i].value))
  {
    hide EmitMembers, EmitMember, NormalMembers, Print;
    var nk := NormalMembers(ByBytes, keys);
    assert nk[..i + 1] == nk[..i] + [nk[i]];
    EmitMembersSnoc(nk[..i], nk[i]);
    EmitMemberIs(nk[i]);
  }

  lemma {:induction false} ObjectPrefixAll(members: seq<Member>)
    ensures var keys := SortMembers(ByBytes, members);
            ['{'] + ObjectPrefix(keys, |keys|) + ['}'] == Form(Custody, Obj(members))
  {
    hide SortMembers, NormalMembers;
    var keys := SortMembers(ByBytes, members);
    SortNormal(ByBytes, members);
    var nk := NormalMembers(ByBytes, keys);
    assert nk[..|keys|] == nk;
    EmitMembersSplit(nk, ['}'] + "");
  }

  /** The native printer: it succeeds on exactly the values the custody form accepts at this depth, and
      then appends their canonical text. */
  method Append(v: Json, output: string, depth: nat) returns (ok: bool, out: string)
    ensures ok <==> Accepts(Custody, v, 128 - depth)
    ensures ok ==> out == output + Form(Custody, v)
    decreases v, 1
  {
    out := output;
    if depth > 128 { return false, out; }
    match v
    case Obj(members) =>
      ok, out := AppendObject(members, output, depth);
    case Arr(items) =>
      ok, out := AppendArray(items, output, depth);
    case _ =>
      var text;
      ok, text := Scalar(v);
      out := out + text;
  }

  method AppendArray(items: seq<Json>, output: string, depth: nat) returns (ok: bool, out: string)
    requires depth <= 128
    ensures ok <==> Accepts(Custody, Arr(items), 128 - depth)
    ensures ok ==> out == output + Form(Custody, Arr(items))
    decreases items, 0
  {
    hide Form, ArrayPrefix;
    ArrayPrefixStart(items);
    out := output + ['['];
    var i := 0;
    while i < |items|
      invariant 0 <= i <= |items|
      invariant forall k :: 0 <= k < i ==> Accepts(Custody, items[k], 128 - depth - 1)
      invariant out == output + (['['] + ArrayPrefix(items, i))
    {
      if i > 0 { out := out + [',']; }
      ok, out := Append(items[i], out, depth + 1);
      if !ok { return false, out; }
      ArrayPrefixNext(items, i);
      i := i + 1;
    }
    ArrayPrefixAll(items);
    out := out + [']'];
    ok := true;
  }

  method AppendObject(members: seq<Member>, output: string, depth: nat) returns (ok: bool, out: string)
    requires depth <= 128
    ensures ok <==> Accepts(Custody, Obj(members), 128 - depth)
    ensures ok ==> out == output + Form(Custody, Obj(members))
    decreases members, 0
  {
    hide Form, ObjectPrefix, SortMembers, Print, DistinctRanks, Accepts;
    var keys := SortMembers(ByBytes, members);
    NeighboursDecide(members);
    SameElements(keys, members);
    ObjectPrefixStart(keys);
    out := output + ['{'];
    var i := 0;
    while i < |keys|
      invariant 0 <= i <= |keys|
      invariant forall k :: 0 < k < i ==> keys[k - 1].key != keys[k].key
      invariant forall k :: 0 <= k < i ==> Accepts(Custody, keys[k].value, 128 - depth - 1)
      invariant out == output + (['{'] + ObjectPrefix(keys, i))
    {
      assert keys[i] in members;
      if i > 0 && keys[i - 1].key == keys[i].key {
        RejectDuplicates(members, 128 - depth);
        return false, out;
      }
      if i > 0 { out := out + [',']; }
      ok, out := AppendMember(keys[i], out, depth);
      if !ok {
        RejectMember(members, keys[i], 128 - depth);
        return false, out;
      }
      ObjectPrefixNext(keys, i);
      OneMember(output, ObjectPrefix(keys, i), if i == 0 then "" else ",",
                Print(Str(keys[i].key)) + [':'] + Form(Custody, keys[i].value));
      i := i + 1;
    }
    ObjectPrefixAll(members);
    out := out + ['}'];
    AcceptFromSorted(members, keys, 128 - depth);
    ok := true;
  }

  /** One key and its value. */
  method AppendMember(m: Member, output: string, depth: nat) returns (ok: bool, out: string)
    requires depth <= 128
    ensures ok <==> Accepts(Custody, m.value, 128 - depth - 1)
    ensures ok ==> out == output + (Print(Str(m.key)) + [':'] + Form(Custody, m.value))
    decreases m, 0
  {
    hide Form, Print, Accepts;
    var name;
    ok, name := Scalar(Str(m.key));
    out := output + name + [':'];
    ok, out := Append(m.value, out, depth + 1);
    assert output + name + [':'] + Form(Custody, m.value) == output + (name + [':'] + Form(Custody, m.value));
  }

  /** The pieces one turn of the loop appends, regrouped. */
  lemma {:induction false} OneMember(output: string, prefix: string, comma: string, member: string)
    ensures output + (['{'] + prefix) + comma + member == output + (['{'] + (prefix + comma + member))
  {
    assert ['{'] + (prefix + comma + member) == ['{'] + prefix + comma + member;
  }

  lemma {:induction false} RejectDuplicates(members: seq<Member>, depth: int)
    requires !DistinctRanks(ByBytes, members)
    ensures !Accepts(Custody, Obj(members), depth)
  {
    hide DistinctRanks;
  }

  lemma {:induction false} RejectMember(members: seq<Member>, m: Member, depth: int)
    requires m in members && !Accepts(Custody, m.value, depth - 1)
    ensures !Accepts(Custody, Obj(members), depth)
  {
  }

  lemma {:induction false} AcceptFromSorted(members: seq<Member>, keys: seq<Member>, depth: int)
    requires depth >= 0 && DistinctRanks(ByBytes, members)
    requires forall m :: m in keys <==> m in members
    requires forall k :: 0 <= k < |keys| ==> Accepts(Custody, keys[k].value, depth - 1)
    ensures Accepts(Custody, Obj(members), depth)
  {
    forall i | 0 <= i < |members| ensures Accepts(Custody, members[i].value, depth - 1) {
      assert members[i] in keys;
    }
  }

  // ---- Capability messages ----

  /** The hand-written text of a capability. */
  function CapabilityMessage(verb: string, key: string, expires: Word, name: string): string {
    "{\"expires\":" + Decimal(expires) + ",\"key\":" + EmitString(key, "")
    + ",\"method\":" + EmitString(verb, "") + ",\"name\":" + EmitString(name, "") + "}"
  }

  function CapabilityObject(verb: string, key: string, expires: Word, name: string): Json {
    Obj([Member("method", Str(verb)), Member("key", Str(key)),
         Member("expires", Int(expires)), Member("name", Str(name))])
  }

  function CapabilityMembers(verb: string, key: string, expires: Word, name: string): (ms: seq<Member>)
    ensures |ms| == 4
  {
    [Member("expires", Int(expires)), Member("key", Str(key)),
     Member("method", Str(verb)), Member("name", Str(name))]
  }

  lemma {:induction false} CapabilityOrder(ms: seq<Member>)
    requires |ms| == 4
    requires ms[0].key == "expires" && ms[1].key == "key" && ms[2].key == "method" && ms[3].key == "name"
    ensures Ascending(ByBytes, ms) && DistinctRanks(ByBytes, ms)
  {
    BelowAtFirst("expires", "key");
    BelowAtFirst("key", "method");
    BelowAtFirst("method", "name");
    AscendingSteps(ByBytes, ms);
    AscendingIsDistinct(ByBytes, ms);
  }

  lemma {:induction false} SortFour(given: seq<Member>, ms: seq<Member>)
    requires |given| == |ms| == 4
    requires given[0] == ms[2] && given[1] == ms[1] && given[2] == ms[0] && given[3] == ms[3]
    requires Ascending(ByBytes, ms) && DistinctRanks(ByBytes, ms)
    ensures DistinctRanks(ByBytes, given) && SortMembers(ByBytes, given) == ms
  {
    FourDistinct(given, ms);
    hide DistinctRanks, Ascending, SortMembers, Rank;
    SortAscending(ByBytes, given);
    SameElements(SortMembers(ByBytes, given), given);
    AscendingUnique(ByBytes, SortMembers(ByBytes, given), ms);
  }

  lemma {:induction false} FourDistinct(given: seq<Member>, ms: seq<Member>)
    requires |given| == |ms| == 4
    requires given[0] == ms[2] && given[1] == ms[1] && given[2] == ms[0] && given[3] == ms[3]
    requires DistinctRanks(ByBytes, ms)
    ensures DistinctRanks(ByBytes, given)
  {
    hide Rank;
  }

  predicate Scalars(ms: seq<Member>) {
    forall i :: 0 <= i < |ms| ==> ms[i].value.Str? || ms[i].value.Int?
  }

  lemma {:induction false} NormalScalars(o: Order, ms: seq<Member>)
    requires Scalars(ms)
    ensures NormalMembers(o, ms) == ms
  {
  }

  lemma {:induction false} AcceptScalars(ms: seq<Member>)
    requires Scalars(ms) && DistinctRanks(ByBytes, ms)
    ensures Accepts(Custody, Obj(ms), 128)
  {
  }

  lemma {:induction false} CapabilityNormal(verb: string, key: string, expires: Word, name: string)
    ensures Normal(ByBytes, CapabilityObject(verb, key, expires, name))
            == Obj(CapabilityMembers(verb, key, expires, name))
    ensures Accepts(Custody, CapabilityObject(verb, key, expires, name), 128)
  {
    hide SortMembers, DistinctRanks, Ascending, NormalMembers, Accepts, Rank;
    var ms := CapabilityMembers(verb, key, expires, name);
    var given := CapabilityObject(verb, key, expires, name).members;
    CapabilityOrder(ms);
    SortFour(given, ms);
    NormalScalars(ByBytes, given);
    AcceptScalars(given);
  }

  lemma {:induction false} CapabilityLiterals()
    ensures "{\"expires\":" == ['{'] + (['\"'] + "expires" + ['\"', ':'])
    ensures ",\"key\":" == [','] + (['\"'] + "key" + ['\"', ':'])
    ensures ",\"method\":" == [','] + (['\"'] + "method" + ['\"', ':'])
    ensures ",\"name\":" == [','] + (['\"'] + "name" + ['\"', ':'])
  {
  }

  /** The hand-written message is the canonical form of the capability's object. */
  lemma {:induction false} CapabilityMessageIsCanonical(verb: string, key: string, expires: Word, name: string)
    ensures CapabilityMessage(verb, key, expires, name)
            == Form(Custody, CapabilityObject(verb, key, expires, name))
  {
    hide Normal, EmitMember, EmitMembers, EmitString, Decimal;
    CapabilityNormal(verb, key, expires, name);
    var ms := CapabilityMembers(verb, key, expires, name);
    FourMembers(ms[0], ms[1], ms[2], ms[3]);
    assert ms == [ms[0], ms[1], ms[2], ms[3]];
    PlainMember("expires", Int(expires));
    PlainMember("key", Str(key));
    PlainMember("method", Str(verb));
    PlainMember("name", Str(name));
    CapabilityLiterals();
    Reassociate(['{'], [','], ['}'],
                ['\"'] + "expires" + ['\"', ':'], Print(Int(expires)),
                ['\"'] + "key" + ['\"', ':'], Print(Str(key)),
                ['\"'] + "method" + ['\"', ':'], Print(Str(verb)),
                ['\"'] + "name" + ['\"', ':'], Print(Str(name)));
    PrintScalars(expires, key, verb, name);
  }

  lemma {:induction false} PrintScalars(n: Word, a: string, b: string, c: string)
    ensures Print(Int(n)) == Decimal(n)
    ensures Print(Str(a)) == EmitString(a, "") && Print(Str(b)) == EmitString(b, "")
            && Print(Str(c)) == EmitString(c, "")
  {
  }

  /** Two capabilities are signed over the same message only if they are the same capability. */
  lemma {:induction false} CapabilityMessageInjective(
      verb: string, key: string, expires: Word, name: string,
      verb': string, key': string, expires': Word, name': string)
    requires CapabilityMessage(verb, key, expires, name) == CapabilityMessage(verb', key', expires', name')
    ensures verb == verb' && key == key' && expires == expires' && name == name'
  {
    CapabilityMessageIsCanonical(verb, key, expires, name);
    CapabilityMessageIsCanonical(verb', key', expires', name');
    CapabilityNormal(verb, key, expires, name);
    CapabilityNormal(verb', key', expires', name');
    FormRoundTrip(Custody, CapabilityObject(verb, key, expires, name), 128);
    FormRoundTrip(Custody, CapabilityObject(verb', key', expires', name'), 128);
    var ms := CapabilityMembers(verb, key, expires, name);
    var ms' := CapabilityMembers(verb', key', expires', name');
    assert ms == ms';
    assert ms[0] == ms'[0] && ms[1] == ms'[1] && ms[2] == ms'[2] && ms[3] == ms'[3];
  }
}
