/** JSON values as the two canonical printers see them, and the ordering of object keys.

    A `string` stands for a byte string, one `char` per byte: the C++ code works on
    `std::string`, and only codes below 0x80 are ever inspected by the printers. */
module Json {

  /** The integers the decoder holds: unsigned or signed 64-bit. */
  type Word = n: int | InWord(n)

  predicate InWord(n: int) { -0x8000_0000_0000_0000 <= n < 0x1_0000_0000_0000_0000 }

  /** `Real` is any number the decoder does not hold as a 64-bit integer. Both printers refuse it,
      so its value is not kept. */
  datatype Json =
    | Null
    | Bool(b: bool)
    | Int(n: Word)
    | Real
    | Str(s: string)
    | Arr(items: seq<Json>)
    | Obj(members: seq<Member>)

  datatype Member = Member(key: string, value: Json)

  /** The custody printer orders keys by bytes, the JCS printer by UTF-16 code units. */
  datatype Order = ByBytes | ByUtf16

  // ---- Key ranks ----

  function Codes(s: string): (r: seq<int>)
    ensures |r| == |s|
    ensures forall i :: 0 <= i < |s| ==> r[i] == s[i] as int
  {
    seq(|s|, i requires 0 <= i < |s| => s[i] as int)
  }

  /** How many bytes the lead byte announces, read as the source reads it. */
  function Utf8Width(lead: int): (n: nat)
    ensures 1 <= n <= 4
  {
    if lead < 0x80 then 1
    else if lead / 32 == 6 then 2
    else if lead / 16 == 14 then 3
    else 4
  }

  function Utf8Lead(lead: int): int {
    if lead < 0x80 then lead
    else if lead / 32 == 6 then lead % 32
    else if lead / 16 == 14 then lead % 16
    else lead % 8
  }

  function Utf8Tail(cp: int, tail: string): int
    decreases |tail|
  {
    if tail == [] then cp else Utf8Tail(cp * 64 + tail[0] as int % 64, tail[1..])
  }

  function Units(cp: int): seq<int> {
    if cp >= 0x10000 then
      [0xd800 + (cp - 0x10000) / 1024, 0xdc00 + (cp - 0x10000) % 1024]
    else
      [cp]
  }

  /** Whether the UTF-16 conversion gets through the key; it throws on a truncated sequence. */
  predicate Utf16Ok(s: string)
    decreases |s|
  {
    s == [] ||
    var n := Utf8Width(s[0] as int);
    n <= |s| && Utf16Ok(s[n..])
  }

  function Utf16(s: string): seq<int>
    requires Utf16Ok(s)
    decreases |s|
  {
    if s == [] then [] else
    var n := Utf8Width(s[0] as int);
    Units(Utf8Tail(Utf8Lead(s[0] as int), s[1..n])) + Utf16(s[n..])
  }

  function Rank(o: Order, key: string): seq<int> {
    match o
    case ByBytes => Codes(key)
    case ByUtf16 => if Utf16Ok(key) then Utf16(key) else []
  }

  predicate Ascii(s: string) {
    forall i :: 0 <= i < |s| ==> s[i] as int < 0x80
  }

  /** On ASCII keys the two orders are one order. */
  lemma {:induction false} AsciiRank(s: string)
    requires Ascii(s)
    ensures Utf16Ok(s) && Utf16(s) == Codes(s)
    ensures forall o :: Rank(o, s) == Codes(s)
    decreases |s|
  {
    if s != [] {
      AsciiRank(s[1..]);
      assert Utf8Width(s[0] as int) == 1;
      assert s[1..1] == [];
      assert Codes(s) == [s[0] as int] + Codes(s[1..]);
    }
  }

  // ---- Lexicographic order on ranks ----

  predicate Below(a: seq<int>, b: seq<int>) {
    if b == [] then false
    else if a == [] then true
    else a[0] < b[0] || (a[0] == b[0] && Below(a[1..], b[1..]))
  }

  lemma {:induction false} BelowTotal(a: seq<int>, b: seq<int>)
    ensures Below(a, b) || a == b || Below(b, a)
    ensures !(Below(a, b) && Below(b, a)) && !(Below(a, b) && a == b)
  {
    if a != [] && b != [] && a[0] == b[0] {
      BelowTotal(a[1..], b[1..]);
      assert a == [a[0]] + a[1..] && b == [b[0]] + b[1..];
    }
    if a != [] && a == b {
      BelowTotal(a[1..], b[1..]);
    }
  }

  lemma {:induction false} BelowTransitive(a: seq<int>, b: seq<int>, c: seq<int>)
    requires Below(a, b) && Below(b, c)
    ensures Below(a, c)
  {
    if a != [] && a[0] == b[0] == c[0] {
      BelowTransitive(a[1..], b[1..], c[1..]);
    }
  }

  predicate KeyBelow(o: Order, x: Member, y: Member) {
    Below(Rank(o, x.key), Rank(o, y.key))
  }

  // ---- Sorting the members of an object ----

  predicate Ascending(o: Order, ms: seq<Member>) {
    forall i, j :: 0 <= i < j < |ms| ==> KeyBelow(o, ms[i], ms[j])
  }

  predicate DistinctRanks(o: Order, ms: seq<Member>) {
    forall i, j :: 0 <= i < j < |ms| ==> Rank(o, ms[i].key) != Rank(o, ms[j].key)
  }

  function Insert(o: Order, m: Member, ms: seq<Member>): (r: seq<Member>)
    ensures multiset(r) == multiset(ms) + multiset{m}
    ensures |r| == |ms| + 1
  {
    if ms == [] then [m]
    else if KeyBelow(o, ms[0], m) then
      assert ms == [ms[0]] + ms[1..];
      [ms[0]] + Insert(o, m, ms[1..])
    else
      [m] + ms
  }

  /** The members in key order. With distinct ranks there is one such order, so which sort
      algorithm produces it does not matter. */
  function SortMembers(o: Order, ms: seq<Member>): (r: seq<Member>)
    ensures multiset(r) == multiset(ms)
    ensures |r| == |ms|
  {
    if ms == [] then [] else
    assert ms == [ms[0]] + ms[1..];
    Insert(o, ms[0], SortMembers(o, ms[1..]))
  }

  lemma {:induction false} SameElements(a: seq<Member>, b: seq<Member>)
    requires multiset(a) == multiset(b)
    ensures |a| == |b|
    ensures forall m :: m in a <==> m in b
  {
    assert |multiset(a)| == |multiset(b)|;
    forall m ensures m in a <==> m in b {
      assert m in a <==> m in multiset(a);
      assert m in b <==> m in multiset(b);
    }
  }

  lemma {:induction false} InsertAscending(o: Order, m: Member, ms: seq<Member>)
    requires Ascending(o, ms)
    requires forall x :: x in ms ==> Rank(o, x.key) != Rank(o, m.key)
    ensures Ascending(o, Insert(o, m, ms))
  {
    hide Below, Rank;
    if ms != [] {
      BelowTotal(Rank(o, ms[0].key), Rank(o, m.key));
      if KeyBelow(o, ms[0], m) {
        InsertAscending(o, m, ms[1..]);
        var rest := Insert(o, m, ms[1..]);
        assert multiset(rest) == multiset(ms[1..] + [m]);
        SameElements(rest, ms[1..] + [m]);
        forall j | 0 <= j < |rest| ensures KeyBelow(o, ms[0], rest[j]) {
          assert rest[j] in ms[1..] + [m];
        }
      } else {
        forall j | 0 <= j < |ms| ensures KeyBelow(o, m, ms[j]) {
          if 0 < j {
            BelowTransitive(Rank(o, m.key), Rank(o, ms[0].key), Rank(o, ms[j].key));
          }
        }
      }
    }
  }

  lemma {:induction false} SortAscending(o: Order, ms: seq<Member>)
    requires DistinctRanks(o, ms)
    ensures Ascending(o, SortMembers(o, ms))
  {
    if ms != [] {
      SortAscending(o, ms[1..]);
      var rest := SortMembers(o, ms[1..]);
      SameElements(rest, ms[1..]);
      forall x | x in rest ensures Rank(o, x.key) != Rank(o, ms[0].key) {
        assert x in ms[1..];
      }
      InsertAscending(o, ms[0], rest);
    }
  }

  /** Two ascending sequences with the same elements are the same sequence. */
  lemma {:induction false} AscendingUnique(o: Order, a: seq<Member>, b: seq<Member>)
    requires Ascending(o, a) && Ascending(o, b)
    requires forall m :: m in a <==> m in b
    ensures a == b
    decreases |a|
  {
    assert a != [] ==> a[0] in b;
    assert b != [] ==> b[0] in a;
    if a != [] {
      FirstIsLeast(o, a, b);
      FirstIsLeast(o, b, a);
      BelowTotal(Rank(o, a[0].key), Rank(o, b[0].key));
      assert a[0] == b[0];
      assert a == [a[0]] + a[1..] && b == [b[0]] + b[1..];
      forall m ensures m in a[1..] <==> m in b[1..] {
        TailMember(o, a, m);
        TailMember(o, b, m);
      }
      AscendingUnique(o, a[1..], b[1..]);
    }
  }

  lemma {:induction false} FirstIsLeast(o: Order, a: seq<Member>, b: seq<Member>)
    requires Ascending(o, b) && a != [] && b != [] && a[0] in b
    ensures a[0] == b[0] || KeyBelow(o, b[0], a[0])
  {
    var i :| 0 <= i < |b| && b[i] == a[0];
    if i != 0 { assert KeyBelow(o, b[0], b[i]); }
  }

  lemma {:induction false} TailMember(o: Order, a: seq<Member>, m: Member)
    requires Ascending(o, a) && a != []
    ensures m in a[1..] <==> m in a && m != a[0]
  {
    if m in a[1..] {
      var i :| 0 <= i < |a[1..]| && a[1..][i] == m;
      assert KeyBelow(o, a[0], a[i + 1]);
      BelowTotal(Rank(o, a[0].key), Rank(o, m.key));
    }
    assert a == [a[0]] + a[1..];
  }

  // ---- Normal form and equality up to key order ----

  function Normal(o: Order, v: Json): (r: Json)
    decreases v, 1
  {
    match v
    case Arr(items) => Arr(NormalItems(o, items))
    case Obj(members) => Obj(SortMembers(o, NormalMembers(o, members)))
    case _ => v
  }

  function NormalItems(o: Order, items: seq<Json>): (r: seq<Json>)
    ensures |r| == |items|
    ensures forall i :: 0 <= i < |items| ==> r[i] == Normal(o, items[i])
    decreases items, 0
  {
    if items == [] then [] else [Normal(o, items[0])] + NormalItems(o, items[1..])
  }

  function NormalMembers(o: Order, ms: seq<Member>): (r: seq<Member>)
    ensures |r| == |ms|
    ensures forall i :: 0 <= i < |ms| ==> r[i] == Member(ms[i].key, Normal(o, ms[i].value))
    decreases ms, 0
  {
    if ms == [] then []
    else [Member(ms[0].key, Normal(o, ms[0].value))] + NormalMembers(o, ms[1..])
  }

  /** No object in the value holds two keys the printer cannot tell apart. */
  predicate Distinct(o: Order, v: Json)
    decreases v
  {
    match v
    case Arr(items) => forall i :: 0 <= i < |items| ==> Distinct(o, items[i])
    case Obj(members) =>
      && DistinctRanks(o, members)
      && forall i :: 0 <= i < |members| ==> Distinct(o, members[i].value)
    case _ => true
  }

  /** Equality of JSON values up to the order of object members, said without any sorting. */
  ghost predicate Equivalent(v: Json, w: Json)
    decreases v
  {
    match v
    case Arr(items) =>
      && w.Arr? && |w.items| == |items|
      && forall i :: 0 <= i < |items| ==> Equivalent(items[i], w.items[i])
    case Obj(members) =>
      && w.Obj? && |w.members| == |members|
      && forall i :: 0 <= i < |members| ==>
           exists j :: 0 <= j < |w.members| && w.members[j].key == members[i].key
                       && Equivalent(members[i].value, w.members[j].value)
    case _ => v == w
  }

  lemma {:induction false} NormalKeepsDistinct(o: Order, v: Json)
    requires Distinct(o, v)
    ensures Distinct(o, Normal(o, v))
    ensures Normal(o, v).Obj? ==> Ascending(o, Normal(o, v).members)
    decreases v
  {
    match v
    case Arr(items) =>
      forall i | 0 <= i < |items| ensures Distinct(o, Normal(o, items[i])) {
        NormalKeepsDistinct(o, items[i]);
      }
    case Obj(members) =>
      var nm := NormalMembers(o, members);
      SortAscending(o, nm);
      var sorted := SortMembers(o, nm);
      SameElements(sorted, nm);
      forall i | 0 <= i < |sorted| ensures Distinct(o, sorted[i].value) {
        assert sorted[i] in nm;
        var k :| 0 <= k < |nm| && nm[k] == sorted[i];
        NormalKeepsDistinct(o, members[k].value);
      }
      forall i, j | 0 <= i < j < |sorted|
        ensures Rank(o, sorted[i].key) != Rank(o, sorted[j].key)
      {
        assert KeyBelow(o, sorted[i], sorted[j]);
        BelowTotal(Rank(o, sorted[i].key), Rank(o, sorted[j].key));
      }
    case _ =>
  }

  /** Normalising a normal form changes nothing. */
  lemma {:induction false} NormalIdempotent(o: Order, v: Json)
    requires Distinct(o, v)
    ensures Normal(o, Normal(o, v)) == Normal(o, v)
    decreases v
  {
    match v
    case Arr(items) =>
      forall i | 0 <= i < |items| ensures Normal(o, Normal(o, items[i])) == Normal(o, items[i]) {
        NormalIdempotent(o, items[i]);
      }
      assert NormalItems(o, NormalItems(o, items)) == NormalItems(o, items);
    case Obj(members) =>
      NormalKeepsDistinct(o, v);
      var nm := NormalMembers(o, members);
      var sorted := SortMembers(o, nm);
      SameElements(sorted, nm);
      forall i | 0 <= i < |sorted| ensures NormalMembers(o, sorted)[i] == sorted[i] {
        assert sorted[i] in nm;
        var k :| 0 <= k < |nm| && nm[k] == sorted[i];
        NormalIdempotent(o, members[k].value);
      }
      assert NormalMembers(o, sorted) == sorted;
      SortAscending(o, sorted);
      SameElements(SortMembers(o, sorted), sorted);
      AscendingUnique(o, SortMembers(o, sorted), sorted);
    case _ =>
  }

  /** Equal normal forms come exactly from equivalent values. */
  lemma {:induction false} NormalDecidesEquivalence(o: Order, v: Json, w: Json)
    requires Distinct(o, v) && Distinct(o, w)
    ensures Normal(o, v) == Normal(o, w) <==> Equivalent(v, w)
    decreases v
  {
    match v
    case Arr(items) =>
      if w.Arr? && |w.items| == |items| {
        forall i | 0 <= i < |items|
          ensures Normal(o, items[i]) == Normal(o, w.items[i]) <==> Equivalent(items[i], w.items[i])
        {
          NormalDecidesEquivalence(o, items[i], w.items[i]);
        }
        if Normal(o, v) == Normal(o, w) {
          forall i | 0 <= i < |items| ensures Equivalent(items[i], w.items[i]) {
            assert NormalItems(o, items)[i] == NormalItems(o, w.items)[i];
          }
        }
        if Equivalent(v, w) {
          assert NormalItems(o, items) == NormalItems(o, w.items);
        }
      } else if w.Arr? {
        assert |NormalItems(o, items)| != |NormalItems(o, w.items)|;
      }
    case Obj(members) =>
      if w.Obj? {
        if Normal(o, v) == Normal(o, w) { EqualNormalsAreEquivalent(o, v, w); }
        if Equivalent(v, w) { EquivalentObjectsNormaliseEqually(o, v, w); }
      }
    case _ =>
  }

  lemma {:induction false} EqualNormalsAreEquivalent(o: Order, v: Json, w: Json)
    requires v.Obj? && w.Obj? && Distinct(o, v) && Distinct(o, w)
    requires Normal(o, v) == Normal(o, w)
    ensures Equivalent(v, w)
    decreases v, 0
  {
    var nv, nw := NormalMembers(o, v.members), NormalMembers(o, w.members);
    SameElements(SortMembers(o, nv), nv);
    SameElements(SortMembers(o, nw), nw);
    forall i | 0 <= i < |v.members|
      ensures exists j :: 0 <= j < |w.members| && w.members[j].key == v.members[i].key
                          && Equivalent(v.members[i].value, w.members[j].value)
    {
      assert nv[i] in nw;
      var j :| 0 <= j < |nw| && nw[j] == nv[i];
      NormalDecidesEquivalence(o, v.members[i].value, w.members[j].value);
    }
  }

  lemma {:induction false} EquivalentObjectsNormaliseEqually(o: Order, v: Json, w: Json)
    requires v.Obj? && w.Obj? && Distinct(o, v) && Distinct(o, w)
    requires Equivalent(v, w)
    ensures Normal(o, v) == Normal(o, w)
    decreases v, 0
  {
    var nv, nw := NormalMembers(o, v.members), NormalMembers(o, w.members);
    forall i | 0 <= i < |nv| ensures nv[i] in nw {
      var j :| 0 <= j < |w.members| && w.members[j].key == v.members[i].key
               && Equivalent(v.members[i].value, w.members[j].value);
      NormalDecidesEquivalence(o, v.members[i].value, w.members[j].value);
      assert nw[j] == nv[i];
    }
    assert DistinctRanks(o, nv) && DistinctRanks(o, nw);
    SameSizeSubset(o, nv, nw);
    SortAscending(o, nv);
    SortAscending(o, nw);
    SameElements(SortMembers(o, nv), nv);
    SameElements(SortMembers(o, nw), nw);
    AscendingUnique(o, SortMembers(o, nv), SortMembers(o, nw));
  }

  function ElementsOf(a: seq<Member>): set<Member> { set m | m in a }

  lemma {:induction false} DistinctCount(o: Order, a: seq<Member>)
    requires DistinctRanks(o, a)
    ensures |ElementsOf(a)| == |a|
  {
    if a != [] {
      DistinctCount(o, a[1..]);
      assert a == [a[0]] + a[1..];
      assert ElementsOf(a) == {a[0]} + ElementsOf(a[1..]);
    }
  }

  lemma {:induction false} SubsetOfSameSize(x: set<Member>, y: set<Member>)
    requires x <= y && |x| == |y|
    ensures x == y
  {
    assert |y - x| == |y| - |x|;
    assert y == x + (y - x);
  }

  lemma {:induction false} SameSizeSubset(o: Order, a: seq<Member>, b: seq<Member>)
    requires DistinctRanks(o, a) && DistinctRanks(o, b) && |a| == |b|
    requires forall i :: 0 <= i < |a| ==> a[i] in b
    ensures forall m :: m in a <==> m in b
  {
    DistinctCount(o, a);
    DistinctCount(o, b);
    SubsetOfSameSize(ElementsOf(a), ElementsOf(b));
    forall m ensures m in a <==> m in b {
      assert m in a <==> m in ElementsOf(a);
      assert m in b <==> m in ElementsOf(b);
    }
  }
}
