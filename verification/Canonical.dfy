/** The two canonical forms of JSON: the custody form that receipts and capability URLs are signed over,
    and the JCS form (RFC 8785) that journal rows are written in. They share a printer and differ in
    key order, number range, key checks and nesting limit. */
module Canonical {
  import opened Base
  import opened Json
  import opened JsonText
  import opened JsonLaws

  datatype Profile = Custody | Jcs

  const MAX_BYTES: nat := 1024 * 1024
  const MAX_SAFE_INTEGER: int := 9007199254740991

  function OrderOf(p: Profile): Order { if p.Custody? then ByBytes else ByUtf16 }

  /** How many levels below the root may be visited. */
  function DepthLimit(p: Profile): int { if p.Custody? then 128 else 127 }

  predicate IntOk(p: Profile, n: int) {
    p.Jcs? ==> -MAX_SAFE_INTEGER <= n <= MAX_SAFE_INTEGER
  }

  predicate KeyOk(p: Profile, key: string) { p.Jcs? ==> Utf16Ok(key) }

  /** The values the printer does not throw on, given how many more levels it may descend. */
  predicate Accepts(p: Profile, v: Json, depth: int)
    decreases v
  {
    depth >= 0 &&
    match v
    case Int(n) => IntOk(p, n)
    case Real => false
    case Arr(items) => forall i :: 0 <= i < |items| ==> Accepts(p, items[i], depth - 1)
    case Obj(members) =>
      && DistinctRanks(OrderOf(p), members)
      && forall i :: 0 <= i < |members| ==>
           KeyOk(p, members[i].key) && Accepts(p, members[i].value, depth - 1)
    case _ => true
  }

  function Form(p: Profile, v: Json): string { Print(Normal(OrderOf(p), v)) }

  function Canonicalize(p: Profile, text: string): (r: Option<string>) {
    if |text| > MAX_BYTES then None
    else match ParseDocument(text)
      case Malformed => None
      case Document(v) => if Accepts(p, v, DepthLimit(p)) then Some(Form(p, v)) else None
  }

  // ---- Accepted values ----

  lemma {:induction false} AcceptedIsPrintable(p: Profile, v: Json, depth: int)
    requires Accepts(p, v, depth)
    ensures Printable(v) && Distinct(OrderOf(p), v)
    decreases v
  {
    match v
    case Arr(items) =>
      forall i | 0 <= i < |items| ensures Printable(items[i]) && Distinct(OrderOf(p), items[i]) {
        AcceptedIsPrintable(p, items[i], depth - 1);
      }
    case Obj(members) =>
      forall i | 0 <= i < |members|
        ensures Printable(members[i].value) && Distinct(OrderOf(p), members[i].value)
      {
        AcceptedIsPrintable(p, members[i].value, depth - 1);
      }
    case _ =>
  }

  lemma {:induction false} AcceptedNormal(p: Profile, v: Json, depth: int)
    requires Accepts(p, v, depth)
    ensures Accepts(p, Normal(OrderOf(p), v), depth)
    decreases v, 1
  {
    hide Rank, SortMembers;
    match v
    case Arr(items) =>
      forall i | 0 <= i < |items| ensures Accepts(p, Normal(OrderOf(p), items[i]), depth - 1) {
        AcceptedNormal(p, items[i], depth - 1);
      }
    case Obj(members) =>
      forall i | 0 <= i < |members| ensures Accepts(p, Normal(OrderOf(p), members[i].value), depth - 1) {
        AcceptedNormal(p, members[i].value, depth - 1);
      }
      AcceptedSorted(p, NormalMembers(OrderOf(p), members), depth);
    case _ =>
  }

  lemma {:induction false} AcceptedSorted(p: Profile, ms: seq<Member>, depth: int)
    requires Accepts(p, Obj(ms), depth)
    ensures Accepts(p, Obj(SortMembers(OrderOf(p), ms)), depth)
  {
    var sorted := SortMembers(OrderOf(p), ms);
    SameElements(sorted, ms);
    SortAscending(OrderOf(p), ms);
    AscendingIsDistinct(OrderOf(p), sorted);
    forall i | 0 <= i < |sorted|
      ensures KeyOk(p, sorted[i].key) && Accepts(p, sorted[i].value, depth - 1)
    {
      assert sorted[i] in ms;
    }
  }

  /** Decoding a canonical form gives the value back with its keys in order. */
  lemma {:induction false} FormRoundTrip(p: Profile, v: Json, depth: int)
    requires Accepts(p, v, depth)
    ensures ParseDocument(Form(p, v)) == Document(Normal(OrderOf(p), v))
  {
    AcceptedNormal(p, v, depth);
    AcceptedIsPrintable(p, Normal(OrderOf(p), v), depth);
    ParsePrinted(Normal(OrderOf(p), v));
  }

  /** Two values have the same canonical text exactly when they are equal up to key order. */
  lemma {:induction false} FormUnambiguous(p: Profile, v: Json, w: Json, dv: int, dw: int)
    requires Accepts(p, v, dv) && Accepts(p, w, dw)
    ensures Form(p, v) == Form(p, w) <==> Equivalent(v, w)
  {
    FormRoundTrip(p, v, dv);
    FormRoundTrip(p, w, dw);
    AcceptedIsPrintable(p, v, dv);
    AcceptedIsPrintable(p, w, dw);
    NormalDecidesEquivalence(OrderOf(p), v, w);
  }

  /** Canonicalising canonical text changes nothing: the size and nesting limits never refuse it. */
  lemma {:induction false} CanonicalizeIdempotent(p: Profile, text: string)
    requires Canonicalize(p, text).Some?
    ensures var c := Canonicalize(p, text).value;
            && Canonicalize(p, c) == Some(c)
            && |c| <= |text|
            && Clean(c)
  {
    var o := OrderOf(p);
    var v := ParseDocument(text).value;
    FormRoundTrip(p, v, DepthLimit(p));
    AcceptedNormal(p, v, DepthLimit(p));
    AcceptedIsPrintable(p, v, DepthLimit(p));
    NormalIdempotent(o, v);
    DocumentShrinks(o, text);
    EmitClean(Normal(o, v), "");
  }

  /** The canonical text of a value that is already in key order is its plain printing. */
  lemma {:induction false} CanonicalizePrinted(p: Profile, v: Json)
    requires Accepts(p, v, DepthLimit(p)) && Normal(OrderOf(p), v) == v && |Print(v)| <= MAX_BYTES
    ensures Canonicalize(p, Print(v)) == Some(Print(v))
  {
    FormRoundTrip(p, v, DepthLimit(p));
  }

  // ---- Comparing literal keys ----

  lemma {:induction false} BelowAtFirst(a: string, b: string)
    requires a != [] && b != [] && a[0] < b[0]
    ensures Below(Codes(a), Codes(b))
  {
  }

  lemma {:induction false} BelowAtSecond(a: string, b: string)
    requires |a| > 1 && |b| > 1 && a[0] == b[0] && a[1] < b[1]
    ensures Below(Codes(a), Codes(b))
  {
    assert Codes(a)[1..][0] < Codes(b)[1..][0];
  }

  /** Neighbours in order are enough for the whole sequence to be in order. */
  lemma {:induction false} AscendingSteps(o: Order, ms: seq<Member>)
    requires forall i :: 0 <= i < |ms| - 1 ==> KeyBelow(o, ms[i], ms[i + 1])
    ensures Ascending(o, ms)
  {
    forall i, j | 0 <= i < j < |ms| ensures KeyBelow(o, ms[i], ms[j]) {
      AscendingStep(o, ms, i, j);
    }
  }

  lemma {:induction false} KeyBelowTransitive(o: Order, a: Member, b: Member, c: Member)
    requires KeyBelow(o, a, b) && KeyBelow(o, b, c)
    ensures KeyBelow(o, a, c)
  {
    hide Rank, Below;
    BelowTransitive(Rank(o, a.key), Rank(o, b.key), Rank(o, c.key));
  }

  lemma {:induction false} AscendingStep(o: Order, ms: seq<Member>, i: nat, j: nat)
    requires forall i :: 0 <= i < |ms| - 1 ==> KeyBelow(o, ms[i], ms[i + 1])
    requires i < j < |ms|
    ensures KeyBelow(o, ms[i], ms[j])
    decreases j
  {
    hide KeyBelow;
    if i + 1 < j {
      AscendingStep(o, ms, i, j - 1);
      assert KeyBelow(o, ms[j - 1], ms[j - 1 + 1]);
      KeyBelowTransitive(o, ms[i], ms[j - 1], ms[j]);
    }
  }

  lemma {:induction false} AscendingIsDistinct(o: Order, ms: seq<Member>)
    requires Ascending(o, ms)
    ensures DistinctRanks(o, ms)
  {
    forall i, j | 0 <= i < j < |ms| ensures Rank(o, ms[i].key) != Rank(o, ms[j].key) {
      assert KeyBelow(o, ms[i], ms[j]);
      BelowTotal(Rank(o, ms[i].key), Rank(o, ms[j].key));
    }
  }

  /** Members already in order stay where they are. */
  lemma {:induction false} SortOfAscending(o: Order, ms: seq<Member>)
    requires Ascending(o, ms)
    ensures SortMembers(o, ms) == ms
  {
    AscendingIsDistinct(o, ms);
    SortAscending(o, ms);
    SameElements(SortMembers(o, ms), ms);
    AscendingUnique(o, SortMembers(o, ms), ms);
  }

  // ---- Spellings of one value ----

  function KeysOf(ms: seq<Member>): set<string> { set m | m in ms :: m.key }

  predicate DistinctKeys(ms: seq<Member>) { forall i, j :: 0 <= i < j < |ms| ==> ms[i].key != ms[j].key }

  lemma {:induction false} KeysCount(ms: seq<Member>)
    ensures |KeysOf(ms)| <= |ms| && (|KeysOf(ms)| == |ms| <==> DistinctKeys(ms))
  {
    hide KeysOf, DistinctKeys;
    if ms == [] {
      NoKeys(ms);
    } else {
      var n := |ms| - 1;
      var front, last := ms[..n], ms[n];
      assert ms == front + [last];
      KeysCount(front);
      KeysSnoc(front, last);
      DistinctSnoc(front, last);
    }
  }

  lemma {:induction false} NoKeys(ms: seq<Member>)
    requires ms == []
    ensures KeysOf(ms) == {} && DistinctKeys(ms)
  {
  }

  lemma {:induction false} KeysSnoc(front: seq<Member>, last: Member)
    ensures KeysOf(front + [last]) == KeysOf(front) + {last.key}
  {
    assert forall m :: m in front + [last] <==> m in front || m == last;
  }

  lemma {:induction false} DistinctSnoc(front: seq<Member>, last: Member)
    ensures DistinctKeys(front + [last]) <==> DistinctKeys(front) && last.key !in KeysOf(front)
  {
    var ms := front + [last];
    assert forall i :: 0 <= i < |front| ==> ms[i] == front[i];
    if DistinctKeys(ms) {
      forall m | m in front ensures m.key != last.key {
        var i :| 0 <= i < |front| && front[i] == m;
        assert ms[i].key != ms[|front|].key;
      }
    }
    if last.key !in KeysOf(front) {
      forall i | 0 <= i < |front| ensures ms[i].key != last.key { assert front[i] in front; }
    }
  }

  /** When every member of one object is found in another of the same size, and no two share a key, every member
      of the other is found in the one. */
  lemma {:induction false} FoundBack(ms: seq<Member>, others: seq<Member>, j: nat) returns (i: nat)
    requires |ms| == |others| && DistinctKeys(ms) && j < |others|
    requires forall i :: 0 <= i < |ms| ==> ms[i].key in KeysOf(others)
    ensures DistinctKeys(others) && i < |ms| && ms[i].key == others[j].key
  {
    KeysCount(ms);
    KeysCount(others);
    assert KeysOf(ms) <= KeysOf(others);
    SubsetSameSize(KeysOf(ms), KeysOf(others));
    assert others[j] in others && others[j].key in KeysOf(ms);
    var m :| m in ms && m.key == others[j].key;
    i :| 0 <= i < |ms| && ms[i] == m;
  }

  lemma {:induction false} SubsetSameSize(a: set<string>, b: set<string>)
    requires a <= b && |b| <= |a|
    ensures a == b
  {
    assert b == a + (b - a) && |b| == |a| + |b - a|;
  }

  /** Acceptance does not look at the order of members. */
  lemma {:induction false} AcceptedSpelling(p: Profile, v: Json, w: Json, depth: int)
    requires Accepts(p, v, depth) && Equivalent(v, w)
    ensures Accepts(p, w, depth)
    decreases v
  {
    match v
    case Arr(items) =>
      forall i | 0 <= i < |items| ensures Accepts(p, w.items[i], depth - 1) {
        AcceptedSpelling(p, items[i], w.items[i], depth - 1);
      }
    case Obj(members) =>
      forall j | 0 <= j < |w.members|
        ensures KeyOk(p, w.members[j].key) && Accepts(p, w.members[j].value, depth - 1)
      {
        var i := SpelledMember(p, v, w, depth, j);
        AcceptedSpelling(p, members[i].value, w.members[j].value, depth - 1);
      }
      SpelledRanks(p, v, w, depth);
    case _ =>
  }

  lemma {:induction false} RanksKeys(o: Order, ms: seq<Member>)
    requires DistinctRanks(o, ms)
    ensures DistinctKeys(ms)
  {
    hide Rank;
  }

  lemma {:induction false} SpelledMember(p: Profile, v: Json, w: Json, depth: int, j: nat) returns (i: nat)
    requires v.Obj? && Accepts(p, v, depth) && Equivalent(v, w) && j < |w.members|
    ensures DistinctKeys(w.members) && i < |v.members| && v.members[i].key == w.members[j].key
    ensures Equivalent(v.members[i].value, w.members[j].value)
  {
    hide Rank, Utf16Ok;
    RanksKeys(OrderOf(p), v.members);
    forall i | 0 <= i < |v.members| ensures v.members[i].key in KeysOf(w.members) {
      var k :| 0 <= k < |w.members| && w.members[k].key == v.members[i].key
               && Equivalent(v.members[i].value, w.members[k].value);
      assert w.members[k] in w.members;
    }
    i := FoundBack(v.members, w.members, j);
    var k :| 0 <= k < |w.members| && w.members[k].key == v.members[i].key
             && Equivalent(v.members[i].value, w.members[k].value);
    assert k == j;
  }

  lemma {:induction false} SpelledRanks(p: Profile, v: Json, w: Json, depth: int)
    requires v.Obj? && Accepts(p, v, depth) && Equivalent(v, w)
    ensures DistinctRanks(OrderOf(p), w.members)
  {
    hide Rank, Utf16Ok;
    forall a, b | 0 <= a < b < |w.members|
      ensures Rank(OrderOf(p), w.members[a].key) != Rank(OrderOf(p), w.members[b].key)
    {
      var i := SpelledMember(p, v, w, depth, a);
      var j := SpelledMember(p, v, w, depth, b);
      assert i < j || j < i;
    }
  }

  /** Once one spelling is accepted, another spelling is given the same canonical text exactly when it means the
      same value. */
  lemma {:induction false} SpellingsAgree(p: Profile, a: string, b: string)
    requires Canonicalize(p, a).Some? && |b| <= MAX_BYTES && ParseDocument(b).Document?
    ensures Canonicalize(p, b) == Canonicalize(p, a) <==> Equivalent(ParseDocument(a).value, ParseDocument(b).value)
  {
    hide ParseDocument, Accepts, Form, Equivalent;
    var v, w := ParseDocument(a).value, ParseDocument(b).value;
    var d := DepthLimit(p);
    if Equivalent(v, w) { AcceptedSpelling(p, v, w, d); }
    if Accepts(p, w, d) { FormUnambiguous(p, v, w, d, d); }
  }
}
