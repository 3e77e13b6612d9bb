/** What the event schema implies about every accepted event: it is at most three levels deep and its
    canonical text, after worst-case escaping, stays below half the row limit. */
module JournalBounds {
  import opened Base
  import opened Json
  import opened JsonText
  import opened JsonLaws
  import opened Canonical
  import opened JournalRow

  // ---- Nesting ----

  predicate Shallow(v: Json, k: int)
    decreases v
  {
    k >= 0 &&
    match v
    case Arr(items) => forall i :: 0 <= i < |items| ==> Shallow(items[i], k - 1)
    case Obj(members) => forall i :: 0 <= i < |members| ==> Shallow(members[i].value, k - 1)
    case _ => true
  }

  lemma {:induction false} AcceptsShallow(p: Profile, v: Json, d: int, k: int, d': int)
    requires Accepts(p, v, d) && Shallow(v, k) && k <= d'
    ensures Accepts(p, v, d')
    decreases v
  {
    match v
    case Arr(items) =>
      forall i | 0 <= i < |items| ensures Accepts(p, items[i], d' - 1) {
        AcceptsShallow(p, items[i], d - 1, k - 1, d' - 1);
      }
    case Obj(members) =>
      forall i | 0 <= i < |members| ensures Accepts(p, members[i].value, d' - 1) {
        AcceptsShallow(p, members[i].value, d - 1, k - 1, d' - 1);
      }
    case _ =>
  }

  // ---- Field lookup ----

  lemma {:induction false} GetMember(o: Order, ms: seq<Member>, i: nat)
    requires DistinctRanks(o, ms) && i < |ms|
    ensures Get(ms, ms[i].key) == Some(ms[i].value)
  {
    if i > 0 {
      assert Rank(o, ms[0].key) != Rank(o, ms[i].key);
      assert ms[1..][i - 1] == ms[i];
      GetMember(o, ms[1..], i - 1);
    }
  }

  // ---- Lengths ----

  lemma {:induction false} IdentifierChars(s: string)
    requires forall i :: 0 <= i < |s| ==> 0x21 <= s[i] as int <= 0x7e
    ensures |EmitChars(s, "")| <= 2 * |s|
  {
    if s != [] {
      IdentifierChars(s[1..]);
      assert |Escape(s[0])| <= 2;
    }
  }

  lemma {:induction false} IdentifierLength(s: string)
    requires Identifier(s)
    ensures StringLength(s) <= 514
  {
    IdentifierChars(s);
    StringLengthIs(s);
  }

  lemma {:induction false} DigitsLength(n: nat)
    requires n <= MAX_SAFE_INTEGER
    ensures |Digits(n)| <= 16
  {
    PowSteps(12);
    PowSteps(8);
    PowSteps(4);
    PowSteps(0);
    assert Pow10(16) == 10000 * (10000 * (10000 * 10000));
    DigitsBelow(n, 16);
  }

  function Pow10(k: nat): nat { if k == 0 then 1 else 10 * Pow10(k - 1) }

  lemma {:induction false} PowSteps(k: nat)
    ensures Pow10(k + 4) == 10000 * Pow10(k)
  {
    assert Pow10(k + 4) == 10 * Pow10(k + 3) && Pow10(k + 2) == 10 * Pow10(k + 1);
  }

  lemma {:induction false} DigitsBelow(n: nat, k: nat)
    requires k >= 1 && n < Pow10(k)
    ensures |Digits(n)| <= k
  {
    if n >= 10 {
      assert Pow10(k) == 10 * Pow10(k - 1);
      DigitsBelow(n / 10, k - 1);
    }
  }

  /** Members with an identifier for a key and a bounded value. */
  lemma {:induction false} MemberBound(m: Member, bound: nat)
    requires Identifier(m.key) && Length(m.value) <= bound
    ensures MemberLength(m) <= 515 + bound
  {
    IdentifierLength(m.key);
    MemberLengthIs(m);
  }

  function KeysOf(ms: seq<Member>): set<string> { set i | 0 <= i < |ms| :: ms[i].key }

  function Elements(ks: seq<string>): set<string> { set k | k in ks }

  lemma {:induction false} ElementsSize(ks: seq<string>)
    ensures |Elements(ks)| <= |ks|
  {
    if ks != [] {
      ElementsSize(ks[1..]);
      assert ks == [ks[0]] + ks[1..];
      assert Elements(ks) == {ks[0]} + Elements(ks[1..]);
    }
  }

  lemma {:induction false} KeysSize(o: Order, ms: seq<Member>)
    requires DistinctRanks(o, ms)
    ensures |KeysOf(ms)| == |ms|
  {
    if ms != [] {
      var rest := ms[1..];
      KeysSize(o, rest);
      forall k ensures k in KeysOf(ms) <==> k == ms[0].key || k in KeysOf(rest) {
        if k in KeysOf(ms) {
          var i :| 0 <= i < |ms| && ms[i].key == k;
          if i > 0 { assert rest[i - 1].key == k; }
        }
        if k in KeysOf(rest) {
          var i :| 0 <= i < |rest| && rest[i].key == k;
          assert ms[i + 1].key == k;
        }
      }
      assert KeysOf(ms) == {ms[0].key} + KeysOf(rest);
      assert ms[0].key !in KeysOf(rest) by {
        forall i | 0 <= i < |rest| ensures rest[i].key != ms[0].key {
          assert Rank(o, ms[0].key) != Rank(o, ms[i + 1].key);
        }
      }
    }
  }

  lemma {:induction false} SubsetSize(a: set<string>, b: set<string>)
    requires a <= b
    ensures |a| <= |b|
  {
    assert b == a + (b - a);
  }

  /** An object with distinct keys has no more members than allowed field names. */
  lemma {:induction false} MemberCount(o: Order, v: Json, allowed: seq<string>)
    requires OnlyFields(v, allowed) && DistinctRanks(o, v.members)
    ensures |v.members| <= |allowed|
  {
    KeysSize(o, v.members);
    ElementsSize(allowed);
    SubsetSize(KeysOf(v.members), Elements(allowed));
  }

  lemma {:induction false} SumBound(ms: seq<Member>, bound: nat)
    requires forall i :: 0 <= i < |ms| ==> MemberLength(ms[i]) <= bound
    ensures SumLengths(ms) <= |ms| * bound
  {
    if ms != [] {
      SumBound(ms[1..], bound);
      assert |ms| * bound == (|ms| - 1) * bound + bound;
    }
  }

  /** Like `SumBound`, with one key that may carry a much longer value. */
  lemma {:induction false} HeavyBound(o: Order, ms: seq<Member>, heavy: string, top: nat, bound: nat)
    requires DistinctRanks(o, ms)
    requires forall i :: 0 <= i < |ms| ==> MemberLength(ms[i]) <= if ms[i].key == heavy then top else bound
    ensures SumLengths(ms) <= top + |ms| * bound
  {
    if ms != [] {
      assert |ms| * bound == (|ms| - 1) * bound + bound;
      if ms[0].key == heavy {
        forall i | 0 <= i < |ms[1..]| ensures MemberLength(ms[1..][i]) <= bound {
          assert Rank(o, ms[0].key) != Rank(o, ms[i + 1].key);
        }
        SumBound(ms[1..], bound);
      } else {
        HeavyBound(o, ms[1..], heavy, top, bound);
      }
    }
  }

  lemma {:induction false} ObjectBound(o: Order, v: Json, allowed: seq<string>, bound: nat)
    requires OnlyFields(v, allowed) && DistinctRanks(o, v.members)
    requires forall i :: 0 <= i < |v.members| ==> MemberLength(v.members[i]) <= bound
    ensures Length(v) <= 2 + |allowed| + |allowed| * bound
  {
    MemberCount(o, v, allowed);
    SumBound(v.members, bound);
    ObjectLength(v.members);
    ScaleBound(|v.members|, |allowed|, bound);
  }

  lemma {:induction false} ScaleBound(a: nat, b: nat, c: nat)
    requires a <= b
    ensures a * c <= b * c
  {
  }

  lemma {:induction false} IdTextBound(v: Json)
    requires IdText(v)
    ensures Length(v) <= 514 && Shallow(v, 0)
  {
    IdentifierLength(v.s);
  }

  lemma {:induction false} IdListBound(v: Json)
    requires IdList(v)
    ensures Length(v) <= 66000 && Shallow(v, 1)
  {
    IdItems(v.items);
    ArrayLength(v.items);
  }

  lemma {:induction false} IdItems(items: seq<Json>)
    requires forall i :: 0 <= i < |items| ==> IdText(items[i])
    ensures SumItems(items) <= 514 * |items|
  {
    if items != [] {
      IdTextBound(items[0]);
      IdItems(items[1..]);
    }
  }

  // ---- Field names and fixed choices are identifiers ----

  lemma {:induction false} ActorNames(k: string)
    requires k in ACTOR_FIELDS
    ensures Identifier(k) && (k == "principal_kind" || k in ACTOR_IDS)
  {
  }

  lemma {:induction false} SubjectNames(k: string)
    requires k in SUBJECT_FIELDS
    ensures Identifier(k) && (k == "org" || k in SUBJECT_IDS || k in SUBJECT_LISTS)
  {
  }

  lemma {:induction false} ChangeNames(k: string)
    requires k in CHANGE_FIELDS
    ensures Identifier(k)
  {
  }

  lemma {:induction false} CorrelationNames(k: string)
    requires k in CORRELATION_FIELDS
    ensures Identifier(k) && (k == "trace_id" || k in CORRELATION_IDS)
  {
  }

  lemma {:induction false} EventNames(k: string)
    requires k in EVENT_FIELDS
    ensures Identifier(k)
    ensures k == "v" || k == "ts" || k == "event_type" || k == "actor" || k == "subject" || k == "change"
            || k == "outcome" || k == "reason_code" || k == "correlation"
  {
  }

  lemma {:induction false} KindNames(s: string)
    requires s in KINDS
    ensures Identifier(s)
  {
  }

  lemma {:induction false} OutcomeNames(s: string)
    requires s in OUTCOMES
    ensures Identifier(s)
  {
  }

  lemma {:induction false} EventTypeNames(s: string)
    requires s in EVENT_TYPES
    ensures Identifier(s)
  {
  }

  lemma {:induction false} HashIsIdentifier(v: Json)
    requires HashText(v)
    ensures IdText(v)
  {
  }

  // ---- The parts of an event ----

  lemma {:induction false} ActorBound(o: Order, v: Json)
    requires ValidActor(v) && DistinctRanks(o, v.members)
    ensures Length(v) <= 9280 && Shallow(v, 1)
  {
    hide Identifier, ActorKey, Length, MemberLength, Rank;
    forall i | 0 <= i < |v.members|
      ensures MemberLength(v.members[i]) <= 1029 && Shallow(v.members[i].value, 0)
    {
      var m := v.members[i];
      ActorNames(m.key);
      GetMember(o, v.members, i);
      if m.key == "principal_kind" { KindNames(m.value.s); }
      assert IdText(m.value);
      IdTextBound(m.value);
      MemberBound(m, 514);
    }
    ObjectBound(o, v, ACTOR_FIELDS, 1029);
  }

  lemma {:induction false} SubjectBound(o: Order, v: Json)
    requires ValidSubject(v) && DistinctRanks(o, v.members)
    ensures Length(v) <= 399200 && Shallow(v, 2)
  {
    hide Identifier, Length, MemberLength, Rank;
    forall i | 0 <= i < |v.members|
      ensures MemberLength(v.members[i]) <= 66515 && Shallow(v.members[i].value, 1)
    {
      var m := v.members[i];
      SubjectNames(m.key);
      GetMember(o, v.members, i);
      if m.key in SUBJECT_LISTS {
        IdListBound(m.value);
      } else {
        IdTextBound(m.value);
      }
      MemberBound(m, 66000);
    }
    ObjectBound(o, v, SUBJECT_FIELDS, 66515);
  }

  lemma {:induction false} ChangeBound(o: Order, v: Json)
    requires ValidChange(v) && DistinctRanks(o, v.members)
    ensures Length(v) <= 9280 && Shallow(v, 1)
  {
    hide Identifier, Length, MemberLength, Rank;
    forall i | 0 <= i < |v.members|
      ensures MemberLength(v.members[i]) <= 1029 && Shallow(v.members[i].value, 0)
    {
      var m := v.members[i];
      ChangeNames(m.key);
      GetMember(o, v.members, i);
      HashIsIdentifier(m.value);
      IdTextBound(m.value);
      MemberBound(m, 514);
    }
    ObjectBound(o, v, CHANGE_FIELDS, 1029);
  }

  lemma {:induction false} CorrelationBound(o: Order, v: Json)
    requires ValidCorrelation(v) && DistinctRanks(o, v.members)
    ensures Length(v) <= 9280 && Shallow(v, 1)
  {
    hide Length, MemberLength, Rank;
    forall i | 0 <= i < |v.members|
      ensures MemberLength(v.members[i]) <= 1029 && Shallow(v.members[i].value, 0)
    {
      var m := v.members[i];
      CorrelationNames(m.key);
      GetMember(o, v.members, i);
      assert IdText(m.value);
      IdTextBound(m.value);
      MemberBound(m, 514);
    }
    ObjectBound(o, v, CORRELATION_FIELDS, 1029);
  }

  lemma {:induction false} IntBound(n: Word)
    requires -MAX_SAFE_INTEGER <= n <= MAX_SAFE_INTEGER
    ensures Length(Int(n)) <= 17 && Shallow(Int(n), 0)
  {
    DigitsLength(if n < 0 then -n else n);
  }

  lemma {:induction false} EventField(v: Json, d: int, i: nat)
    requires ValidEvent(v) && Accepts(Jcs, v, d) && i < |v.members|
    ensures MemberLength(v.members[i]) <= if v.members[i].key == "subject" then 399715 else 9795
    ensures Shallow(v.members[i].value, 2)
  {
    hide Identifier, Length, MemberLength, Rank, ValidActor, ValidSubject, ValidChange, ValidCorrelation,
         DistinctRanks, Get;
    var m := v.members[i];
    EventNames(m.key);
    GetMember(ByUtf16, v.members, i);
    assert Accepts(Jcs, m.value, d - 1);
    if m.key == "subject" {
      assert m.value.Obj? by { SubjectIsObject(m.value); }
      SubjectBound(ByUtf16, m.value);
      MemberBound(m, 399200);
    } else {
      SmallField(m.key, m.value, d - 1);
      MemberBound(m, 9280);
    }
  }

  /** Every other top-level field is small. */
  lemma {:induction false} SmallField(key: string, value: Json, d: int)
    requires Accepts(Jcs, value, d)
    requires
      || value.Int?
      || IdText(value)
      || TextIn(Some(value), EVENT_TYPES)
      || TextIn(Some(value), OUTCOMES)
      || ValidActor(value)
      || ValidChange(value)
      || ValidCorrelation(value)
    ensures Length(value) <= 9280 && Shallow(value, 2)
  {
    hide Identifier, Length, ValidActor, ValidChange, ValidCorrelation, Rank;
    if ValidActor(value) {
      PartIsObject(value);
      ActorBound(ByUtf16, value);
      ShallowUp(value, 1, 2);
    } else if ValidChange(value) {
      PartIsObject(value);
      ChangeBound(ByUtf16, value);
      ShallowUp(value, 1, 2);
    } else if ValidCorrelation(value) {
      PartIsObject(value);
      CorrelationBound(ByUtf16, value);
      ShallowUp(value, 1, 2);
    } else if value.Int? {
      IntBound(value.n);
    } else {
      if TextIn(Some(value), EVENT_TYPES) { EventTypeNames(value.s); }
      if TextIn(Some(value), OUTCOMES) { OutcomeNames(value.s); }
      StringIsSmall(value);
    }
  }

  lemma {:induction false} SubjectIsObject(value: Json)
    requires ValidSubject(value)
    ensures value.Obj?
  {
  }

  lemma {:induction false} PartIsObject(value: Json)
    requires ValidActor(value) || ValidChange(value) || ValidCorrelation(value)
    ensures value.Obj?
  {
  }

  lemma {:induction false} StringIsSmall(value: Json)
    requires value.Str? && Identifier(value.s)
    ensures Length(value) <= 9280 && Shallow(value, 2)
  {
    IdTextBound(value);
  }

  lemma {:induction false} ShallowUp(v: Json, k: int, k': int)
    requires Shallow(v, k) && k <= k'
    ensures Shallow(v, k')
    decreases v
  {
    match v
    case Arr(items) =>
      forall i | 0 <= i < |items| ensures Shallow(items[i], k' - 1) { ShallowUp(items[i], k - 1, k' - 1); }
    case Obj(members) =>
      forall i | 0 <= i < |members| ensures Shallow(members[i].value, k' - 1) {
        ShallowUp(members[i].value, k - 1, k' - 1);
      }
    case _ =>
  }

  /** Every event the schema accepts prints below half the row limit, with room for the rest of a row. */
  lemma {:induction false} EventBound(v: Json, d: int)
    requires ValidEvent(v) && Accepts(Jcs, v, d)
    ensures Length(v) <= 488000 < ROW_BYTES / 2
    ensures Shallow(v, 3)
  {
    hide ValidActor, ValidSubject, ValidChange, ValidCorrelation, Length, MemberLength, Rank;
    forall i | 0 <= i < |v.members|
      ensures MemberLength(v.members[i]) <= if v.members[i].key == "subject" then 399715 else 9795
      ensures Shallow(v.members[i].value, 2)
    {
      EventField(v, d, i);
    }
    MemberCount(ByUtf16, v, EVENT_FIELDS);
    HeavyBound(ByUtf16, v.members, "subject", 399715, 9795);
    ObjectLength(v.members);
    ScaleBound(|v.members|, 9, 9795);
  }
}
