/** Version numbers are never reused, over every history of calls, rollbacks, faults and restarts. */
module VersionLaws {
  import opened Base
  import Paths
  import opened Versions

  // ---- No number is issued twice ----

  /** A newly issued version is above everything recorded before for its path. */
  lemma {:induction false} IssuedAbove(t: Track, e: Event)
    requires Inv(t) && e.op.Bump? && Result(t, e).Bumped?
    ensures Highest(t.marks, e.op.rel) < Result(t, e).v < MAX
  {
    hide Raised, ValidManifest;
    var rel, v := e.op.rel, Result(t, e).v;
    var n1 := NeedManifest(t.node, e.fault).0;
    LoadKeeps(t, e.fault);
    LoadKeeps(Track(n1, t.marks), e.fault);
    var n2 := NeedState(n1, e.fault).0;
    assert Covers(n2.state.value, t.marks);
    assert v == NextVersion(n1.manifest.value, rel, Highest(n2.state.value, rel));
    assert ValidMarks(map[rel := v]);
    assert rel in map[rel := v];
  }

  lemma {:induction false} MarksGrow(t: Track, e: Event)
    ensures Covers(Next(t, e).marks, t.marks)
    ensures Covers(Next(t, e).marks, Recorded(e.op, Result(t, e)))
  {
    hide Apply;
    var seen := Recorded(e.op, Result(t, e));
    CoversSelf(t.marks, seen);
    forall rel | rel in seen ensures seen[rel] <= Highest(Raised(t.marks, seen), rel) { }
  }

  lemma {:induction false} CoversTransitive(a: Marks, b: Marks, c: Marks)
    requires Covers(a, b) && Covers(b, c)
    ensures Covers(a, c)
  {
    forall rel | rel in c ensures c[rel] <= Highest(a, rel) {
      assert c[rel] <= Highest(b, rel);
      assert rel in b ==> b[rel] <= Highest(a, rel);
    }
  }

  lemma {:induction false} AfterKeeps(t: Track, es: seq<Event>)
    requires Inv(t)
    ensures Inv(After(t, es)) && Covers(After(t, es).marks, t.marks)
    decreases |es|
  {
    hide Inv, Next, Covers;
    if es == [] {
      CoversSelf(t.marks, map[]);
    } else {
      NextKeeps(t, es[0]);
      MarksGrow(t, es[0]);
      AfterKeeps(Next(t, es[0]), es[1..]);
      CoversTransitive(After(t, es).marks, Next(t, es[0]).marks, t.marks);
    }
  }

  lemma {:induction false} AfterSplit(t: Track, es: seq<Event>, fs: seq<Event>)
    ensures After(t, es + fs) == After(After(t, es), fs)
    decreases |es|
  {
    hide Next;
    if es == [] {
      assert es + fs == fs;
    } else {
      AfterSplit(Next(t, es[0]), es[1..], fs);
      assert (es + fs)[0] == es[0] && (es + fs)[1..] == es[1..] + fs;
    }
  }

  /** The history of a node from the moment it is first started. */
  function History(n: Node, es: seq<Event>): Track { After(Track(n, map[]), es) }

  function Outcome(n: Node, es: seq<Event>, i: nat): Outcome
    requires i < |es|
  {
    Result(History(n, es[..i]), es[i])
  }

  lemma {:induction false} HistoryInv(n: Node, es: seq<Event>)
    requires Fresh(n)
    ensures Inv(History(n, es))
  {
    AfterKeeps(Track(n, map[]), es);
  }

  /** Whatever an earlier completed call recorded for a path (a version issued, received, confirmed, or found
      in a manifest that was opened, reloaded or put in place), every version issued later is above it. */
  lemma {:induction false} NeverReused(n: Node, es: seq<Event>, i: nat, j: nat, rel: string)
    requires Fresh(n) && i < j < |es|
    requires es[j].op.Bump? && es[j].op.rel == rel && Outcome(n, es, j).Bumped?
    ensures Highest(Recorded(es[i].op, Outcome(n, es, i)), rel) < Outcome(n, es, j).v
  {
    hide Inv, Next, Recorded, Raised, Apply;
    var before, middle := es[..i], es[i + 1..j];
    var t := History(n, before);
    var u := Next(t, es[i]);
    HistoryInv(n, before);
    NextKeeps(t, es[i]);
    MarksGrow(t, es[i]);
    AfterKeeps(u, middle);
    assert es[..j] == before + ([es[i]] + middle);
    AfterSplit(Track(n, map[]), before, [es[i]] + middle);
    assert ([es[i]] + middle)[0] == es[i] && ([es[i]] + middle)[1..] == middle;
    assert History(n, es[..j]) == After(u, middle);
    CoversTransitive(After(u, middle).marks, u.marks, Recorded(es[i].op, Outcome(n, es, i)));
    IssuedAbove(History(n, es[..j]), es[j]);
  }

  /** In particular the versions issued for one path strictly increase. */
  lemma {:induction false} IssuedIncrease(n: Node, es: seq<Event>, i: nat, j: nat)
    requires Fresh(n) && i < j < |es| && es[i].op.Bump? && es[j].op.Bump? && es[i].op.rel == es[j].op.rel
    requires Outcome(n, es, i).Bumped? && Outcome(n, es, j).Bumped?
    ensures Outcome(n, es, i).v < Outcome(n, es, j).v
  {
    NeverReused(n, es, i, j, es[j].op.rel);
  }

  // ---- The end of the number range ----

  function Previous(m: Manifest, rel: string): U64 { if rel in m then m[rel].version else 0 }

  /** No version that the files may hold is left above what is known. */
  predicate Exhausted(m: Manifest, s: Marks, rel: string) { Max(Previous(m, rel), Highest(s, rel)) >= MAX - 1 }

  predicate Ready(n: Node) {
    n.open && n.manifest.Some? && ValidManifest(n.manifest.value) && n.state.Some? && ValidMarks(n.state.value)
  }

  lemma {:induction false} NextVersionIs(m: Manifest, s: Marks, rel: string)
    requires ValidManifest(m) && ValidMarks(s)
    ensures ValidMarks(map[rel := NextVersion(m, rel, Highest(s, rel))]) <==> Paths.Safe(rel) && !Exhausted(m, s, rel)
    ensures !Exhausted(m, s, rel) ==> NextVersion(m, rel, Highest(s, rel)) == Max(Previous(m, rel), Highest(s, rel)) + 1
  {
    hide Paths.Safe;
    var v := NextVersion(m, rel, Highest(s, rel));
    assert rel in map[rel := v];
    assert rel in m ==> ValidMark(rel, m[rel].version);
    assert rel in s ==> ValidMark(rel, s[rel]);
  }

  /** Memory is as it was, or holds what the files hold; the files are as they were. */
  predicate OnlyLoaded(n: Node, n': Node) {
    && n'.diskManifest == n.diskManifest && n'.diskState == n.diskState && n'.open == n.open
    && (n'.manifest == n.manifest || (n.manifest.None? && n'.manifest == n.diskManifest))
    && (n'.state == n.state || (n.state.None? && n'.state == Some(n.diskState)))
  }

  lemma {:induction false} NeedsOnlyLoad(n: Node, fault: Fault)
    ensures var (n1, ok1) := NeedManifest(n, fault);
            var (n2, ok2) := NeedState(n1, fault);
            && OnlyLoaded(n, n1) && OnlyLoaded(n, n2) && (ok1 ==> Some(n1.manifest.value) == Seen(n))
            && n2.manifest == n1.manifest && (ok2 ==> n2.state.value == SeenMarks(n))
  {
    hide ValidManifest, ValidMarks;
  }

  /** At the top of the range, on any node and whatever reads and saves do, the call fails, both files stay, and
      memory is at most filled from them. */
  lemma {:induction false} ExhaustedChangesNothing(t: Track, rel: string, size: nat, crc: nat, publisher: string, now: nat,
                                                  fault: Fault)
    requires Inv(t)
    requires Seen(t.node).Some? ==>
               !SameContent(Seen(t.node).value, rel, size, crc) && Exhausted(Seen(t.node).value, SeenMarks(t.node), rel)
    ensures var (n, out) := BumpCall(t.node, rel, size, crc, publisher, now, fault); out == Failed && OnlyLoaded(t.node, n)
  {
    hide Inv, ValidManifest, ValidMarks, Exhausted, NeedManifest, NeedState, OnlyLoaded;
    var (n1, ok1) := NeedManifest(t.node, fault);
    var (n2, ok2) := NeedState(n1, fault);
    NeedsOnlyLoad(t.node, fault);
    LoadKeeps(t, fault);
    LoadKeeps(Track(n1, t.marks), fault);
    if ok1 && ok2 {
      ManifestOf(Track(n1, t.marks));
      MarksOf(Track(n2, t.marks));
      NextVersionIs(n1.manifest.value, n2.state.value, rel);
    }
  }

  lemma {:induction false} MarksOf(t: Track)
    requires Inv(t) && t.node.state.Some?
    ensures ValidMarks(t.node.state.value)
  {
  }

  // ---- The native implementation ----

  /** What the native manifest does with a publication above a floor; `None` is a refusal. */
  function NativeBump(m: Manifest, rel: string, size: nat, crc: nat, publisher: string, now: nat, floor: U64)
    : Option<(Manifest, Outcome)>
  {
    if !Paths.NativeSafe(Paths.Utf8(rel)) then None
    else if SameContent(m, rel, size, crc) then Some((m, Unchanged(m[rel].version)))
    else
      var highest := Max(Previous(m, rel), floor);
      if highest >= MAX - 1 then None
      else Some((m[rel := Entry(highest + 1, size, crc, now, publisher)], Bumped(highest + 1)))
  }

  /** The node after a calm call that ended as the native manifest says. */
  function Settled(n: Node, rel: string, r: Option<(Manifest, Outcome)>): (Node, Outcome)
    requires n.state.Some?
  {
    match r
    case None => (n, Failed)
    case Some((m, out)) =>
      if out.Bumped?
      then var s := Raised(n.state.value, map[rel := out.v]);
           (n.(diskManifest := Some(m), manifest := Some(m), diskState := s, state := Some(s)), out)
      else (n, out)
  }

  predicate Agree(n: Node, rel: string, size: nat, crc: nat, publisher: string, now: nat)
    requires Ready(n)
  {
    BumpCall(n, rel, size, crc, publisher, now, CALM)
      == Settled(n, rel, NativeBump(n.manifest.value, rel, size, crc, publisher, now, Highest(n.state.value, rel)))
  }

  predicate NoLatin1Control(rel: string) { forall i :: 0 <= i < |rel| ==> !Paths.Latin1Control(rel[i]) }

  lemma {:induction false} RaisedMore(s: Marks, rel: string, v: U64)
    requires v > Highest(s, rel)
    ensures Raised(s, map[rel := v]) != s
  {
    assert rel in map[rel := v];
    assert Highest(Raised(s, map[rel := v]), rel) == v;
  }

  lemma {:induction false} AgreeOnSame(n: Node, rel: string, size: nat, crc: nat, publisher: string, now: nat)
    requires Ready(n) && SameContent(n.manifest.value, rel, size, crc)
    ensures Agree(n, rel, size, crc, publisher, now) && NoLatin1Control(rel)
  {
    hide Paths.Safe, Paths.NativeSafe;
    assert ValidMark(rel, n.manifest.value[rel].version);
    Paths.ValidatorsAgree(rel);
  }

  lemma {:induction false} RustBump(n: Node, rel: string, size: nat, crc: nat, publisher: string, now: nat)
    requires Ready(n) && !SameContent(n.manifest.value, rel, size, crc)
    ensures var (m, s) := (n.manifest.value, n.state.value);
            BumpCall(n, rel, size, crc, publisher, now, CALM)
            == if Paths.Safe(rel) && !Exhausted(m, s, rel)
               then var v: U64 := Max(Previous(m, rel), Highest(s, rel)) + 1;
                    Settled(n, rel, Some((m[rel := Entry(v, size, crc, now, publisher)], Bumped(v))))
               else (n, Failed)
  {
    hide ValidManifest, ValidMarks, Paths.Safe, Raised;
    var m, s := n.manifest.value, n.state.value;
    NextVersionIs(m, s, rel);
    if !Exhausted(m, s, rel) { RaisedMore(s, rel, Max(Previous(m, rel), Highest(s, rel)) + 1); }
  }

  /** The two implementations give the same version and the same files, unless the path holds a character from
      U+0080 to U+009F that only one of them refuses. */
  lemma {:induction false} NativeAgrees(n: Node, rel: string, size: nat, crc: nat, publisher: string, now: nat)
    requires Ready(n)
    ensures Agree(n, rel, size, crc, publisher, now)
            <==> (|| NoLatin1Control(rel) || !Paths.NativeSafe(Paths.Utf8(rel))
                  || Exhausted(n.manifest.value, n.state.value, rel))
  {
    hide ValidManifest, ValidMarks, Paths.Safe, Paths.NativeSafe, BumpCall, Raised;
    Paths.ValidatorsAgree(rel);
    if SameContent(n.manifest.value, rel, size, crc) {
      AgreeOnSame(n, rel, size, crc, publisher, now);
    } else {
      RustBump(n, rel, size, crc, publisher, now);
    }
  }

  // ---- Versions reported without being recorded ----

  /** The call reports an unchanged file's version, and no version issued later for that path, whatever
      happens in between, is at or below it. */
  ghost predicate ReportHolds(t: Track, e: Event)
    requires e.op.Bump? && Result(t, e).Unchanged?
  {
    forall es: seq<Event>, f: Event ::
      f.op.Bump? && f.op.rel == e.op.rel && Result(After(Next(t, e), es), f).Bumped?
      ==> Result(t, e).v < Result(After(Next(t, e), es), f).v
  }

  /** A memory manifest ahead of the high-water mark: a reload that read the file and could not note it. */
  lemma {:induction false} ReportedUnrecorded(t: Track, e: Event) returns (es: seq<Event>, f: Event)
    requires Inv(t) && e.op.Bump? && Result(t, e).Unchanged?
    requires Result(t, e).v > Highest(Next(t, e).node.state.value, e.op.rel)
    ensures f.op.Bump? && f.op.rel == e.op.rel && Result(After(Next(t, e), es), f).Bumped?
    ensures Result(After(Next(t, e), es), f).v <= Result(t, e).v
  {
    hide Raised, Paths.Safe;
    var n := Next(t, e).node;
    var rel, v := e.op.rel, Result(t, e).v;
    NextKeeps(t, e);
    var e1, e2 := Event(Checkout(Some(map[])), CALM), Event(Reload, CALM);
    es := [e1] + [e2];
    f := Event(Bump(rel, 0, 0, "", 0), CALM);
    assert n.open && ValidMark(rel, v) && n.state.Some?;
    var n1 := Next(Next(t, e), e1).node;
    assert n1 == n.(diskManifest := Some(map[]));
    assert VersionsOf(map[]) == map[];
    RaisedNothing(n.state.value);
    var n2 := Next(Next(Next(t, e), e1), e2).node;
    assert n2 == n1.(manifest := Some(map[]));
    AfterSplit(Next(t, e), [e1], [e2]);
    AfterOne(Next(t, e), e1);
    AfterOne(Next(Next(t, e), e1), e2);
    assert After(Next(t, e), es).node == n2;
    RustBump(n2, rel, 0, 0, "", 0);
  }

  lemma {:induction false} AfterOne(t: Track, e: Event)
    ensures After(t, [e]) == Next(t, e)
  {
    hide Next;
    assert [e][1..] == [] && [e][0] == e;
  }

  /** What the call reports and leaves behind, said of the node it found. */
  lemma {:induction false} ReportIs(t: Track, e: Event)
    requires e.op.Bump? && Result(t, e).Unchanged?
    ensures Seen(t.node).Some? && e.op.rel in Seen(t.node).value
    ensures Result(t, e).v == Seen(t.node).value[e.op.rel].version
    ensures Next(t, e).node.state == Some(SeenMarks(t.node))
  {
    hide ValidManifest, ValidMarks, Raised;
  }

  /** A version about to be reported as unchanged is protected exactly when the high-water mark the call works
      with has reached the manifest entry it works with. */
  lemma {:induction false} ReportHoldsIff(t: Track, e: Event)
    requires Inv(t) && e.op.Bump? && Result(t, e).Unchanged?
    ensures Seen(t.node).Some? && e.op.rel in Seen(t.node).value
    ensures ReportHolds(t, e) <==> Seen(t.node).value[e.op.rel].version <= Highest(SeenMarks(t.node), e.op.rel)
  {
    hide Inv, Raised;
    ReportIs(t, e);
    var u := Next(t, e);
    var rel, v := e.op.rel, Result(t, e).v;
    if v <= Highest(u.node.state.value, rel) {
      forall es: seq<Event>, f: Event |
        f.op.Bump? && f.op.rel == e.op.rel && Result(After(u, es), f).Bumped?
        ensures v < Result(After(u, es), f).v
      {
        ReportProtected(t, e, es, f);
      }
    } else {
      var es, f := ReportedUnrecorded(t, e);
    }
  }

  lemma {:induction false} ReportProtected(t: Track, e: Event, es: seq<Event>, f: Event)
    requires Inv(t) && e.op.Bump? && Result(t, e).Unchanged?
    requires Next(t, e).node.state.Some? && Result(t, e).v <= Highest(Next(t, e).node.state.value, e.op.rel)
    requires f.op.Bump? && f.op.rel == e.op.rel && Result(After(Next(t, e), es), f).Bumped?
    ensures Result(t, e).v < Result(After(Next(t, e), es), f).v
  {
    var u := Next(t, e);
    NextKeeps(t, e);
    var marked := Track(u.node, u.node.state.value);
    MarkedInv(u);
    AfterKeeps(marked, es);
    SameNode(u, marked, es);
    IssuedAbove(After(marked, es), f);
    CoversAt(After(marked, es).marks, marked.marks, e.op.rel);
  }

  lemma {:induction false} CoversAt(s: Marks, marks: Marks, rel: string)
    requires Covers(s, marks)
    ensures Highest(marks, rel) <= Highest(s, rel)
  {
  }

  /** The marks in memory may themselves be taken as recorded. */
  lemma {:induction false} MarkedInv(u: Track)
    requires Inv(u) && u.node.state.Some?
    ensures Inv(Track(u.node, u.node.state.value))
  {
    CoversSelf(u.node.state.value, map[]);
  }

  lemma {:induction false} SameNode(t: Track, u: Track, es: seq<Event>)
    requires t.node == u.node
    ensures After(t, es).node == After(u, es).node
    decreases |es|
  {
    if es != [] { SameNode(Next(t, es[0]), Next(u, es[0]), es[1..]); }
  }

  const BARE := Node(Some(map[]), map[], false, None, None)
  const ROLLED: Manifest := map["a" := Entry(10, 1, 1, 0, "")]
  const PUBLISH := Event(Bump("a", 1, 1, "", 0), CALM)

  lemma {:induction false} SafeName()
    ensures Paths.Safe("a")
  {
    Paths.SplitFirst("a", 1);
  }

  lemma {:induction false} AfterThree(t: Track, e1: Event, e2: Event, e3: Event)
    ensures After(t, [e1, e2, e3]) == Next(Next(Next(t, e1), e2), e3)
  {
    hide Next;
    assert [e1, e2, e3] == [e1] + ([e2] + [e3]);
    AfterSplit(t, [e1], [e2] + [e3]);
    AfterSplit(Next(t, e1), [e2], [e3]);
    AfterOne(t, e1);
    AfterOne(Next(t, e1), e2);
    AfterOne(Next(Next(t, e1), e2), e3);
  }

  const SPOILED := Node(Some(ROLLED), map[], true, Some(ROLLED), Some(map[]))

  lemma {:induction false} SpoiledReload(n: Node, marks: Marks)
    requires n == SPOILED.(manifest := Some(map[]))
    ensures Next(Track(n, marks), Event(Reload, Fault(true, true, Cut(false), Stored))) == Track(SPOILED, marks)
  {
    hide Raised, Paths.Safe;
    SafeName();
    assert VersionsOf(ROLLED) == map["a" := 10];
    RaisedMore(map[], "a", 10);
    RaisedNothing(marks);
  }

  /** Such a report is reachable: a checked-out manifest is reloaded while the high-water file cannot be
      saved, and publishing the same content then reports a version that will be issued again. */
  lemma {:induction false} ReportCanOutrun() returns (es: seq<Event>)
    ensures Fresh(BARE) && Result(History(BARE, es), PUBLISH) == Unchanged(10)
    ensures !ReportHolds(History(BARE, es), PUBLISH)
  {
    hide Raised, Paths.Safe, After, Inv, ReportHolds, ReloadCall;
    var e1 := Event(Open, CALM);
    var e2 := Event(Checkout(Some(ROLLED)), CALM);
    var e3 := Event(Reload, Fault(true, true, Cut(false), Stored));
    es := [e1, e2, e3];
    RaisedNothing(map[]);
    assert VersionsOf(map[]) == map[];
    AfterThree(Track(BARE, map[]), e1, e2, e3);
    assert Next(Track(BARE, map[]), e1) == Track(Node(Some(map[]), map[], true, Some(map[]), Some(map[])), map[]);
    SpoiledReload(SPOILED.(manifest := Some(map[])), map[]);
    assert History(BARE, es) == Track(SPOILED, map[]);
    HistoryInv(BARE, es);
    ReportHoldsIff(Track(SPOILED, map[]), PUBLISH);
  }
}
