/** Version numbers of published files, for one project of one node.

    The manifest can be rolled back from outside; a separate file keeps, for each path, the highest version
    seen. Failing saves and process crashes are modelled, power loss is not. */
module Versions {
  import opened Base
  import Paths

  const MAX: int := 0xFFFF_FFFF_FFFF_FFFF

  type U64 = x: int | 0 <= x <= MAX

  datatype Entry = Entry(version: U64, size: nat, crc: nat, updatedAt: nat, publisher: string)

  type Manifest = map<string, Entry>
  type Marks = map<string, U64>

  predicate ValidMark(rel: string, v: U64) { Paths.Safe(rel) && 0 < v < MAX }

  predicate ValidManifest(m: Manifest) { forall rel :: rel in m ==> ValidMark(rel, m[rel].version) }

  predicate ValidMarks(s: Marks) { forall rel :: rel in s ==> ValidMark(rel, s[rel]) }

  function Highest(s: Marks, rel: string): U64 { if rel in s then s[rel] else 0 }

  function Max(a: U64, b: U64): U64 { if a < b then b else a }

  function SatInc(v: U64): U64 { if v == MAX then MAX else v + 1 }

  function VersionsOf(m: Manifest): Marks { map rel | rel in m :: m[rel].version }

  /** The pointwise maximum. */
  function Raised(s: Marks, seen: Marks): Marks {
    map rel | rel in s.Keys + seen.Keys :: Max(Highest(s, rel), Highest(seen, rel))
  }

  // ---- One node ----

  /** Files on disk and what the process holds in memory. A manifest file that does not parse, or fails its
      checks, is `None`; a missing one is empty. */
  datatype Node = Node(diskManifest: Option<Manifest>, diskState: Marks,
                       open: bool, manifest: Option<Manifest>, state: Option<Marks>)

  /** How a save goes: replaced and remembered, or the call ends there, by an error or with the process, the file
      replaced or not. */
  datatype Save = Stored | Cut(written: bool)

  datatype Fault = Fault(readsManifest: bool, readsState: bool, first: Save, second: Save)

  const CALM := Fault(true, true, Stored, Stored)

  datatype Outcome = Bumped(v: U64) | Unchanged(v: U64) | Wrote(changed: bool) | Loaded(m: Manifest) | Done | Failed

  function LoadManifest(n: Node, fault: Fault): (Node, bool) {
    if n.open && fault.readsManifest && n.diskManifest.Some? && ValidManifest(n.diskManifest.value)
    then (n.(manifest := n.diskManifest), true) else (n, false)
  }

  function LoadState(n: Node, fault: Fault): (Node, bool) {
    if n.open && fault.readsState && ValidMarks(n.diskState) then (n.(state := Some(n.diskState)), true) else (n, false)
  }

  function NeedManifest(n: Node, fault: Fault): (r: (Node, bool))
    ensures r.1 ==> r.0.manifest.Some?
  {
    if n.manifest.Some? then (n, true) else LoadManifest(n, fault)
  }

  function NeedState(n: Node, fault: Fault): (r: (Node, bool))
    ensures r.1 ==> r.0.state.Some?
  {
    if n.state.Some? then (n, true) else LoadState(n, fault)
  }

  /** Raises the high-water marks, the file first. */
  function Note(n: Node, seen: Marks, save: Save): (Node, bool)
    requires n.state.Some?
  {
    if !n.open || !ValidMarks(seen) then (n, false)
    else
      var r := Raised(n.state.value, seen);
      if r == n.state.value then (n, true)
      else match save
        case Stored => (n.(diskState := r, state := Some(r)), true)
        case Cut(written) => (if written then n.(diskState := r) else n, false)
  }

  function SaveManifest(n: Node, m: Manifest, save: Save): (Node, bool) {
    match save
    case Stored => (n.(diskManifest := Some(m), manifest := Some(m)), true)
    case Cut(written) => (if written then n.(diskManifest := Some(m)) else n, false)
  }

  /** The next version of a path with new content, above both the entry and the floor. */
  function NextVersion(m: Manifest, rel: string, floor: U64): U64 {
    if rel in m then Max(SatInc(m[rel].version), SatInc(floor)) else Max(1, SatInc(floor))
  }

  predicate SameContent(m: Manifest, rel: string, size: nat, crc: nat) {
    rel in m && m[rel].size == size && m[rel].crc == crc
  }

  function BumpCall(n: Node, rel: string, size: nat, crc: nat, publisher: string, now: nat, fault: Fault): (Node, Outcome) {
    var (n1, ok1) := NeedManifest(n, fault);
    if !ok1 then (n1, Failed)
    else
      var (n2, ok2) := NeedState(n1, fault);
      if !ok2 || !n2.open then (n2, Failed)
      else
        var m := n1.manifest.value;
        if SameContent(m, rel, size, crc) then (n2, Unchanged(m[rel].version))
        else
          var v := NextVersion(m, rel, Highest(n2.state.value, rel));
          var (n3, ok3) := Note(n2, map[rel := v], fault.first);
          if !ok3 then (n3, Failed)
          else
            var (n4, ok4) := SaveManifest(n3, m[rel := Entry(v, size, crc, now, publisher)], fault.second);
            (n4, if ok4 then Bumped(v) else Failed)
  }

  function ReceiveCall(n: Node, rel: string, version: U64, size: nat, crc: nat, publisher: string, now: nat,
                       force: bool, fault: Fault): (Node, Outcome) {
    var (n1, ok1) := NeedManifest(n, fault);
    if !ok1 then (n1, Failed)
    else
      var (n2, ok2) := NeedState(n1, fault);
      if !ok2 || !n2.open then (n2, Failed)
      else
        var (n3, ok3) := Note(n2, map[rel := version], fault.first);
        if !ok3 then (n3, Failed)
        else
          var m := n1.manifest.value;
          if rel in m && m[rel].version >= version && !force then (n3, Wrote(false))
          else
            var (n4, ok4) := SaveManifest(n3, m[rel := Entry(version, size, crc, now, publisher)], fault.second);
            (n4, if ok4 then Wrote(true) else Failed)
  }

  /** The manifest is taken from disk before its versions are noted, and kept when noting fails. */
  function ReloadCall(n: Node, fault: Fault): (Node, Outcome) {
    var (n1, ok1) := LoadManifest(n, fault);
    if !ok1 then (n1, Failed)
    else
      var (n2, ok2) := NeedState(n1, fault);
      if !ok2 then (n2, Failed)
      else
        var (n3, ok3) := Note(n2, VersionsOf(n.diskManifest.value), fault.first);
        (n3, if ok3 then Loaded(n.diskManifest.value) else Failed)
  }

  function ReplaceCall(n: Node, m: Manifest, fault: Fault): (Node, Outcome) {
    if !n.open then (n, Failed)
    else
      var (n1, ok1) := NeedState(n, fault);
      if !ok1 then (n1, Failed)
      else
        var (n2, ok2) := Note(n1, VersionsOf(m), fault.first);
        if !ok2 then (n2, Failed)
        else
          var (n3, ok3) := SaveManifest(n2, m, fault.second);
          (n3, if ok3 then Done else Failed)
  }

  function ConfirmCall(n: Node, rel: string, version: U64, fault: Fault): (Node, Outcome) {
    var (n1, ok1) := NeedState(n, fault);
    if !ok1 then (n1, Failed)
    else
      var (n2, ok2) := Note(n1, map[rel := version], fault.first);
      (n2, if ok2 then Done else Failed)
  }

  /** Opening notes the versions of the manifest it finds; memory is filled only when all went well. */
  function OpenCall(n: Node, fault: Fault): (Node, Outcome) {
    if n.open || !fault.readsManifest || n.diskManifest.None? || !ValidManifest(n.diskManifest.value)
       || !fault.readsState || !ValidMarks(n.diskState)
    then (n, Failed)
    else
      var m := n.diskManifest.value;
      var r := Raised(n.diskState, VersionsOf(m));
      if r != n.diskState && fault.first.Cut?
      then (if fault.first.written then n.(diskState := r) else n, Failed)
      else (Node(n.diskManifest, r, true, Some(m), Some(r)), Loaded(m))
  }

  /** The manifest and the marks a call works on: what memory holds, else what the files hold. */
  function Seen(n: Node): Option<Manifest> { if n.manifest.Some? then n.manifest else n.diskManifest }

  function SeenMarks(n: Node): Marks { if n.state.Some? then n.state.value else n.diskState }

  // ---- Histories ----

  /** `Close` stands for the end of the process too: it starts again with no project open. */
  datatype Op =
    | Bump(rel: string, size: nat, crc: nat, publisher: string, now: nat)
    | Receive(rel: string, version: U64, size: nat, crc: nat, publisher: string, now: nat, force: bool)
    | Reload
    | Replace(m: Manifest)
    | Confirm(rel: string, version: U64)
    | Open
    | Close
    | Checkout(found: Option<Manifest>)

  datatype Event = Event(op: Op, fault: Fault)

  function Apply(n: Node, e: Event): (Node, Outcome) {
    match e.op
    case Bump(rel, size, crc, publisher, now) => BumpCall(n, rel, size, crc, publisher, now, e.fault)
    case Receive(rel, version, size, crc, publisher, now, force) =>
      ReceiveCall(n, rel, version, size, crc, publisher, now, force, e.fault)
    case Reload => ReloadCall(n, e.fault)
    case Replace(m) => ReplaceCall(n, m, e.fault)
    case Confirm(rel, version) => ConfirmCall(n, rel, version, e.fault)
    case Open => OpenCall(n, e.fault)
    case Close => (n.(open := false, manifest := None, state := None), Done)
    case Checkout(found) => (n.(diskManifest := found), Done)
  }

  /** The versions a call has recorded on this node by completing. */
  function Recorded(op: Op, out: Outcome): Marks {
    match op
    case Bump(rel, _, _, _, _) => if out.Bumped? then map[rel := out.v] else map[]
    case Receive(rel, version, _, _, _, _, _) => if out.Wrote? then map[rel := version] else map[]
    case Reload => if out.Loaded? then VersionsOf(out.m) else map[]
    case Replace(m) => if out.Done? then VersionsOf(m) else map[]
    case Confirm(rel, version) => if out.Done? then map[rel := version] else map[]
    case Open => if out.Loaded? then VersionsOf(out.m) else map[]
    case _ => map[]
  }

  /** A node with the highest version recorded so far for each path. */
  datatype Track = Track(node: Node, marks: Marks)

  function Next(t: Track, e: Event): Track {
    var (n, out) := Apply(t.node, e);
    Track(n, Raised(t.marks, Recorded(e.op, out)))
  }

  function Result(t: Track, e: Event): Outcome { Apply(t.node, e).1 }

  function After(t: Track, es: seq<Event>): Track
    decreases |es|
  {
    if es == [] then t else After(Next(t, es[0]), es[1..])
  }

  predicate Fresh(n: Node) { !n.open && n.manifest.None? && n.state.None? && ValidMarks(n.diskState) }

  // ---- The invariant ----

  predicate Covers(s: Marks, marks: Marks) { forall rel :: rel in marks ==> marks[rel] <= Highest(s, rel) }

  /** What was recorded is covered in memory and on disk, and the file is never behind memory. */
  predicate Inv(t: Track) {
    && ValidMarks(t.node.diskState) && Covers(t.node.diskState, t.marks)
    && (t.node.state.Some? ==>
          ValidMarks(t.node.state.value) && Covers(t.node.state.value, t.marks)
          && Covers(t.node.diskState, t.node.state.value))
    && (t.node.manifest.Some? ==> ValidManifest(t.node.manifest.value))
    && (!t.node.open ==> t.node.manifest.None? && t.node.state.None?)
  }

  lemma {:induction false} CoversRaised(s: Marks, seen: Marks, marks: Marks)
    requires Covers(s, marks)
    ensures Covers(Raised(s, seen), Raised(marks, seen)) && Covers(Raised(s, seen), marks)
  {
    forall rel ensures Highest(Raised(s, seen), rel) == Max(Highest(s, rel), Highest(seen, rel)) { }
  }

  lemma {:induction false} RaisedNothing(s: Marks)
    ensures Raised(s, map[]) == s
  {
  }

  lemma {:induction false} ValidRaised(s: Marks, seen: Marks)
    requires ValidMarks(s) && ValidMarks(seen)
    ensures ValidMarks(Raised(s, seen))
  {
    hide Paths.Safe;
  }

  lemma {:induction false} LoadKeeps(t: Track, fault: Fault)
    requires Inv(t)
    ensures Inv(Track(LoadManifest(t.node, fault).0, t.marks)) && Inv(Track(NeedManifest(t.node, fault).0, t.marks))
    ensures Inv(Track(NeedState(t.node, fault).0, t.marks))
  {
    hide Paths.Safe, ValidMark;
  }

  /** Once the marks are raised, disk and memory cover them; when noting fails nothing is lost. */
  lemma {:induction false} NoteKeeps(t: Track, seen: Marks, save: Save)
    requires Inv(t) && t.node.state.Some?
    ensures var (n, ok) := Note(t.node, seen, save);
            && Inv(Track(n, if ok then Raised(t.marks, seen) else t.marks)) && n.state.Some?
            && n.diskManifest == t.node.diskManifest && n.manifest == t.node.manifest && n.open == t.node.open
            && (ok ==> ValidMarks(seen))
  {
    hide Paths.Safe, ValidMark, Raised;
    if ValidMarks(seen) {
      var s := t.node.state.value;
      ValidRaised(s, seen);
      CoversRaised(s, seen, t.marks);
      CoversSelf(s, seen);
      CoversSelf(Raised(s, seen), seen);
      if Raised(s, seen) == s { RaisedDisk(t, seen); }
    }
  }

  /** Marks that memory covers already are covered by the file as well. */
  lemma {:induction false} RaisedDisk(t: Track, seen: Marks)
    requires Inv(t) && t.node.state.Some? && Raised(t.node.state.value, seen) == t.node.state.value
    ensures Covers(t.node.diskState, Raised(t.marks, seen))
  {
    var s := t.node.state.value;
    forall rel | rel in Raised(t.marks, seen)
      ensures Raised(t.marks, seen)[rel] <= Highest(t.node.diskState, rel)
    {
      assert rel in seen ==> rel in Raised(s, seen) && Raised(s, seen)[rel] >= seen[rel];
      assert rel in s ==> s[rel] <= Highest(t.node.diskState, rel);
    }
  }

  lemma {:induction false} CoversSelf(s: Marks, seen: Marks)
    ensures Covers(Raised(s, seen), s) && Covers(s, s)
  {
  }

  lemma {:induction false} SaveKeeps(t: Track, m: Manifest, save: Save)
    requires Inv(t) && ValidManifest(m) && t.node.open
    ensures Inv(Track(SaveManifest(t.node, m, save).0, t.marks))
  {
    hide ValidManifest, ValidMarks, Covers;
  }

  lemma {:induction false} ValidEntry(m: Manifest, rel: string, e: Entry)
    requires ValidManifest(m) && ValidMarks(map[rel := e.version])
    ensures ValidManifest(m[rel := e])
  {
    hide ValidMark;
    assert rel in map[rel := e.version];
  }

  // ---- Every call keeps it ----

  lemma {:induction false} BumpKeeps(t: Track, e: Event)
    requires Inv(t) && e.op.Bump?
    ensures Inv(Next(t, e))
  {
    hide Inv, Raised, ValidManifest, ValidMarks, Note, NeedState, NeedManifest, LoadManifest;
    RaisedNothing(t.marks);
    var (rel, size, crc) := (e.op.rel, e.op.size, e.op.crc);
    var (n1, ok1) := NeedManifest(t.node, e.fault);
    LoadKeeps(t, e.fault);
    if ok1 {
      var t1 := Track(n1, t.marks);
      LoadKeeps(t1, e.fault);
      var (n2, ok2) := NeedState(n1, e.fault);
      NeedStateRest(n1, e.fault);
      if ok2 && n2.open && !SameContent(n1.manifest.value, rel, size, crc) {
        ManifestOf(Track(n1, t.marks));
        var v := NextVersion(n1.manifest.value, rel, Highest(n2.state.value, rel));
        NoteKeeps(Track(n2, t.marks), map[rel := v], e.fault.first);
        var (n3, ok3) := Note(n2, map[rel := v], e.fault.first);
        if ok3 {
          var entry := Entry(v, size, crc, e.op.now, e.op.publisher);
          ValidEntry(n1.manifest.value, rel, entry);
          SaveKeeps(Track(n3, Raised(t.marks, map[rel := v])), n1.manifest.value[rel := entry], e.fault.second);
          FewerMarks(SaveManifest(n3, n1.manifest.value[rel := entry], e.fault.second).0, t.marks, map[rel := v]);
        }
      }
    }
  }

  lemma {:induction false} NeedStateRest(n: Node, fault: Fault)
    ensures NeedState(n, fault).0.manifest == n.manifest && NeedState(n, fault).0.open == n.open
    ensures NeedState(n, fault).0.diskManifest == n.diskManifest
  {
  }

  lemma {:induction false} ManifestOf(t: Track)
    requires Inv(t) && t.node.manifest.Some?
    ensures ValidManifest(t.node.manifest.value)
  {
  }

  /** Covering more marks is covering fewer. */
  lemma {:induction false} FewerMarks(n: Node, marks: Marks, seen: Marks)
    requires Inv(Track(n, Raised(marks, seen)))
    ensures Inv(Track(n, marks))
  {
    hide ValidMark;
    forall s | Covers(s, Raised(marks, seen)) ensures Covers(s, marks) {
      forall rel | rel in marks ensures marks[rel] <= Highest(s, rel) {
        assert rel in Raised(marks, seen) && marks[rel] <= Raised(marks, seen)[rel];
      }
    }
  }

  lemma {:induction false} ReceiveKeeps(t: Track, e: Event)
    requires Inv(t) && e.op.Receive?
    ensures Inv(Next(t, e))
  {
    hide Inv, Raised, ValidManifest, ValidMarks, Note, NeedState, NeedManifest, LoadManifest;
    RaisedNothing(t.marks);
    var (rel, v) := (e.op.rel, e.op.version);
    var (n1, ok1) := NeedManifest(t.node, e.fault);
    LoadKeeps(t, e.fault);
    if ok1 {
      LoadKeeps(Track(n1, t.marks), e.fault);
      var (n2, ok2) := NeedState(n1, e.fault);
      NeedStateRest(n1, e.fault);
      if ok2 && n2.open {
        ManifestOf(Track(n1, t.marks));
        NoteKeeps(Track(n2, t.marks), map[rel := v], e.fault.first);
        var (n3, ok3) := Note(n2, map[rel := v], e.fault.first);
        if ok3 {
          var entry := Entry(v, e.op.size, e.op.crc, e.op.now, e.op.publisher);
          ValidEntry(n1.manifest.value, rel, entry);
          SaveKeeps(Track(n3, Raised(t.marks, map[rel := v])), n1.manifest.value[rel := entry], e.fault.second);
          FewerMarks(SaveManifest(n3, n1.manifest.value[rel := entry], e.fault.second).0, t.marks, map[rel := v]);
        }
      }
    }
  }

  lemma {:induction false} ReloadKeeps(t: Track, e: Event)
    requires Inv(t) && e.op.Reload?
    ensures Inv(Next(t, e))
  {
    hide Inv, Raised, ValidManifest, ValidMarks, Note, NeedState;
    RaisedNothing(t.marks);
    var (n1, ok1) := LoadManifest(t.node, e.fault);
    LoadKeeps(t, e.fault);
    LoadKeeps(Track(n1, t.marks), e.fault);
    var (n2, ok2) := NeedState(n1, e.fault);
    if ok1 && ok2 {
      NoteKeeps(Track(n2, t.marks), VersionsOf(t.node.diskManifest.value), e.fault.first);
    }
  }

  lemma {:induction false} ReplaceKeeps(t: Track, e: Event)
    requires Inv(t) && e.op.Replace?
    ensures Inv(Next(t, e))
  {
    hide Inv, Raised, ValidManifest, ValidMarks, Note, NeedState, VersionsOf;
    RaisedNothing(t.marks);
    LoadKeeps(t, e.fault);
    var (n1, ok1) := NeedState(t.node, e.fault);
    NeedStateRest(t.node, e.fault);
    if t.node.open && ok1 {
      var seen := VersionsOf(e.op.m);
      NoteKeeps(Track(n1, t.marks), seen, e.fault.first);
      var (n2, ok2) := Note(n1, seen, e.fault.first);
      if ok2 {
        ValidVersions(e.op.m);
        SaveKeeps(Track(n2, Raised(t.marks, seen)), e.op.m, e.fault.second);
        FewerMarks(SaveManifest(n2, e.op.m, e.fault.second).0, t.marks, seen);
      }
    }
  }

  lemma {:induction false} ValidVersions(m: Manifest)
    ensures ValidMarks(VersionsOf(m)) <==> ValidManifest(m)
  {
    hide ValidMark;
    forall rel | rel in m ensures rel in VersionsOf(m) && VersionsOf(m)[rel] == m[rel].version { }
  }

  lemma {:induction false} ConfirmKeeps(t: Track, e: Event)
    requires Inv(t) && e.op.Confirm?
    ensures Inv(Next(t, e))
  {
    hide Inv, Raised, ValidMarks, Note, NeedState;
    RaisedNothing(t.marks);
    LoadKeeps(t, e.fault);
    var (n1, ok1) := NeedState(t.node, e.fault);
    if ok1 { NoteKeeps(Track(n1, t.marks), map[e.op.rel := e.op.version], e.fault.first); }
  }

  lemma {:induction false} OpenKeeps(t: Track, e: Event)
    requires Inv(t) && e.op.Open?
    ensures Inv(Next(t, e))
  {
    hide Raised, ValidMark, VersionsOf;
    RaisedNothing(t.marks);
    if t.node.diskManifest.Some? && ValidManifest(t.node.diskManifest.value) {
      var seen := VersionsOf(t.node.diskManifest.value);
      ValidVersions(t.node.diskManifest.value);
      ValidRaised(t.node.diskState, seen);
      CoversRaised(t.node.diskState, seen, t.marks);
      CoversSelf(Raised(t.node.diskState, seen), map[]);
    }
  }

  lemma {:induction false} NextKeeps(t: Track, e: Event)
    requires Inv(t)
    ensures Inv(Next(t, e))
  {
    hide Raised, ValidManifest, ValidMarks, Covers, BumpCall, ReceiveCall, ReloadCall, ReplaceCall, ConfirmCall, OpenCall;
    RaisedNothing(t.marks);
    match e.op {
      case Bump(_, _, _, _, _) => BumpKeeps(t, e);
      case Receive(_, _, _, _, _, _, _) => ReceiveKeeps(t, e);
      case Reload => ReloadKeeps(t, e);
      case Replace(_) => ReplaceKeeps(t, e);
      case Confirm(_, _) => ConfirmKeeps(t, e);
      case Open => OpenKeeps(t, e);
      case _ =>
    }
  }
}
