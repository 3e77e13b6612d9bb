/** What each call on a project leaves behind, and when a call without faults succeeds: said of the manifest and the
    marks found and left, for every fate of reads and saves. */
module VersionEffects {
  import opened Base
  import Paths
  import opened Versions
  import opened VersionLaws

  // ---- Vocabulary ----

  /** The files and what is in memory allow a call to go through. */
  predicate Usable(n: Node) {
    n.open && Seen(n).Some? && ValidManifest(Seen(n).value) && ValidMarks(SeenMarks(n))
  }

  /** One path has this entry, every other path has what it had. */
  ghost predicate OnlyEntry(m: Manifest, m': Manifest, rel: string, e: Entry) {
    && rel in m' && m'[rel] == e
    && forall other :: other != rel ==> (other in m' <==> other in m) && (other in m ==> m'[other] == m[other])
  }

  /** Every mark is the higher of what was found and what was seen; the file holds the marks of memory, or what it
      held before when nothing rose. */
  ghost predicate MarksRaised(n: Node, n': Node, seen: Marks) {
    && n'.state.Some?
    && (forall rel :: Highest(n'.state.value, rel) == Max(Highest(SeenMarks(n), rel), Highest(seen, rel)))
    && (n'.diskState == n'.state.value || (n'.diskState == n.diskState && n'.state.value == SeenMarks(n)))
  }

  /** Memory and file hold this manifest. */
  predicate BothHold(n: Node, m: Manifest) { n.manifest == Some(m) && n.diskManifest == Some(m) }

  /** Memory is as found or loaded, and the manifest file is as it was. */
  predicate ManifestKept(n: Node, n': Node) {
    n'.diskManifest == n.diskManifest && (n'.manifest == n.manifest || (n.manifest.None? && n'.manifest == n.diskManifest))
  }

  // ---- Parts of calls ----

  lemma {:induction false} NoteEffect(n: Node, seen: Marks, save: Save)
    requires n.state.Some?
    ensures var (n', ok) := Note(n, seen, save);
            && n'.manifest == n.manifest && n'.diskManifest == n.diskManifest && n'.open == n.open
            && (ok ==> ValidMarks(seen) && MarksRaised(n, n', seen))
            && (save.Stored? ==> (ok <==> n.open && ValidMarks(seen)))
            && (!ok && !(n.open && ValidMarks(seen)) ==> n' == n)
            && (!ok ==> n'.state == n.state)
  {
    hide ValidMarks;
    var r := Raised(n.state.value, seen);
    forall rel ensures Highest(r, rel) == Max(Highest(n.state.value, rel), Highest(seen, rel)) { }
  }

  lemma {:induction false} NeedsEffect(n: Node, fault: Fault)
    ensures var (n1, ok1) := NeedManifest(n, fault);
            var (n2, ok2) := NeedState(n1, fault);
            && OnlyLoaded(n, n1) && OnlyLoaded(n, n2)
            && (ok1 ==> n1.manifest == Seen(n)) && n2.manifest == n1.manifest
            && (ok2 ==> n2.state == Some(SeenMarks(n))) && SeenMarks(n2) == SeenMarks(n)
            && (fault.readsManifest && fault.readsState && Usable(n) ==> ok1 && ok2)
  {
    hide ValidManifest, ValidMarks;
  }

  lemma {:induction false} RaisedFrom(n: Node, n2: Node, n': Node, seen: Marks)
    requires MarksRaised(n2, n', seen) && n2.diskState == n.diskState && SeenMarks(n2) == SeenMarks(n)
    ensures MarksRaised(n, n', seen)
  {
  }

  // ---- Receiving ----

  /** The received version is to be written: unknown here, newer than what is here, or asked for. */
  predicate Takes(m: Manifest, rel: string, version: U64, force: bool) {
    rel !in m || m[rel].version < version || force
  }

  lemma {:induction false} ReceiveEffect(n: Node, rel: string, version: U64, size: nat, crc: nat, publisher: string, now: nat,
                                         force: bool, fault: Fault)
    ensures var (n', out) := ReceiveCall(n, rel, version, size, crc, publisher, now, force, fault);
            var received := Entry(version, size, crc, now, publisher);
            && (out.Wrote? || out.Failed?)
            && (out.Wrote? ==>
                  && Seen(n).Some? && MarksRaised(n, n', map[rel := version])
                  && (out.changed <==> Takes(Seen(n).value, rel, version, force))
                  && (out.changed ==>
                        n'.manifest.Some? && BothHold(n', n'.manifest.value)
                        && OnlyEntry(Seen(n).value, n'.manifest.value, rel, received))
                  && (!out.changed ==> ManifestKept(n, n') && n'.manifest == Seen(n)))
            && (out.Failed? ==>
                  || ManifestKept(n, n')
                  || (&& Seen(n).Some? && Takes(Seen(n).value, rel, version, force) && fault.second.Cut?
                      && n'.manifest == Seen(n)
                      && n'.diskManifest.Some? && OnlyEntry(Seen(n).value, n'.diskManifest.value, rel, received)))
  {
    hide Note, NeedManifest, NeedState, MarksRaised, ValidManifest, ValidMarks;
    NeedsEffect(n, fault);
    var (n1, ok1) := NeedManifest(n, fault);
    var (n2, ok2) := NeedState(n1, fault);
    if ok1 && ok2 && n2.open {
      NoteEffect(n2, map[rel := version], fault.first);
      var (n3, ok3) := Note(n2, map[rel := version], fault.first);
      if ok3 {
        RaisedFrom(n, n2, n3, map[rel := version]);
        SaveMarks(n, n3, map[rel := version], n1.manifest.value[rel := Entry(version, size, crc, now, publisher)], fault.second);
      }
    }
  }

  lemma {:induction false} SaveMarks(n: Node, n3: Node, seen: Marks, m: Manifest, save: Save)
    requires MarksRaised(n, n3, seen)
    ensures MarksRaised(n, SaveManifest(n3, m, save).0, seen)
  {
  }

  /** Without force the entry left is the newer of the one found and the one received. */
  lemma {:induction false} ReceiveKeepsNewest(n: Node, rel: string, version: U64, size: nat, crc: nat, publisher: string,
                                              now: nat, fault: Fault)
    ensures var (n', out) := ReceiveCall(n, rel, version, size, crc, publisher, now, false, fault);
            out.Wrote? ==> Seen(n).Some? && Seen(n').Some? && rel in Seen(n').value
                           && Seen(n').value[rel].version == Max(Previous(Seen(n).value, rel), version)
  {
    hide ReceiveCall, MarksRaised;
    ReceiveEffect(n, rel, version, size, crc, publisher, now, false, fault);
  }

  /** Without faults receiving succeeds on a usable node exactly for a safe path and a version within the range. */
  lemma {:induction false} ReceiveSucceedsIff(n: Node, rel: string, version: U64, size: nat, crc: nat, publisher: string,
                                              now: nat, force: bool)
    requires Usable(n)
    ensures var (n', out) := ReceiveCall(n, rel, version, size, crc, publisher, now, force, CALM);
            && (out.Wrote? <==> Paths.Safe(rel) && 0 < version < MAX)
            && (!out.Wrote? ==> OnlyLoaded(n, n'))
  {
    hide Note, NeedManifest, NeedState, MarksRaised, ValidManifest, Paths.Safe;
    NeedsEffect(n, CALM);
    var n2 := NeedState(NeedManifest(n, CALM).0, CALM).0;
    NoteEffect(n2, map[rel := version], Stored);
    OneMark(rel, version);
  }

  lemma {:induction false} OneMark(rel: string, version: U64)
    ensures ValidMarks(map[rel := version]) <==> Paths.Safe(rel) && 0 < version < MAX
  {
    hide Paths.Safe;
    assert rel in map[rel := version];
  }

  // ---- Publishing ----

  lemma {:induction false} BumpEffect(n: Node, rel: string, size: nat, crc: nat, publisher: string, now: nat, fault: Fault)
    ensures var (n', out) := BumpCall(n, rel, size, crc, publisher, now, fault);
            && (out.Bumped? || out.Unchanged? || out.Failed?)
            && (out.Bumped? ==>
                  && Seen(n).Some? && !SameContent(Seen(n).value, rel, size, crc)
                  && MarksRaised(n, n', map[rel := out.v])
                  && n'.manifest.Some? && BothHold(n', n'.manifest.value)
                  && OnlyEntry(Seen(n).value, n'.manifest.value, rel, Entry(out.v, size, crc, now, publisher)))
            && (out.Unchanged? ==>
                  Seen(n).Some? && SameContent(Seen(n).value, rel, size, crc) && OnlyLoaded(n, n')
                  && out.v == Seen(n).value[rel].version)
            && (out.Failed? ==>
                  || ManifestKept(n, n')
                  || (&& Seen(n).Some? && !SameContent(Seen(n).value, rel, size, crc) && fault.second.Cut?
                      && n'.manifest == Seen(n) && n'.diskManifest.Some? && rel in n'.diskManifest.value
                      && OnlyEntry(Seen(n).value, n'.diskManifest.value, rel,
                                   Entry(n'.diskManifest.value[rel].version, size, crc, now, publisher))
                      && n'.diskManifest.value[rel].version <= Highest(n'.diskState, rel)))
  {
    hide Note, NeedManifest, NeedState, MarksRaised, ValidManifest, ValidMarks, NextVersion;
    NeedsEffect(n, fault);
    var (n1, ok1) := NeedManifest(n, fault);
    var (n2, ok2) := NeedState(n1, fault);
    if ok1 && ok2 && n2.open && !SameContent(n1.manifest.value, rel, size, crc) {
      var v := NextVersion(n1.manifest.value, rel, Highest(n2.state.value, rel));
      NoteEffect(n2, map[rel := v], fault.first);
      var (n3, ok3) := Note(n2, map[rel := v], fault.first);
      if ok3 {
        RaisedFrom(n, n2, n3, map[rel := v]);
        SaveMarks(n, n3, map[rel := v], n1.manifest.value[rel := Entry(v, size, crc, now, publisher)], fault.second);
        NextIsAbove(n1.manifest.value, rel, Highest(n2.state.value, rel));
        NotedOnDisk(n2, rel, v, fault.first);
      }
    }
  }

  /** A version above all marks is on disk once it is noted. */
  lemma {:induction false} NotedOnDisk(n: Node, rel: string, v: U64, save: Save)
    requires n.state.Some? && Note(n, map[rel := v], save).1 && v > Highest(n.state.value, rel)
    ensures v <= Highest(Note(n, map[rel := v], save).0.diskState, rel)
  {
    hide ValidMarks;
    RaisedMore(n.state.value, rel, v);
  }

  lemma {:induction false} NextIsAbove(m: Manifest, rel: string, floor: U64)
    requires ValidMarks(map[rel := NextVersion(m, rel, floor)])
    ensures NextVersion(m, rel, floor) > floor
  {
    hide Paths.Safe;
    assert rel in map[rel := NextVersion(m, rel, floor)];
  }

  /** Without faults publishing new content succeeds on a usable node exactly for a safe path with a number left, and
      gives it the next number above entry and mark. */
  lemma {:induction false} BumpSucceedsIff(n: Node, rel: string, size: nat, crc: nat, publisher: string, now: nat)
    requires Usable(n)
    ensures var (n', out) := BumpCall(n, rel, size, crc, publisher, now, CALM);
            var (m, s) := (Seen(n).value, SeenMarks(n));
            if SameContent(m, rel, size, crc) then out == Unchanged(m[rel].version)
            else if Paths.Safe(rel) && !Exhausted(m, s, rel) then out == Bumped(Max(Previous(m, rel), Highest(s, rel)) + 1)
            else out == Failed && OnlyLoaded(n, n')
  {
    hide Note, NeedManifest, NeedState, MarksRaised, ValidManifest, ValidMarks, Paths.Safe, NextVersion, Exhausted;
    NeedsEffect(n, CALM);
    var n2 := NeedState(NeedManifest(n, CALM).0, CALM).0;
    var v := NextVersion(Seen(n).value, rel, Highest(SeenMarks(n), rel));
    NoteEffect(n2, map[rel := v], Stored);
    NextVersionIs(Seen(n).value, SeenMarks(n), rel);
  }

  // ---- Replacing, reloading, confirming, opening ----

  lemma {:induction false} ReplaceEffect(n: Node, m: Manifest, fault: Fault)
    ensures var (n', out) := ReplaceCall(n, m, fault);
            && (out.Done? || out.Failed?)
            && (out.Done? ==> ValidManifest(m) && BothHold(n', m) && MarksRaised(n, n', VersionsOf(m)))
            && (out.Failed? ==> n'.manifest == n.manifest && (n'.diskManifest == n.diskManifest || n'.diskManifest == Some(m)))
            && (fault == CALM && n.open && ValidMarks(SeenMarks(n)) ==> (out.Done? <==> ValidManifest(m)))
  {
    hide Note, NeedState, MarksRaised, ValidManifest, ValidMarks, VersionsOf;
    StateEffect(n, fault);
    ValidVersions(m);
    var (n1, ok1) := NeedState(n, fault);
    if n.open && ok1 {
      NoteEffect(n1, VersionsOf(m), fault.first);
      var (n2, ok2) := Note(n1, VersionsOf(m), fault.first);
      if ok2 {
        RaisedFrom(n, n1, n2, VersionsOf(m));
        SaveMarks(n, n2, VersionsOf(m), m, fault.second);
      }
    }
  }

  lemma {:induction false} StateEffect(n: Node, fault: Fault)
    ensures var (n1, ok1) := NeedState(n, fault);
            && OnlyLoaded(n, n1) && n1.manifest == n.manifest && SeenMarks(n1) == SeenMarks(n)
            && (ok1 ==> n1.state == Some(SeenMarks(n)))
            && (fault.readsState && n.open && ValidMarks(SeenMarks(n)) ==> ok1)
  {
    hide ValidMarks;
  }

  lemma {:induction false} ReloadEffect(n: Node, fault: Fault)
    ensures var (n', out) := ReloadCall(n, fault);
            && (out.Loaded? || out.Failed?) && n'.diskManifest == n.diskManifest
            && (out.Loaded? ==>
                  n.diskManifest == Some(out.m) && ValidManifest(out.m) && n'.manifest == Some(out.m)
                  && MarksRaised(n, n', VersionsOf(out.m)))
            && (out.Failed? ==> n'.manifest == n.manifest || n'.manifest == n.diskManifest)
            && (fault == CALM && n.open && ValidMarks(SeenMarks(n)) ==>
                  (out.Loaded? <==> n.diskManifest.Some? && ValidManifest(n.diskManifest.value)))
  {
    hide Note, NeedState, MarksRaised, ValidManifest, ValidMarks, VersionsOf;
    var (n1, ok1) := LoadManifest(n, fault);
    if ok1 {
      StateEffect(n1, fault);
      ValidVersions(n.diskManifest.value);
      var (n2, ok2) := NeedState(n1, fault);
      if ok2 {
        NoteEffect(n2, VersionsOf(n.diskManifest.value), fault.first);
        var (n3, ok3) := Note(n2, VersionsOf(n.diskManifest.value), fault.first);
        if ok3 { RaisedFrom(n, n2, n3, VersionsOf(n.diskManifest.value)); }
      }
    }
  }

  lemma {:induction false} ConfirmEffect(n: Node, rel: string, version: U64, fault: Fault)
    ensures var (n', out) := ConfirmCall(n, rel, version, fault);
            && (out.Done? || out.Failed?) && n'.manifest == n.manifest && n'.diskManifest == n.diskManifest
            && (out.Done? ==> MarksRaised(n, n', map[rel := version]))
            && (fault == CALM && n.open && ValidMarks(SeenMarks(n)) ==>
                  (out.Done? <==> Paths.Safe(rel) && 0 < version < MAX))
  {
    hide Note, NeedState, MarksRaised, ValidMarks, Paths.Safe;
    StateEffect(n, fault);
    OneMark(rel, version);
    var (n1, ok1) := NeedState(n, fault);
    if ok1 {
      NoteEffect(n1, map[rel := version], fault.first);
      var (n2, ok2) := Note(n1, map[rel := version], fault.first);
      if ok2 { RaisedFrom(n, n1, n2, map[rel := version]); }
    }
  }

  /** An opened project holds the manifest found and marks that cover it, in memory as on disk. */
  lemma {:induction false} OpenEffect(n: Node, fault: Fault)
    requires !n.open ==> n.state.None?
    ensures var (n', out) := OpenCall(n, fault);
            && (out.Loaded? || out.Failed?) && n'.diskManifest == n.diskManifest
            && (out.Loaded? ==>
                  && n'.open && ValidManifest(out.m) && BothHold(n', out.m) && n.diskManifest == Some(out.m)
                  && MarksRaised(n, n', VersionsOf(out.m)) && n'.diskState == n'.state.value)
            && (out.Failed? ==> n'.open == n.open && n'.manifest == n.manifest && n'.state == n.state)
            && (fault == CALM ==>
                  (out.Loaded? <==> !n.open && n.diskManifest.Some? && ValidManifest(n.diskManifest.value)
                                    && ValidMarks(n.diskState)))
  {
    hide ValidManifest, ValidMarks, VersionsOf;
    if n.diskManifest.Some? {
      var r := Raised(n.diskState, VersionsOf(n.diskManifest.value));
      forall rel
        ensures Highest(r, rel) == Max(Highest(n.diskState, rel), Highest(VersionsOf(n.diskManifest.value), rel)) { }
    }
  }
}
