/** The project manager's calls, statement by statement, each proved to do what `Versions` says. */
module VersionManager {
  import opened Base
  import Paths
  import opened Versions
  import opened VersionLaws

  class ProjectManager {
    var diskManifest: Option<Manifest>
    var diskState: Marks
    var open: bool
    var manifest: Option<Manifest>
    var state: Option<Marks>

    function Value(): Node
      reads this
    {
      Node(diskManifest, diskState, open, manifest, state)
    }

    constructor (manifestFile: Option<Manifest>, stateFile: Marks)
      ensures Value() == Node(manifestFile, stateFile, false, None, None)
      ensures ValidMarks(stateFile) ==> Fresh(Value()) && Inv(Track(Value(), map[]))
    {
      diskManifest, diskState, open, manifest, state := manifestFile, stateFile, false, None, None;
    }

    method LoadManifestUnlocked(fault: Fault) returns (ok: bool)
      modifies this`manifest
      ensures (Value(), ok) == LoadManifest(old(Value()), fault)
    {
      if !open || !fault.readsManifest || diskManifest.None? || !ValidManifest(diskManifest.value) {
        return false;
      }
      manifest := diskManifest;
      return true;
    }

    method LoadStateUnlocked(fault: Fault) returns (ok: bool)
      modifies this`state
      ensures (Value(), ok) == LoadState(old(Value()), fault)
    {
      if !open || !fault.readsState || !ValidMarks(diskState) {
        return false;
      }
      state := Some(diskState);
      return true;
    }

    /** The entries are noted in a copy; the copy is saved, then kept. */
    method NoteVersionsUnlocked(versions: Marks, save: Save) returns (ok: bool)
      requires state.Some?
      modifies this`diskState, this`state
      ensures (Value(), ok) == Note(old(Value()), versions, save)
    {
      if !open {
        return false;
      }
      var noted, changed := NoteAll(state.value, versions);
      if noted.None? {
        return false;
      }
      var snapshot := noted.value;
      if changed {
        if save.Cut? {
          if save.written { diskState := snapshot; }
          return false;
        }
        diskState := snapshot;
        state := Some(snapshot);
      }
      return true;
    }

    method BumpFileVersion(rel: string, size: nat, crc: nat, publisher: string, now: nat, fault: Fault)
      returns (out: Outcome)
      modifies this
      ensures (Value(), out) == BumpCall(old(Value()), rel, size, crc, publisher, now, fault)
    {
      hide Note;
      if manifest.None? {
        var ok := LoadManifestUnlocked(fault);
        if !ok { return Failed; }
      }
      if state.None? {
        var ok := LoadStateUnlocked(fault);
        if !ok { return Failed; }
      }
      if !open { return Failed; }
      var files, outcome := BumpAtLeast(manifest.value, rel, size, crc, publisher, now, Highest(state.value, rel));
      if outcome.Bumped? {
        var noted := NoteVersionsUnlocked(map[rel := outcome.v], fault.first);
        if !noted { return Failed; }
        var saved := SaveFiles(files, fault.second);
        if !saved { return Failed; }
      }
      return outcome;
    }

    method SaveFiles(files: Manifest, save: Save) returns (ok: bool)
      modifies this`diskManifest, this`manifest
      ensures (Value(), ok) == SaveManifest(old(Value()), files, save)
    {
      if save.Cut? {
        if save.written { diskManifest := Some(files); }
        return false;
      }
      diskManifest := Some(files);
      manifest := Some(files);
      return true;
    }

    method RecordReceivedFile(rel: string, version: U64, size: nat, crc: nat, publisher: string, now: nat, force: bool,
                              fault: Fault)
      returns (out: Outcome)
      modifies this
      ensures (Value(), out) == ReceiveCall(old(Value()), rel, version, size, crc, publisher, now, force, fault)
    {
      hide Note;
      if manifest.None? {
        var ok := LoadManifestUnlocked(fault);
        if !ok { return Failed; }
      }
      if state.None? {
        var ok := LoadStateUnlocked(fault);
        if !ok { return Failed; }
      }
      if !open { return Failed; }
      var files := manifest.value;
      var noted := NoteVersionsUnlocked(map[rel := version], fault.first);
      if !noted { return Failed; }
      if rel in files && files[rel].version >= version && !force {
        return Wrote(false);
      }
      files := files[rel := Entry(version, size, crc, now, publisher)];
      var saved := SaveFiles(files, fault.second);
      return if saved then Wrote(true) else Failed;
    }

    method ReloadManifest(fault: Fault) returns (out: Outcome)
      modifies this
      ensures (Value(), out) == ReloadCall(old(Value()), fault)
    {
      hide Note;
      var loaded := LoadManifestUnlocked(fault);
      if !loaded { return Failed; }
      if state.None? {
        var ok := LoadStateUnlocked(fault);
        if !ok { return Failed; }
      }
      var files := manifest.value;
      var noted := NoteVersionsUnlocked(VersionsOf(files), fault.first);
      return if noted then Loaded(files) else Failed;
    }

    method ReplaceManifest(files: Manifest, fault: Fault) returns (out: Outcome)
      modifies this
      ensures (Value(), out) == ReplaceCall(old(Value()), files, fault)
    {
      hide Note;
      if !open { return Failed; }
      if state.None? {
        var ok := LoadStateUnlocked(fault);
        if !ok { return Failed; }
      }
      var noted := NoteVersionsUnlocked(VersionsOf(files), fault.first);
      if !noted { return Failed; }
      var saved := SaveFiles(files, fault.second);
      return if saved then Done else Failed;
    }

    method NoteConfirmedVersion(rel: string, version: U64, fault: Fault) returns (out: Outcome)
      modifies this
      ensures (Value(), out) == ConfirmCall(old(Value()), rel, version, fault)
    {
      hide Note;
      if state.None? {
        var ok := LoadStateUnlocked(fault);
        if !ok { return Failed; }
      }
      var noted := NoteVersionsUnlocked(map[rel := version], fault.first);
      return if noted then Done else Failed;
    }

    method OpenProject(fault: Fault) returns (out: Outcome)
      modifies this
      ensures (Value(), out) == OpenCall(old(Value()), fault)
    {
      hide Raised;
      if open { return Failed; }
      if !fault.readsManifest || diskManifest.None? || !ValidManifest(diskManifest.value) { return Failed; }
      if !fault.readsState || !ValidMarks(diskState) { return Failed; }
      var files := diskManifest.value;
      ValidVersions(files);
      var noted, changed := NoteAll(diskState, VersionsOf(files));
      if changed {
        if fault.first.Cut? {
          if fault.first.written { diskState := noted.value; }
          return Failed;
        }
        diskState := noted.value;
      }
      open, manifest, state := true, Some(files), noted;
      return Loaded(files);
    }
  }

  /** The copy after one entry; `None` for an entry the file format refuses. */
  function NoteOne(s: Marks, rel: string, version: U64): (r: Option<Marks>)
    ensures r == if ValidMark(rel, version) then Some(Raised(s, map[rel := version])) else None
  {
    if !ValidMark(rel, version) then None
    else
      var t := if version <= Highest(s, rel) then s else s[rel := version];
      assert t == Raised(s, map[rel := version]);
      Some(t)
  }

  ghost function Without(versions: Marks, todo: set<string>): Marks {
    map rel | rel in versions && rel !in todo :: versions[rel]
  }

  lemma {:induction false} RaisedSame(s: Marks, seen: Marks)
    ensures Raised(s, seen) == s <==> forall rel :: rel in seen ==> rel in s && seen[rel] <= s[rel]
  {
    var r := Raised(s, seen);
    if r == s {
      forall rel | rel in seen ensures rel in s && seen[rel] <= s[rel] { assert rel in r; }
    }
  }

  lemma {:induction false} RaisedAt(s: Marks, seen: Marks, rel: string)
    ensures rel in Raised(s, seen) <==> rel in s || rel in seen
    ensures Highest(Raised(s, seen), rel) == Max(Highest(s, rel), Highest(seen, rel))
  {
  }

  lemma {:induction false} RaisedTwice(s: Marks, seen: Marks, rel: string, version: U64)
    requires rel !in seen
    ensures Raised(Raised(s, seen), map[rel := version]) == Raised(s, seen[rel := version])
  {
    hide Raised;
    var one, both := Raised(Raised(s, seen), map[rel := version]), Raised(s, seen[rel := version]);
    forall r ensures (r in one <==> r in both) && Highest(one, r) == Highest(both, r) {
      RaisedAt(s, seen, r);
      RaisedAt(Raised(s, seen), map[rel := version], r);
      RaisedAt(s, seen[rel := version], r);
    }
    assert forall r :: r in one ==> one[r] == Highest(one, r);
    assert forall r :: r in both ==> both[r] == Highest(both, r);
  }

  lemma {:induction false} RaisedOne(s: Marks, seen: Marks, rel: string, version: U64)
    requires rel !in seen
    ensures Raised(Raised(s, seen), map[rel := version]) == Raised(s, seen[rel := version])
    ensures Raised(s, seen) == s || Raised(s, seen[rel := version]) != s
  {
    hide Raised;
    RaisedTwice(s, seen, rel, version);
    RaisedSame(s, seen);
    RaisedSame(s, seen[rel := version]);
    assert forall r :: r in seen ==> r in seen[rel := version] && seen[rel := version][r] == seen[r];
  }

  /** Entries one by one, in any order; the first bad entry ends it. */
  method NoteAll(s: Marks, versions: Marks) returns (r: Option<Marks>, changed: bool)
    ensures r == if ValidMarks(versions) then Some(Raised(s, versions)) else None
    ensures r.Some? ==> changed == (r.value != s)
  {
    hide Raised, ValidMark;
    var snapshot := s;
    changed := false;
    var todo := versions.Keys;
    assert Without(versions, versions.Keys) == map[];
    RaisedNothing(s);
    while todo != {}
      invariant todo <= versions.Keys && ValidMarks(Without(versions, todo))
      invariant snapshot == Raised(s, Without(versions, todo)) && changed == (snapshot != s)
    {
      var rel :| rel in todo;
      ghost var seen := Without(versions, todo);
      todo := todo - {rel};
      var raised := NoteOne(snapshot, rel, versions[rel]);
      if raised.None? {
        assert !ValidMarks(versions);
        return None, changed;
      }
      assert Without(versions, todo) == seen[rel := versions[rel]];
      RaisedOne(s, seen, rel, versions[rel]);
      changed := changed || raised.value != snapshot;
      snapshot := raised.value;
    }
    assert Without(versions, {}) == versions;
    return Some(snapshot), changed;
  }

  method BumpAtLeast(files: Manifest, rel: string, size: nat, crc: nat, publisher: string, now: nat, floor: U64)
    returns (after: Manifest, outcome: Outcome)
    ensures SameContent(files, rel, size, crc) ==> after == files && outcome == Unchanged(files[rel].version)
    ensures !SameContent(files, rel, size, crc) ==>
              var v := NextVersion(files, rel, floor);
              after == files[rel := Entry(v, size, crc, now, publisher)] && outcome == Bumped(v)
  {
    if rel in files {
      var e := files[rel];
      if e.size == size && e.crc == crc {
        return files, Unchanged(e.version);
      }
      var v := Max(SatInc(e.version), SatInc(floor));
      return files[rel := Entry(v, size, crc, now, publisher)], Bumped(v);
    }
    var v := Max(1, SatInc(floor));
    return files[rel := Entry(v, size, crc, now, publisher)], Bumped(v);
  }

  /** The native manifest. */
  class ManifestVersions {
    var files: Manifest

    method Bump(rel: string, size: nat, crc: nat, publisher: string, now: nat, floor: U64) returns (out: Option<Outcome>)
      modifies this
      ensures match NativeBump(old(files), rel, size, crc, publisher, now, floor)
              case None => out.None? && files == old(files)
              case Some((after, outcome)) => out == Some(outcome) && files == after
    {
      var safe := Paths.IsSafeRelativePath(Paths.Utf8(rel));
      if !safe { return None; }
      if rel in files && files[rel].size == size && files[rel].crc == crc {
        return Some(Unchanged(files[rel].version));
      }
      var previous := if rel in files then files[rel].version else 0;
      var highest := Max(previous, floor);
      if highest >= MAX - 1 { return None; }
      files := files[rel := Entry(highest + 1, size, crc, now, publisher)];
      return Some(Bumped(highest + 1));
    }
  }
}
