/** The journal over whole runs: appends that succeed, fail or are cut short by a crash after any number
    of bytes, and reopenings. */
module JournalRuns {
  import opened Base
  import opened Canonical
  import opened JournalRow
  import opened JournalChain
  import opened JournalHistory

  const SPOOL_BYTES: nat := 1024 * 1024 * 1024

  /** The owning process: absent, or holding the fields of the source's `State`. */
  datatype Process = Down | Up(head: Head, bytes: nat, poisoned: bool)

  /** `acked` lists the heads that completed appends have returned, in order. */
  datatype Machine = Machine(disk: string, process: Process, acked: seq<Head>)

  const FRESH: Machine := Machine("", Down, [])

  predicate Healthy(s: Machine) { s.process.Up? && !s.process.poisoned }

  /** The row an append over `head` would write. */
  function NextRow(sha: Hash, stream: string, head: Head, input: string): (r: Option<string>)
    ensures r.Some? ==> RowHead(r.value).Some?
  {
    match JournalEvent(input)
    case None => None
    case Some(event) =>
      match Row(sha, stream, head, event)
      case None => None
      case Some(row) => if RowHead(row).Some? then Some(row) else None
  }

  /** The append reaches the disk write: it is valid, the process is healthy and the spool has room for
      the row and its newline. */
  predicate Writes(sha: Hash, stream: string, s: Machine, input: string) {
    && Healthy(s)
    && NextRow(sha, stream, s.process.head, input).Some?
    && s.process.bytes <= SPOOL_BYTES
    && |NextRow(sha, stream, s.process.head, input).value| + 1 <= SPOOL_BYTES - s.process.bytes
  }

  function Written(sha: Hash, stream: string, s: Machine, input: string): string
    requires Writes(sha, stream, s, input)
  {
    NextRow(sha, stream, s.process.head, input).value + ['\n']
  }

  function NewHead(sha: Hash, stream: string, s: Machine, input: string): Head
    requires Writes(sha, stream, s, input)
  {
    RowHead(NextRow(sha, stream, s.process.head, input).value).value
  }

  predicate AppendDone(sha: Hash, stream: string, s: Machine, s': Machine, input: string) {
    && Writes(sha, stream, s, input)
    && s'.disk == s.disk + Written(sha, stream, s, input)
    && s'.process == Up(NewHead(sha, stream, s, input),
                        s.process.bytes + |Written(sha, stream, s, input)|, false)
    && s'.acked == s.acked + [NewHead(sha, stream, s, input)]
  }

  /** The first `k` bytes of the entry reached the disk and nothing was acknowledged. */
  predicate CutShort(sha: Hash, stream: string, s: Machine, s': Machine, input: string, k: nat) {
    && Writes(sha, stream, s, input)
    && k <= |Written(sha, stream, s, input)|
    && s'.disk == s.disk + Written(sha, stream, s, input)[..k]
    && s'.acked == s.acked
  }

  /** The write or the flush failed after `k` bytes: the caller sees an error and the owner is poisoned. */
  predicate AppendUncertain(sha: Hash, stream: string, s: Machine, s': Machine, input: string, k: nat) {
    && CutShort(sha, stream, s, s', input, k)
    && s'.process == Up(s.process.head, s.process.bytes, true)
  }

  /** The process died inside an append after `k` bytes. */
  predicate CrashInAppend(sha: Hash, stream: string, s: Machine, s': Machine, input: string, k: nat) {
    CutShort(sha, stream, s, s', input, k) && s'.process == Down
  }

  predicate Stopped(s: Machine, s': Machine) {
    s'.disk == s.disk && s'.process == Down && s'.acked == s.acked
  }

  predicate Recoverable(sha: Hash, stream: string, disk: string) {
    |disk| <= SPOOL_BYTES && Identifier(stream) && Scan(sha, stream, GENESIS, disk).Some?
  }

  predicate Reopened(sha: Hash, stream: string, s: Machine, s': Machine) {
    && s.process.Down?
    && s'.disk == s.disk && s'.acked == s.acked
    && s'.process == if Recoverable(sha, stream, s.disk)
                     then Up(Scan(sha, stream, GENESIS, s.disk).value, |s.disk|, false)
                     else Down
  }

  ghost predicate Next(sha: Hash, stream: string, s: Machine, s': Machine) {
    || s' == s
    || (exists input :: AppendDone(sha, stream, s, s', input))
    || (exists input, k :: AppendUncertain(sha, stream, s, s', input, k))
    || (exists input, k :: CrashInAppend(sha, stream, s, s', input, k))
    || Stopped(s, s')
    || Reopened(sha, stream, s, s')
  }

  // ---- The invariant ----

  /** The disk is complete verified rows followed by a piece of one row; a healthy process sits at the end
      of complete rows; every acknowledged head is the head of that many rows. */
  ghost predicate Shape(sha: Hash, stream: string, s: Machine, rows: seq<string>, tail: string) {
    && Identifier(stream)
    && s.disk == Lines(rows) + tail && '\n' !in tail && |s.disk| <= SPOOL_BYTES
    && Chain(sha, stream, GENESIS, rows).Some?
    && (Healthy(s) ==>
          tail == "" && Some(s.process.head) == Chain(sha, stream, GENESIS, rows)
          && s.process.bytes == |s.disk|)
    && forall i :: 0 <= i < |s.acked| ==> Recorded(sha, stream, rows, s.acked[i])
  }

  predicate Recorded(sha: Hash, stream: string, rows: seq<string>, head: Head) {
    head.number <= |rows| && Chain(sha, stream, GENESIS, rows[..head.number]) == Some(head)
  }

  ghost predicate Inv(sha: Hash, stream: string, s: Machine) {
    exists rows, tail :: Shape(sha, stream, s, rows, tail)
  }

  lemma {:induction false} RecordedLonger(sha: Hash, stream: string, rows: seq<string>, row: string, head: Head)
    requires Recorded(sha, stream, rows, head)
    ensures Recorded(sha, stream, rows + [row], head)
  {
    hide Chain;
    assert (rows + [row])[..head.number] == rows[..head.number];
  }

  /** What an append writes extends the history by one verified row. */
  lemma {:induction false} RowExtends(sha: Hash, stream: string, rows: seq<string>, head: Head, input: string)
    requires Identifier(stream) && Chain(sha, stream, GENESIS, rows) == Some(head)
    requires NextRow(sha, stream, head, input).Some?
    ensures var row := NextRow(sha, stream, head, input).value;
            && '\n' !in row && row != []
            && RowHead(row).Some? && Chain(sha, stream, GENESIS, rows + [row]) == RowHead(row)
            && RowHead(row).value.number == |rows| + 1
  {
    hide JournalEvent, Row, RowHead, VerifyRow, Chain, HexHash, Identifier;
    RowNumbers(sha, stream, rows);
    var row := NextRow(sha, stream, head, input).value;
    RowLeavesRoom(sha, stream, head, JournalEvent(input).value);
    WrittenRowVerifies(sha, stream, head, input);
    ChainSnoc(sha, stream, GENESIS, rows, row);
  }

  lemma {:induction false} RowLeavesRoom(sha: Hash, stream: string, head: Head, event: string)
    requires Row(sha, stream, head, event).Some?
    ensures head.number < MAX_SAFE_INTEGER
  {
  }

  lemma {:induction false} DoneKeeps(sha: Hash, stream: string, s: Machine, s': Machine, input: string,
                                     rows: seq<string>)
    requires Shape(sha, stream, s, rows, "") && Healthy(s) && AppendDone(sha, stream, s, s', input)
    ensures Inv(sha, stream, s')
  {
    hide NextRow, RowHead, Chain, Identifier;
    RowExtends(sha, stream, rows, s.process.head, input);
    var row := NextRow(sha, stream, s.process.head, input).value;
    var rows' := rows + [row];
    LinesSnoc(rows, row);
    assert s'.disk == Lines(rows') + "";
    assert rows'[..|rows'|] == rows';
    forall i | 0 <= i < |s'.acked| ensures Recorded(sha, stream, rows', s'.acked[i]) {
      if i < |s.acked| {
        RecordedLonger(sha, stream, rows, row, s.acked[i]);
      }
    }
    assert Shape(sha, stream, s', rows', "");
  }

  /** A cut-short append leaves either a piece of a row behind or the whole row. */
  lemma {:induction false} TornKeeps(sha: Hash, stream: string, s: Machine, s': Machine, input: string, k: nat,
                                     rows: seq<string>)
    requires Shape(sha, stream, s, rows, "") && CutShort(sha, stream, s, s', input, k) && !Healthy(s')
    ensures Inv(sha, stream, s')
  {
    hide NextRow, RowHead, Chain, Identifier;
    RowExtends(sha, stream, rows, s.process.head, input);
    var row := NextRow(sha, stream, s.process.head, input).value;
    var entry := row + ['\n'];
    if k <= |row| {
      assert entry[..k] == row[..k];
      assert Shape(sha, stream, s', rows, row[..k]);
    } else {
      assert entry[..k] == entry;
      LinesSnoc(rows, row);
      assert s'.disk == Lines(rows + [row]) + "";
      forall i | 0 <= i < |s'.acked| ensures Recorded(sha, stream, rows + [row], s'.acked[i]) {
        RecordedLonger(sha, stream, rows, row, s.acked[i]);
      }
      assert Shape(sha, stream, s', rows + [row], "");
    }
  }

  /** What recovery finds on a disk of this shape. */
  lemma {:induction false} ScanShape(sha: Hash, stream: string, s: Machine, rows: seq<string>, tail: string)
    requires Shape(sha, stream, s, rows, tail)
    ensures Scan(sha, stream, GENESIS, s.disk)
            == if tail == "" then Chain(sha, stream, GENESIS, rows) else None
  {
    hide Chain, VerifyRow;
    ScanOfLines(sha, stream, GENESIS, rows, tail);
  }

  lemma {:induction false} ReopenKeeps(sha: Hash, stream: string, s: Machine, s': Machine,
                                       rows: seq<string>, tail: string)
    requires Shape(sha, stream, s, rows, tail) && Reopened(sha, stream, s, s')
    ensures Inv(sha, stream, s')
  {
    hide Chain, Scan, Identifier;
    ScanShape(sha, stream, s, rows, tail);
    assert Shape(sha, stream, s', rows, tail);
  }

  lemma {:induction false} NextKeeps(sha: Hash, stream: string, s: Machine, s': Machine)
    requires Inv(sha, stream, s) && Next(sha, stream, s, s')
    ensures Inv(sha, stream, s')
  {
    hide NextRow, Chain, Identifier, Reopened, AppendDone, Recorded;
    var rows, tail :| Shape(sha, stream, s, rows, tail);
    if s' == s {
    } else if exists input :: AppendDone(sha, stream, s, s', input) {
      var input :| AppendDone(sha, stream, s, s', input);
      AppendDoneWrites(sha, stream, s, s', input);
      DoneKeeps(sha, stream, s, s', input, rows);
    } else if exists input, k :: AppendUncertain(sha, stream, s, s', input, k) {
      var input, k :| AppendUncertain(sha, stream, s, s', input, k);
      TornKeeps(sha, stream, s, s', input, k, rows);
    } else if exists input, k :: CrashInAppend(sha, stream, s, s', input, k) {
      var input, k :| CrashInAppend(sha, stream, s, s', input, k);
      TornKeeps(sha, stream, s, s', input, k, rows);
    } else if Stopped(s, s') {
      assert Shape(sha, stream, s', rows, tail);
    } else {
      ReopenKeeps(sha, stream, s, s', rows, tail);
    }
  }

  lemma {:induction false} AppendDoneWrites(sha: Hash, stream: string, s: Machine, s': Machine, input: string)
    requires AppendDone(sha, stream, s, s', input)
    ensures Writes(sha, stream, s, input)
  {
  }

  // ---- Runs ----

  ghost predicate Run(sha: Hash, stream: string, ss: seq<Machine>) {
    && ss != [] && ss[0] == FRESH
    && forall i :: 0 <= i < |ss| - 1 ==> Next(sha, stream, ss[i], ss[i + 1])
  }

  lemma {:induction false} FreshInv(sha: Hash, stream: string)
    requires Identifier(stream)
    ensures Inv(sha, stream, FRESH)
  {
    assert Lines([]) + "" == "";
    assert Shape(sha, stream, FRESH, [], "");
  }

  lemma {:induction false} RunInv(sha: Hash, stream: string, ss: seq<Machine>, i: nat)
    requires Identifier(stream) && Run(sha, stream, ss) && i < |ss|
    ensures Inv(sha, stream, ss[i])
  {
    hide Inv, Next, Identifier;
    if i == 0 {
      FreshInv(sha, stream);
    } else {
      RunInv(sha, stream, ss, i - 1);
      assert Next(sha, stream, ss[i - 1], ss[i - 1 + 1]);
      NextKeeps(sha, stream, ss[i - 1], ss[i]);
    }
  }

  predicate AtBoundary(disk: string) { disk == [] || disk[|disk| - 1] == '\n' }

  lemma {:induction false} LinesEnd(rows: seq<string>)
    ensures AtBoundary(Lines(rows))
  {
    if rows != [] {
      LinesEnd(rows[1..]);
    }
  }

  /** Crash safety: in every state of every run, recovery succeeds exactly when the disk ends at a row
      boundary; it then returns the head of all rows on disk, which includes every head an append ever
      returned, at its own position. */
  lemma {:induction false} RecoveryIsExact(sha: Hash, stream: string, ss: seq<Machine>, i: nat)
    returns (rows: seq<string>)
    requires Identifier(stream) && Run(sha, stream, ss) && i < |ss|
    ensures var r := Scan(sha, stream, GENESIS, ss[i].disk);
            && (r.Some? <==> AtBoundary(ss[i].disk))
            && (r.Some? ==> ss[i].disk == Lines(rows) && r == Chain(sha, stream, GENESIS, rows)
                            && r.value.number == |rows|)
            && (Healthy(ss[i]) ==> r == Some(ss[i].process.head))
    ensures |ss[i].disk| <= SPOOL_BYTES
    ensures forall a :: 0 <= a < |ss[i].acked| ==> Recorded(sha, stream, rows, ss[i].acked[a])
  {
    hide Chain, Identifier, Recorded, Scan, Run;
    RunInv(sha, stream, ss, i);
    var found, tail :| Shape(sha, stream, ss[i], found, tail);
    rows := found;
    ScanShape(sha, stream, ss[i], rows, tail);
    RowNumbers(sha, stream, rows);
    LinesEnd(rows);
    assert tail == "" ==> Lines(rows) + tail == Lines(rows);
    assert tail != "" ==> ss[i].disk[|ss[i].disk| - 1] == tail[|tail| - 1];
  }

  /** Acknowledgements are never taken back: the list only grows along a run. */
  lemma {:induction false} AcksGrow(sha: Hash, stream: string, ss: seq<Machine>, i: nat, j: nat)
    requires Run(sha, stream, ss) && i <= j < |ss|
    ensures ss[i].acked <= ss[j].acked
    decreases j
  {
    hide NextRow, NewHead, Scan;
    if i < j {
      AcksGrow(sha, stream, ss, i, j - 1);
      assert Next(sha, stream, ss[j - 1], ss[j - 1 + 1]);
    }
  }

  /** A torn disk stays torn: once recovery refuses, nothing in any later state changes the disk or gives
      out a healthy process. */
  lemma {:induction false} TornStaysRefused(sha: Hash, stream: string, ss: seq<Machine>, i: nat, j: nat)
    requires Identifier(stream) && Run(sha, stream, ss) && i <= j < |ss|
    requires Scan(sha, stream, GENESIS, ss[i].disk).None?
    ensures ss[j].disk == ss[i].disk && !Healthy(ss[j])
    decreases j
  {
    hide NextRow, Scan, Identifier;
    if i == j {
      HealthyIsReadable(sha, stream, ss, i);
    } else {
      TornStaysRefused(sha, stream, ss, i, j - 1);
      assert Next(sha, stream, ss[j - 1], ss[j - 1 + 1]);
    }
  }

  lemma {:induction false} HealthyIsReadable(sha: Hash, stream: string, ss: seq<Machine>, i: nat)
    requires Identifier(stream) && Run(sha, stream, ss) && i < |ss|
    ensures Healthy(ss[i]) ==> Scan(sha, stream, GENESIS, ss[i].disk).Some?
  {
    hide Run, Scan, Identifier;
    var rows := RecoveryIsExact(sha, stream, ss, i);
  }

  /** A healthy process builds a row for every valid event until the numbers run out, and refuses it only for
      want of room; room for the largest row is always enough. */
  lemma {:induction false} AppendIff(sha: Hash, stream: string, ss: seq<Machine>, i: nat, input: string)
    requires Identifier(stream) && Run(sha, stream, ss) && i < |ss| && Healthy(ss[i])
    ensures NextRow(sha, stream, ss[i].process.head, input).Some?
            <==> JournalEvent(input).Some? && ss[i].process.head.number < MAX_SAFE_INTEGER
    ensures Writes(sha, stream, ss[i], input)
            <==> (&& NextRow(sha, stream, ss[i].process.head, input).Some?
                  && |ss[i].disk| + |NextRow(sha, stream, ss[i].process.head, input).value| + 1 <= SPOOL_BYTES)
    ensures NextRow(sha, stream, ss[i].process.head, input).Some? && |ss[i].disk| + ROW_BYTES <= SPOOL_BYTES
            ==> Writes(sha, stream, ss[i], input)
  {
    hide Chain, Identifier, Recorded, Scan, Run, JournalEvent, Row, RowHead, VerifyRow, HexHash;
    RunInv(sha, stream, ss, i);
    var rows, tail :| Shape(sha, stream, ss[i], rows, tail);
    RowNumbers(sha, stream, rows);
    var head := ss[i].process.head;
    if JournalEvent(input).Some? && head.number < MAX_SAFE_INTEGER {
      WrittenRowVerifies(sha, stream, head, input);
    }
    if NextRow(sha, stream, head, input).Some? {
      RowLeavesRoom(sha, stream, head, JournalEvent(input).value);
      WrittenRowVerifies(sha, stream, head, input);
    }
  }
}
