/** The journal owner as the source writes it: a file with short reads and writes, the chunked recovery
    loop, and `append` with its poisoning rule, each proved against the specification of the runs. */
module Journal {
  import opened Base
  import opened JournalRow
  import opened JournalHistory
  import opened JournalRuns

  const CHUNK: nat := 64 * 1024

  /** The locked journal descriptor. The operating system decides how much each call transfers and
      whether it fails; `failures` counts its failed calls, an empty transfer where bytes were due included. */
  class JournalFile {
    var contents: string
    ghost var failures: nat

    constructor (initial: string)
      ensures contents == initial && failures == 0
    {
      contents, failures := initial, 0;
    }

    /** At most `limit` bytes at the offset. */
    method Read(offset: nat, limit: nat) returns (ok: bool, chunk: string)
      requires offset <= |contents|
      modifies this`failures
      ensures ok ==> |chunk| <= limit && chunk <= contents[offset..]
      ensures failures == old(failures) + if !ok || (chunk == "" && offset < |contents| && limit > 0) then 1 else 0
    {
      ok := *;
      var n: nat :| n <= limit && n <= |contents| - offset;
      chunk := contents[offset..offset + n];
      if !ok || (chunk == "" && offset < |contents| && limit > 0) { failures := failures + 1; }
    }

    /** Appends a prefix of the piece; nothing when it fails. */
    method Write(piece: string) returns (ok: bool, count: nat)
      requires piece != ""
      modifies this
      ensures count <= |piece| && (!ok ==> count == 0) && contents == old(contents) + piece[..count]
      ensures failures == old(failures) + if !ok || count == 0 then 1 else 0
    {
      ok := *;
      count :| count <= |piece| && (!ok ==> count == 0);
      contents := contents + piece[..count];
      if !ok || count == 0 { failures := failures + 1; }
    }

    method Flush() returns (ok: bool)
      modifies this`failures
      ensures failures == old(failures) + if ok then 0 else 1
    {
      ok := *;
      if !ok { failures := failures + 1; }
    }

    /** Writes in pieces and flushes. It succeeds exactly when no call failed; a failure leaves some prefix of
        the row behind. */
    method AppendAndFlush(row: string) returns (ok: bool)
      modifies this
      ensures ok <==> failures == old(failures)
      ensures failures >= old(failures)
      ensures ok ==> contents == old(contents) + row
      ensures !ok ==> exists k :: 0 <= k <= |row| && contents == old(contents) + row[..k]
    {
      var left := row;
      ghost var done := 0;
      while left != ""
        invariant done <= |row| && left == row[done..] && contents == old(contents) + row[..done]
        invariant failures == old(failures)
        decreases |left|
      {
        var size := if |left| < CHUNK then |left| else CHUNK;
        var wrote, count := Write(left[..size]);
        assert left[..size][..count] == row[done..done + count];
        assert row[..done + count] == row[..done] + row[done..done + count];
        done := done + count;
        if !wrote || count == 0 { return false; }
        left := left[count..];
      }
      assert row[..done] == row;
      ok := Flush();
    }
  }

  // ---- Recovery ----

  lemma {:induction false} FeedChar(sha: Hash, stream: string, head: Head, row: string, c: char, rest: string)
    requires '\n' !in row && c != '\n'
    ensures |row| + 1 >= ROW_BYTES ==> Scan(sha, stream, head, row + [c] + rest).None?
  {
    hide VerifyRow;
    var text := row + [c] + rest;
    if |row| + 1 >= ROW_BYTES && '\n' in text {
      var i := FirstNewline(text);
      assert forall k :: 0 <= k <= |row| ==> text[k] != '\n';
      LongRow(sha, stream, head, text[..i]);
    }
  }

  lemma {:induction false} LongRow(sha: Hash, stream: string, head: Head, row: string)
    requires |row| >= ROW_BYTES
    ensures VerifyRow(sha, stream, head, row).None?
  {
  }

  /** The inner loop: feeds one chunk to the row under construction. What has been read so far and what is
      still to come scan together as the whole file does. */
  method Feed(sha: Hash, stream: string, head: Head, row: string, chunk: string, ghost rest: string)
    returns (ok: bool, head': Head, row': string)
    requires '\n' !in row && |row| < ROW_BYTES
    ensures ok ==> '\n' !in row' && |row'| < ROW_BYTES
    ensures ok ==> Scan(sha, stream, head', row' + rest) == Scan(sha, stream, head, row + chunk + rest)
    ensures !ok ==> Scan(sha, stream, head, row + chunk + rest).None?
  {
    hide VerifyRow, Scan;
    head', row' := head, row;
    var i := 0;
    assert row + chunk[0..] + rest == row + chunk + rest;
    while i < |chunk|
      invariant 0 <= i <= |chunk|
      invariant '\n' !in row' && |row'| < ROW_BYTES
      invariant Scan(sha, stream, head', row' + chunk[i..] + rest) == Scan(sha, stream, head, row + chunk + rest)
    {
      ghost var after := chunk[i + 1..] + rest;
      assert row' + chunk[i..] + rest == row' + [chunk[i]] + after;
      if chunk[i] == '\n' {
        ScanRow(sha, stream, head', row', after);
        var next := VerifyRow(sha, stream, head', row');
        if next.None? { return false, head', row'; }
        head', row' := next.value, "";
        assert "" + chunk[i + 1..] + rest == after;
      } else {
        FeedChar(sha, stream, head', row', chunk[i], after);
        if |row'| >= ROW_BYTES - 1 { return false, head', row'; }
        assert row' + [chunk[i]] + after == (row' + [chunk[i]]) + chunk[i + 1..] + rest;
        row' := row' + [chunk[i]];
      }
      i := i + 1;
    }
    assert row' + chunk[i..] + rest == row' + rest;
    ok := true;
  }

  /** The recovery loop. Unless the operating system fails a call, and whatever the sizes of its reads, the
      result is what the whole file scans to. */
  method Recover(file: JournalFile, sha: Hash, stream: string) returns (r: Option<Head>, ioFailed: bool)
    modifies file`failures
    ensures ioFailed <==> file.failures > old(file.failures)
    ensures ioFailed ==> r.None?
    ensures !ioFailed ==> r == if Recoverable(sha, stream, file.contents)
                               then Scan(sha, stream, GENESIS, file.contents) else None
  {
    hide VerifyRow, Scan, Identifier;
    ioFailed := false;
    if !Identifier(stream) { return None, false; }
    var bytes := |file.contents|;
    if bytes > SPOOL_BYTES { return None, false; }
    var head, row, offset := GENESIS, "", 0;
    assert "" + file.contents[0..] == file.contents;
    while offset < bytes
      invariant 0 <= offset <= bytes == |file.contents|
      invariant '\n' !in row && |row| < ROW_BYTES && file.failures == old(file.failures)
      invariant Scan(sha, stream, head, row + file.contents[offset..])
                == Scan(sha, stream, GENESIS, file.contents)
    {
      var ok, chunk := file.Read(offset, CHUNK);
      if !ok || |chunk| == 0 || |chunk| > bytes - offset { return None, true; }
      ghost var rest := file.contents[offset + |chunk|..];
      assert file.contents[offset..] == chunk + rest;
      assert row + file.contents[offset..] == row + chunk + rest;
      ok, head, row := Feed(sha, stream, head, row, chunk, rest);
      if !ok { return None, false; }
      offset := offset + |chunk|;
    }
    assert row + file.contents[offset..] == row;
    ScanEnd(sha, stream, head, row);
    if row != "" { return None, false; }
    r := Some(head);
  }

  lemma {:induction false} ScanEnd(sha: Hash, stream: string, head: Head, row: string)
    requires '\n' !in row
    ensures Scan(sha, stream, head, row) == if row == "" then Some(head) else None
  {
  }

  // ---- The owner ----

  class Owner {
    const sha: Hash
    const stream: string
    const file: JournalFile
    var head: Head
    var bytes: nat
    var poisoned: bool

    /** The owner and its file as a state of the run model, given the acknowledgements so far. */
    ghost function State(acked: seq<Head>): Machine
      reads this, file
    {
      Machine(file.contents, Up(head, bytes, poisoned), acked)
    }

    ghost predicate Valid()
      reads this, file
    {
      !poisoned ==>
        bytes == |file.contents| && Recoverable(sha, stream, file.contents)
        && Scan(sha, stream, GENESIS, file.contents) == Some(head)
    }

    /** Takes over a file that recovery accepted. */
    constructor (sha: Hash, stream: string, file: JournalFile, recovered: Head)
      requires Recoverable(sha, stream, file.contents)
      requires Scan(sha, stream, GENESIS, file.contents) == Some(recovered)
      ensures Valid() && !poisoned && head == recovered && bytes == |file.contents|
      ensures this.sha == sha && this.stream == stream && this.file == file
      ensures Reopened(sha, stream, Machine(file.contents, Down, []), State([]))
    {
      this.sha, this.stream, this.file := sha, stream, file;
      this.head, this.bytes, this.poisoned := recovered, |file.contents|, false;
    }

    method CurrentHead() returns (r: Option<Head>)
      requires Valid()
      ensures r.Some? <==> !poisoned
      ensures r.Some? ==> r == Scan(sha, stream, GENESIS, file.contents)
    {
      if poisoned { return None; }
      r := Some(head);
    }

    /** Appends one event. It succeeds exactly when a healthy owner has room for a valid event and no call of
        the file fails, and then the whole row is on disk; a failed call poisons the owner, which from then on
        refuses everything; a refusal before the write changes nothing. */
    method Append(input: string, ghost acked: seq<Head>) returns (r: Option<Head>)
      requires Valid()
      modifies this, file
      ensures Valid()
      ensures r.Some? <==> Writes(sha, stream, old(State(acked)), input) && file.failures == old(file.failures)
      ensures r.Some? ==> AppendDone(sha, stream, old(State(acked)), State(acked + [r.value]), input)
      ensures poisoned <==> old(poisoned) || file.failures > old(file.failures)
      ensures poisoned && !old(poisoned) ==>
                exists k :: AppendUncertain(sha, stream, old(State(acked)), State(acked), input, k)
      ensures !Writes(sha, stream, old(State(acked)), input) ==>
                State(acked) == old(State(acked)) && file.failures == old(file.failures)
    {
      hide VerifyRow, Scan, RowHead, Row, JournalEvent, Identifier;
      var event := JournalEvent(input);
      if event.None? || poisoned { return None; }
      var row := Row(sha, stream, head, event.value);
      if row.None? { return None; }
      var next := RowHead(row.value);
      if next.None? { return None; }
      var entry := row.value + ['\n'];
      if |entry| > SPOOL_BYTES - bytes { return None; }
      assert Writes(sha, stream, State(acked), input);
      AppendScans(sha, stream, head, file.contents, input);
      var ok := file.AppendAndFlush(entry);
      if !ok {
        poisoned := true;
        ghost var k :| 0 <= k <= |entry| && file.contents == old(file.contents) + entry[..k];
        assert AppendUncertain(sha, stream, old(State(acked)), State(acked), input, k);
        return None;
      }
      bytes := bytes + |entry|;
      head := next.value;
      r := Some(head);
    }
  }

  /** A written row scans on top of the file it was appended to. */
  lemma {:induction false} AppendScans(sha: Hash, stream: string, head: Head, text: string, input: string)
    requires Identifier(stream) && Scan(sha, stream, GENESIS, text) == Some(head)
    requires NextRow(sha, stream, head, input).Some?
    ensures var row := NextRow(sha, stream, head, input).value;
            Scan(sha, stream, GENESIS, text + (row + ['\n'])) == RowHead(row)
  {
    hide VerifyRow, Scan, RowHead, NextRow, Identifier, Chain;
    ScannedLines(sha, stream, GENESIS, text);
    var rows := RowsOf(text);
    RowExtends(sha, stream, rows, head, input);
    var row := NextRow(sha, stream, head, input).value;
    LinesSnoc(rows, row);
    assert text + (row + ['\n']) == Lines(rows + [row]) + "";
    ScanOfLines(sha, stream, GENESIS, rows + [row], "");
    ScanEnd(sha, stream, Chain(sha, stream, GENESIS, rows + [row]).value, "");
  }
}
