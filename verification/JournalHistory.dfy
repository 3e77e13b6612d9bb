/** The journal file as a chain of rows: what recovery computes, and why the head determines the file. */
module JournalHistory {
  import opened Base
  import opened Json
  import opened JsonText
  import opened JournalRow
  import opened JournalChain

  // ---- Rows and lines ----

  function Lines(rows: seq<string>): string {
    if rows == [] then "" else rows[0] + ['\n'] + Lines(rows[1..])
  }

  /** The head after verifying the rows one after another. */
  function Chain(sha: Hash, stream: string, head: Head, rows: seq<string>): (r: Option<Head>)
    decreases |rows|
  {
    if rows == [] then Some(head)
    else match VerifyRow(sha, stream, head, rows[0])
      case None => None
      case Some(next) => Chain(sha, stream, next, rows[1..])
  }

  function FirstNewline(t: string): (i: nat)
    requires '\n' in t
    ensures i < |t| && t[i] == '\n' && forall k :: 0 <= k < i ==> t[k] != '\n'
  {
    if t[0] == '\n' then 0 else 1 + FirstNewline(t[1..])
  }

  /** Recovery said on the whole file at once: cut at every newline, verify each row over the head so far,
      refuse unless the file ends at a row boundary. */
  function Scan(sha: Hash, stream: string, head: Head, text: string): (r: Option<Head>)
    decreases |text|
  {
    if text == [] then Some(head)
    else if '\n' !in text then None
    else
      var i := FirstNewline(text);
      match VerifyRow(sha, stream, head, text[..i])
      case None => None
      case Some(next) => Scan(sha, stream, next, text[i + 1..])
  }

  lemma {:induction false} NewlineAfter(row: string, rest: string)
    requires '\n' !in row
    ensures '\n' in row + ['\n'] + rest && FirstNewline(row + ['\n'] + rest) == |row|
  {
    var t := row + ['\n'] + rest;
    assert t[|row|] == '\n';
    if row != [] {
      assert t[0] == row[0] && t[1..] == row[1..] + ['\n'] + rest;
      NewlineAfter(row[1..], rest);
    }
  }

  lemma {:induction false} ScanRow(sha: Hash, stream: string, head: Head, row: string, rest: string)
    requires '\n' !in row
    ensures Scan(sha, stream, head, row + ['\n'] + rest)
            == match VerifyRow(sha, stream, head, row)
               case None => None
               case Some(next) => Scan(sha, stream, next, rest)
  {
    hide VerifyRow;
    NewlineAfter(row, rest);
    var t := row + ['\n'] + rest;
    assert t[..|row|] == row && t[|row| + 1..] == rest;
  }

  lemma {:induction false} AcceptedLine(sha: Hash, stream: string, head: Head, row: string)
    requires VerifyRow(sha, stream, head, row).Some?
    ensures '\n' !in row && row != [] && |row| < ROW_BYTES
    ensures var next := VerifyRow(sha, stream, head, row).value;
            RowHead(row) == Some(next) && next.number == head.number + 1 && HexHash(next.rootHash)
  {
    hide VerifyRow, EventText, Core, Print, RawHash, HexOf, HexHash, Identifier, Row, RowHead, HashInput;
    var ev := AcceptedRow(sha, stream, head, row);
    RawOfHex(sha(HashInput(row).value));
  }

  lemma {:induction false} LinesCons(rows: seq<string>, tail: string)
    ensures rows == [] ==> Lines(rows) + tail == tail
    ensures rows != [] ==> Lines(rows) + tail == rows[0] + ['\n'] + (Lines(rows[1..]) + tail)
  {
    if rows != [] {
      Regroup(rows[0] + ['\n'], Lines(rows[1..]), tail);
    }
  }

  lemma {:induction false} Regroup(a: string, b: string, c: string)
    ensures (a + b) + c == a + (b + c)
  {
  }

  lemma {:induction false} ScanPastLines(sha: Hash, stream: string, head: Head, rows: seq<string>, tail: string)
    requires Chain(sha, stream, head, rows).Some?
    ensures Scan(sha, stream, head, Lines(rows) + tail)
            == Scan(sha, stream, Chain(sha, stream, head, rows).value, tail)
    decreases |rows|
  {
    hide VerifyRow, Scan, Lines;
    LinesCons(rows, tail);
    if rows != [] {
      AcceptedLine(sha, stream, head, rows[0]);
      var next := VerifyRow(sha, stream, head, rows[0]).value;
      ScanRow(sha, stream, head, rows[0], Lines(rows[1..]) + tail);
      ScanPastLines(sha, stream, next, rows[1..], tail);
    }
  }

  /** Scanning a file made of rows is verifying the rows, and an unfinished last row is refused. */
  lemma {:induction false} ScanOfLines(sha: Hash, stream: string, head: Head, rows: seq<string>, tail: string)
    requires Chain(sha, stream, head, rows).Some?
    ensures Scan(sha, stream, head, Lines(rows) + tail)
            == Scan(sha, stream, Chain(sha, stream, head, rows).value, tail)
    ensures '\n' !in tail ==>
              Scan(sha, stream, head, Lines(rows) + tail) == if tail == "" then Chain(sha, stream, head, rows) else None
  {
    hide Chain, Scan;
    ScanPastLines(sha, stream, head, rows, tail);
    if '\n' !in tail { ScanTail(sha, stream, Chain(sha, stream, head, rows).value, tail); }
  }

  lemma {:induction false} ScanTail(sha: Hash, stream: string, head: Head, tail: string)
    requires '\n' !in tail
    ensures Scan(sha, stream, head, tail) == if tail == "" then Some(head) else None
  {
  }

  /** The lines of a text, each without its newline; what follows the last newline is not one. */
  function RowsOf(text: string): seq<string>
    decreases |text|
  {
    if '\n' !in text then []
    else
      var i := FirstNewline(text);
      [text[..i]] + RowsOf(text[i + 1..])
  }

  /** A file that scans is made of rows that verify in sequence. */
  lemma {:induction false} ScannedLines(sha: Hash, stream: string, head: Head, text: string)
    requires Scan(sha, stream, head, text).Some?
    ensures text == Lines(RowsOf(text)) && Chain(sha, stream, head, RowsOf(text)) == Scan(sha, stream, head, text)
    decreases |text|
  {
    hide VerifyRow, RowsOf;
    if text == [] {
      NoRows(text);
    } else {
      var i := FirstNewline(text);
      ScannedLines(sha, stream, VerifyRow(sha, stream, head, text[..i]).value, text[i + 1..]);
      FirstRow(text);
      assert ([text[..i]] + RowsOf(text[i + 1..]))[1..] == RowsOf(text[i + 1..]);
      assert text == text[..i] + ['\n'] + text[i + 1..];
    }
  }

  lemma {:induction false} FirstRow(text: string)
    requires '\n' in text
    ensures RowsOf(text) == [text[..FirstNewline(text)]] + RowsOf(text[FirstNewline(text) + 1..])
  {
  }

  lemma {:induction false} NoRows(text: string)
    requires '\n' !in text
    ensures RowsOf(text) == []
  {
  }

  lemma {:induction false} ChainSnoc(sha: Hash, stream: string, head: Head, rows: seq<string>, row: string)
    requires Chain(sha, stream, head, rows).Some?
    ensures Chain(sha, stream, head, rows + [row])
            == VerifyRow(sha, stream, Chain(sha, stream, head, rows).value, row)
    decreases |rows|
  {
    hide VerifyRow;
    if rows == [] {
      assert rows + [row] == [row];
      assert [row][1..] == [];
    } else {
      ChainSnoc(sha, stream, VerifyRow(sha, stream, head, rows[0]).value, rows[1..], row);
      assert (rows + [row])[1..] == rows[1..] + [row];
    }
  }

  lemma {:induction false} ChainFront(sha: Hash, stream: string, head: Head, rows: seq<string>)
    requires rows != [] && Chain(sha, stream, head, rows).Some?
    ensures var front := rows[..|rows| - 1];
            && Chain(sha, stream, head, front).Some?
            && VerifyRow(sha, stream, Chain(sha, stream, head, front).value, rows[|rows| - 1])
               == Chain(sha, stream, head, rows)
  {
    hide VerifyRow;
    var front, last := rows[..|rows| - 1], rows[|rows| - 1];
    ChainPrefix(sha, stream, head, rows, |rows| - 1);
    assert rows == front + [last];
    ChainSnoc(sha, stream, head, front, last);
  }

  lemma {:induction false} ChainPrefix(sha: Hash, stream: string, head: Head, rows: seq<string>, k: nat)
    requires k <= |rows| && Chain(sha, stream, head, rows).Some?
    ensures Chain(sha, stream, head, rows[..k]).Some?
    decreases |rows|
  {
    hide VerifyRow;
    if k > 0 {
      ChainPrefix(sha, stream, VerifyRow(sha, stream, head, rows[0]).value, rows[1..], k - 1);
      assert rows[..k][1..] == rows[1..][..k - 1];
    }
  }

  lemma {:induction false} LinesSnoc(rows: seq<string>, row: string)
    ensures Lines(rows + [row]) == Lines(rows) + row + ['\n']
  {
    if rows == [] {
      assert rows + [row] == [row];
      assert [row][1..] == [];
    } else {
      LinesSnoc(rows[1..], row);
      assert (rows + [row])[1..] == rows[1..] + [row] && (rows + [row])[0] == rows[0];
      Regroup(rows[0] + ['\n'], Lines(rows[1..]) + row, ['\n']);
      Regroup(rows[0] + ['\n'], Lines(rows[1..]), row);
    }
  }

  /** Row number k of an accepted file carries sequence number k, counting from one. */
  lemma {:induction false} RowNumbers(sha: Hash, stream: string, rows: seq<string>)
    requires Chain(sha, stream, GENESIS, rows).Some?
    ensures var h := Chain(sha, stream, GENESIS, rows).value;
            h.number == |rows| && HexHash(h.rootHash)
    ensures forall k :: 0 <= k < |rows| ==> RowHead(rows[k]).Some? && RowHead(rows[k]).value.number == k + 1
    decreases |rows|
  {
    hide VerifyRow, HexHash, RowHead;
    AnyHash();
    if rows != [] {
      ChainFront(sha, stream, GENESIS, rows);
      var front := rows[..|rows| - 1];
      RowNumbers(sha, stream, front);
      assert forall k :: 0 <= k < |front| ==> front[k] == rows[k];
      AcceptedLine(sha, stream, Chain(sha, stream, GENESIS, front).value, rows[|rows| - 1]);
    }
  }

  // ---- The head determines the history ----

  lemma {:induction false} HexInjective(a: Digest, b: Digest)
    requires HexOf(a) == HexOf(b)
    ensures a == b
  {
    RawOfHex(a);
    RawOfHex(b);
  }

  lemma {:induction false} RawInjective(a: string, b: string)
    requires HexHash(a) && HexHash(b) && RawHash(a) == RawHash(b)
    ensures a == b
  {
    HexOfRaw(a);
    HexOfRaw(b);
  }

  /** What two rows hash differs, and the digests are one. */
  predicate Clash(sha: Hash, a: string, b: string) {
    && HashInput(a).Some? && HashInput(b).Some? && HashInput(a) != HashInput(b)
    && sha(HashInput(a).value) == sha(HashInput(b).value)
  }

  /** Two accepted rows with the same head are the same row over the same previous head, or they clash. */
  lemma {:induction false} SameHashSameRow(sha: Hash, stream: string, p: Head, q: Head, a: string, b: string)
    requires VerifyRow(sha, stream, p, a).Some? && VerifyRow(sha, stream, q, b).Some?
    requires VerifyRow(sha, stream, p, a) == VerifyRow(sha, stream, q, b)
    ensures Clash(sha, a, b) <==> !(a == b && p == q)
  {
    hide VerifyRow, EventText, Core, Print, RawHash, HexOf, HexHash, Identifier, Row, RowHead, HashInput;
    var ev := AcceptedRow(sha, stream, p, a);
    var ew := AcceptedRow(sha, stream, q, b);
    var x, y := HashInput(a).value, HashInput(b).value;
    HexInjective(sha(x), sha(y));
    if x == y {
      assert RawHash(p.rootHash) == x[..32] && RawHash(q.rootHash) == y[..32];
      assert Print(Core(ev, p, stream)) == x[32..] && Print(Core(ew, q, stream)) == y[32..];
      RawInjective(p.rootHash, q.rootHash);
      SameCoreSameEvent(stream, p, ev, ew);
    }
  }

  lemma {:induction false} SameCoreSameEvent(stream: string, p: Head, ev: Json, ew: Json)
    requires EventText(Print(ev), ev) && EventText(Print(ew), ew) && Extendable(stream, p)
    requires Print(Core(ev, p, stream)) == Print(Core(ew, p, stream))
    ensures ev == ew
  {
    hide EventText, Print, ParseDocument, HexHash, Identifier;
    CoreParsed(ev, p, stream);
    CoreParsed(ew, p, stream);
    assert CoreMembers(ev, p, stream)[0] == Member("event", ev);
    assert CoreMembers(ew, p, stream)[0] == Member("event", ew);
  }

  /** Two chains with one head are equal, or the last row in which they differ clashes. */
  lemma {:induction false} SameHeadSameRows(sha: Hash, stream: string, a: seq<string>, b: seq<string>) returns (k: nat)
    requires Chain(sha, stream, GENESIS, a).Some?
    requires Chain(sha, stream, GENESIS, a) == Chain(sha, stream, GENESIS, b)
    ensures |a| == |b|
    ensures a == b || (k < |a| && Clash(sha, a[k], b[k]) && a[k + 1..] == b[k + 1..])
    decreases |a|
  {
    hide VerifyRow, Chain, Clash, RowHead;
    k := 0;
    RowNumbers(sha, stream, a);
    RowNumbers(sha, stream, b);
    if a != [] {
      ChainFront(sha, stream, GENESIS, a);
      ChainFront(sha, stream, GENESIS, b);
      var n := |a| - 1;
      var fa, fb := a[..n], b[..n];
      SameHashSameRow(sha, stream, Chain(sha, stream, GENESIS, fa).value,
                      Chain(sha, stream, GENESIS, fb).value, a[n], b[n]);
      if Clash(sha, a[n], b[n]) {
        k := n;
      } else {
        k := SameHeadSameRows(sha, stream, fa, fb);
        assert a == fa + [a[n]] && b == fb + [b[n]];
        if fa != fb { assert a[k + 1..] == fa[k + 1..] + [a[n]] && b[k + 1..] == fb[k + 1..] + [b[n]]; }
      }
    }
  }

  predicate ClashAt(sha: Hash, a: string, b: string, k: nat) {
    k < |RowsOf(a)| && k < |RowsOf(b)| && Clash(sha, RowsOf(a)[k], RowsOf(b)[k])
  }

  /** Two files of one stream that recover to the same head are byte for byte equal exactly when no row of the one
      hashes different bytes than the row at the same place in the other to the same digest. */
  lemma {:induction false} HeadDeterminesHistory(sha: Hash, stream: string, a: string, b: string)
    requires Scan(sha, stream, GENESIS, a).Some?
    requires Scan(sha, stream, GENESIS, a) == Scan(sha, stream, GENESIS, b)
    ensures |RowsOf(a)| == |RowsOf(b)|
    ensures a == b <==> forall k: nat :: !ClashAt(sha, a, b, k)
  {
    hide Scan, Chain, RowsOf, HashInput;
    ScannedLines(sha, stream, GENESIS, a);
    ScannedLines(sha, stream, GENESIS, b);
    var k := SameHeadSameRows(sha, stream, RowsOf(a), RowsOf(b));
    if a != b { assert ClashAt(sha, a, b, k); }
  }
}
