/** Length-prefixed messages: an incremental decoder, the channel that feeds it, and the other side's reader and
    writer, all against one definition of the stream. */
module Frames {
  import opened Base

  newtype byte = x: int | 0 <= x < 256

  type Bytes = seq<byte>

  const MAX_MESSAGE_SIZE: nat := 1024 * 1024
  const READ_CHUNK_SIZE: nat := 64 * 1024
  const U32: nat := 0x1_0000_0000

  // ---- The format ----

  function Header(n: nat): (h: Bytes)
    requires n < U32
    ensures |h| == 4
  {
    [(n % 256) as byte, (n / 0x100 % 256) as byte, (n / 0x1_0000 % 256) as byte, (n / 0x100_0000) as byte]
  }

  function Length(h: Bytes): nat
    requires |h| == 4
  {
    h[0] as nat + 0x100 * h[1] as nat + 0x1_0000 * h[2] as nat + 0x100_0000 * h[3] as nat
  }

  lemma {:induction false} LengthHeader(n: nat)
    requires n < U32
    ensures Length(Header(n)) == n
  {
    var a, b := n / 0x100, n / 0x1_0000;
    assert b == a / 256 && n / 0x100_0000 == b / 256;
    assert n == 256 * a + n % 256 && a == 256 * b + a % 256 && b == 256 * (b / 256) + b % 256;
  }

  function Frame(payload: Bytes): Bytes
    requires |payload| < U32
  {
    Header(|payload|) + payload
  }

  /** What a stream of bytes starts with. */
  datatype Start = Incomplete | TooLarge | Complete(payload: Bytes, rest: Bytes)

  function Parse(stream: Bytes): Start {
    if |stream| < 4 then Incomplete
    else
      var n := Length(stream[..4]);
      if n > MAX_MESSAGE_SIZE then TooLarge
      else if |stream| < 4 + n then Incomplete
      else Complete(stream[4..4 + n], stream[4 + n..])
  }

  lemma {:induction false} ParseFrame(payload: Bytes, rest: Bytes)
    requires |payload| <= MAX_MESSAGE_SIZE
    ensures Parse(Frame(payload) + rest) == Complete(payload, rest)
  {
    var stream := Frame(payload) + rest;
    LengthHeader(|payload|);
    assert stream[..4] == Header(|payload|);
    assert stream[4..4 + |payload|] == payload;
    assert stream[4 + |payload|..] == rest;
  }

  /** A complete start stays what it is when more bytes follow. */
  lemma {:induction false} ParseMore(stream: Bytes, more: Bytes)
    requires !Parse(stream).Incomplete?
    ensures Parse(stream + more) == match Parse(stream)
                                    case TooLarge => TooLarge
                                    case Complete(p, rest) => Complete(p, rest + more)
  {
    var n := Length(stream[..4]);
    assert (stream + more)[..4] == stream[..4];
    if n <= MAX_MESSAGE_SIZE {
      assert (stream + more)[4..4 + n] == stream[4..4 + n];
      assert (stream + more)[4 + n..] == stream[4 + n..] + more;
    }
  }

  // ---- The decoder ----

  class FrameDecoder {
    var header: Bytes
    var payload: Bytes
    var expected: nat
    var complete: bool
    var failed: bool

    ghost predicate Valid()
      reads this
    {
      && |header| <= 4
      && (|header| < 4 ==> payload == [] && !complete && !failed)
      && (|header| == 4 ==> expected == Length(header))
      && (failed ==> |header| == 4 && expected > MAX_MESSAGE_SIZE && payload == [] && !complete)
      && (|header| == 4 && !failed ==> |payload| <= expected <= MAX_MESSAGE_SIZE && complete == (|payload| == expected))
    }

    /** The bytes of the current frame so far. */
    ghost function Held(): Bytes
      reads this
    {
      header + payload
    }

    constructor ()
      ensures Valid() && Held() == [] && !failed && !complete
    {
      header, payload, expected, complete, failed := [], [], 0, false, false;
    }

    /** Takes bytes up to the end of the frame and no further; a finished frame takes none. */
    method Consume(bytes: Bytes) returns (consumed: nat, done: bool, ok: bool)
      requires Valid()
      modifies this
      ensures Valid() && consumed <= |bytes|
      ensures old(failed) ==> !ok && Held() == old(Held()) && failed
      ensures !old(failed) ==> (ok == !Parse(old(Held()) + bytes).TooLarge?) && failed == !ok
      ensures ok ==>
                && done == complete == Parse(old(Held()) + bytes).Complete?
                && Held() == old(Held()) + bytes[..consumed]
                && (!done ==> consumed == |bytes|)
                && (done ==> Parse(old(Held()) + bytes) == Complete(payload, bytes[consumed..]))
      ensures old(complete) ==> ok && done && consumed == 0
    {
      hide Parse;
      if failed {
        return 0, false, false;
      }
      if complete {
        WholeStream(Held() + bytes, header, payload, bytes, Held());
        return 0, true, true;
      }
      ghost var held := Held();
      var offset := 0;
      if |header| < 4 {
        offset := TakeHeader(bytes);
        assert held == old(header);
        if failed {
          ParseLarge(header, bytes[offset..]);
          assert held + bytes == header + bytes[offset..];
          return offset, false, false;
        }
        if |header| < 4 {
          ParseShort(header);
          assert held + bytes == header;
          return offset, false, true;
        }
      }
      assert Held() == held + bytes[..offset];
      offset := TakePayload(bytes, offset, held);
      complete := |payload| == expected;
      assert held + bytes == held + bytes[..offset] + bytes[offset..];
      WholeStream(held + bytes, header, payload, bytes[offset..], Held());
      return offset, complete, true;
    }

    method TakeHeader(bytes: Bytes) returns (offset: nat)
      requires |header| < 4 && payload == [] && !failed
      modifies this`header, this`expected, this`failed
      ensures offset <= |bytes| && |header| <= 4 && header == old(header) + bytes[..offset]
      ensures |header| < 4 ==> offset == |bytes| && !failed
      ensures |header| == 4 ==> expected == Length(header) && failed == (expected > MAX_MESSAGE_SIZE)
    {
      offset := 0;
      while |header| < 4 && offset < |bytes|
        invariant offset <= |bytes| && |header| <= 4 && header == old(header) + bytes[..offset]
        invariant |header| < 4 ==> !failed
        invariant |header| == 4 ==> expected == Length(header) && failed == (expected > MAX_MESSAGE_SIZE)
        decreases |bytes| - offset
      {
        header := header + [bytes[offset]];
        offset := offset + 1;
        if |header| == 4 {
          expected := header[0] as nat + 0x100 * header[1] as nat + 0x1_0000 * header[2] as nat
                      + 0x100_0000 * header[3] as nat;
          if expected > MAX_MESSAGE_SIZE { failed := true; }
        }
      }
    }

    method TakePayload(bytes: Bytes, start: nat, ghost held: Bytes) returns (offset: nat)
      requires start <= |bytes| && |payload| <= expected && header + payload == held + bytes[..start]
      modifies this`payload
      ensures start <= offset <= |bytes| && |payload| <= expected && header + payload == held + bytes[..offset]
      ensures |payload| < expected ==> offset == |bytes|
    {
      offset := start;
      while offset < |bytes| && |payload| < expected
        invariant start <= offset <= |bytes| && |payload| <= expected && header + payload == held + bytes[..offset]
        decreases |bytes| - offset
      {
        var count := Least(READ_CHUNK_SIZE, Least(|bytes| - offset, expected - |payload|));
        Extend(header, payload, held, bytes, offset, count);
        payload := payload + bytes[offset..offset + count];
        offset := offset + count;
      }
    }

    /** Gives the finished frame away and starts over. */
    method Take() returns (result: Bytes)
      requires Valid() && complete
      modifies this
      ensures result == old(payload) && Valid() && Held() == [] && !failed && !complete
      ensures old(Held()) == Frame(result) && |result| <= MAX_MESSAGE_SIZE
    {
      HeaderLength(header);
      result := payload;
      payload, header, expected, complete := [], [], 0, false;
    }
  }

  lemma {:induction false} Extend(header: Bytes, payload: Bytes, held: Bytes, bytes: Bytes, offset: nat, count: nat)
    requires offset + count <= |bytes| && header + payload == held + bytes[..offset]
    ensures header + (payload + bytes[offset..offset + count]) == held + bytes[..offset + count]
  {
    var more := bytes[offset..offset + count];
    assert header + (payload + more) == (header + payload) + more;
    assert bytes[..offset + count] == bytes[..offset] + more;
  }

  function Least(a: nat, b: nat): nat { if a < b then a else b }

  lemma {:induction false} HeaderLength(h: Bytes)
    requires |h| == 4
    ensures Length(h) < U32 && Header(Length(h)) == h
  {
    Digits256(h[0] as nat, h[1] as nat, h[2] as nat, h[3] as nat);
  }

  lemma {:induction false} Digits256(a: nat, b: nat, c: nat, d: nat)
    requires a < 256 && b < 256 && c < 256 && d < 256
    ensures var n := a + 0x100 * b + 0x1_0000 * c + 0x100_0000 * d;
            n % 256 == a && n / 0x100 % 256 == b && n / 0x1_0000 % 256 == c && n / 0x100_0000 == d
  {
    var n := a + 0x100 * b + 0x1_0000 * c + 0x100_0000 * d;
    assert n / 0x100 == b + 0x100 * c + 0x1_0000 * d;
    assert n / 0x1_0000 == c + 0x100 * d;
  }

  lemma {:induction false} ParseShort(stream: Bytes)
    requires |stream| < 4
    ensures Parse(stream) == Incomplete
  {
  }

  lemma {:induction false} ParseLarge(header: Bytes, rest: Bytes)
    requires |header| == 4 && Length(header) > MAX_MESSAGE_SIZE
    ensures Parse(header + rest) == TooLarge
  {
    assert (header + rest)[..4] == header;
  }

  /** How far a decoder that holds a header and part of a payload has got in the stream. */
  lemma {:induction false} WholeStream(stream: Bytes, header: Bytes, payload: Bytes, rest: Bytes, held: Bytes)
    requires |header| == 4 && held == header + payload && stream == held + rest
    requires |payload| <= Length(header) <= MAX_MESSAGE_SIZE && (|payload| < Length(header) ==> rest == [])
    ensures Parse(stream) == if |payload| == Length(header) then Complete(payload, rest) else Incomplete
  {
    assert stream[..4] == header;
    assert stream[4..4 + |payload|] == payload && stream[4 + |payload|..] == rest;
  }

  // ---- The channel ----

  /** A connection: the reads still to come, none empty, and the bytes written. */
  class LocalStream {
    var incoming: seq<Bytes>
    var written: Bytes
    var open: bool

    constructor (chunks: seq<Bytes>)
      ensures incoming == chunks && written == [] && open
    {
      incoming, written, open := chunks, [], true;
    }

    /** The next read; nothing at the end of the stream. */
    method ReadSome() returns (bytes: Bytes)
      modifies this`incoming
      ensures old(incoming) == [] ==> bytes == [] && incoming == []
      ensures old(incoming) != [] ==> old(incoming) == [bytes] + incoming
    {
      if incoming == [] {
        return [];
      }
      bytes := incoming[0];
      incoming := incoming[1..];
    }

    /** Writes all, or as much as goes. */
    method WriteAll(bytes: Bytes, reach: nat) returns (ok: bool)
      modifies this`written
      ensures ok == (reach >= |bytes|) && written == old(written) + bytes[..if ok then |bytes| else reach]
    {
      ok := reach >= |bytes|;
      written := written + if ok then bytes else bytes[..reach];
      assert bytes[..|bytes|] == bytes;
    }
  }

  class LocalChannel {
    const stream: LocalStream
    const decoder: FrameDecoder
    var pending: Bytes

    ghost predicate Valid()
      reads this, stream, decoder
    {
      && decoder.Valid() && !decoder.complete
      && (forall i :: 0 <= i < |stream.incoming| ==> stream.incoming[i] != [])
      && (stream.open ==> !decoder.failed)
    }

    /** Every byte that has not been delivered: in the decoder, set aside, or still to be read. */
    ghost function Undelivered(): Bytes
      reads this, stream, decoder
    {
      decoder.Held() + pending + Flatten(stream.incoming)
    }

    constructor (s: LocalStream)
      requires s.open && forall i :: 0 <= i < |s.incoming| ==> s.incoming[i] != []
      ensures Valid() && stream == s && fresh(decoder) && Undelivered() == Flatten(s.incoming) && stream.open
    {
      stream := s;
      decoder := new FrameDecoder();
      pending := [];
    }

    /** One frame out of the undelivered bytes, however they are cut into reads; no byte is lost or repeated. */
    method Receive() returns (r: Option<Bytes>)
      requires Valid() && stream.open
      modifies this, stream, decoder
      ensures Valid() && stream.written == old(stream.written)
      ensures match Parse(old(Undelivered()))
              case Complete(payload, rest) => r == Some(payload) && Undelivered() == rest && stream.open
              case _ => r == None && !stream.open
    {
      hide Parse;
      ghost var all := Undelivered();
      while true
        invariant Valid() && stream.open && Undelivered() == all && stream.written == old(stream.written)
        decreases |stream.incoming|
      {
        if pending != [] {
          var done, frame := Feed(pending, all);
          if done { return frame; }
        }
        ghost var held, later := decoder.Held(), Flatten(stream.incoming);
        var bytes := stream.ReadSome();
        if bytes == [] {
          assert all == held;
          HeldIncomplete(decoder);
          stream.open := false;
          return None;
        }
        assert later == bytes + Flatten(stream.incoming);
        var done, frame := Feed(bytes, all);
        if done { return frame; }
      }
    }

    /** Hands bytes to the decoder, keeps what it leaves, and finishes when the frame does or is refused. */
    method Feed(bytes: Bytes, ghost all: Bytes) returns (done: bool, r: Option<Bytes>)
      requires Valid() && stream.open && all == decoder.Held() + bytes + Flatten(stream.incoming)
      modifies this, stream`open, decoder
      ensures Valid()
      ensures !done ==> stream.open && Undelivered() == all && pending == []
      ensures done ==> match Parse(all)
                       case Complete(payload, rest) => r == Some(payload) && Undelivered() == rest && stream.open
                       case _ => r == None && !stream.open
    {
      hide Parse;
      ghost var held, later := decoder.Held(), Flatten(stream.incoming);
      var consumed, complete, ok := decoder.Consume(bytes);
      if !ok {
        ParseMore(held + bytes, later);
        stream.open := false;
        return true, None;
      }
      pending := bytes[consumed..];
      if complete {
        ParseMore(held + bytes, later);
        var frame := decoder.Take();
        return true, Some(frame);
      }
      assert bytes[..consumed] == bytes && pending == [];
      return false, None;
    }

    /** A whole frame, or nothing when it is too large, or a beginning on a connection that is then closed. */
    method Send(payload: Bytes, reach: nat) returns (ok: bool)
      requires Valid()
      modifies stream`written, stream`open
      ensures Valid()
      ensures ok == (|payload| <= MAX_MESSAGE_SIZE && reach >= 4 + |payload|)
      ensures ok ==> stream.written == old(stream.written) + Frame(payload) && stream.open == old(stream.open)
      ensures |payload| > MAX_MESSAGE_SIZE ==> stream.written == old(stream.written) && stream.open == old(stream.open)
      ensures |payload| <= MAX_MESSAGE_SIZE && !ok ==>
                !stream.open && stream.written == old(stream.written) + Frame(payload)[..reach]
    {
      if |payload| > MAX_MESSAGE_SIZE {
        return false;
      }
      var header := Header(|payload|);
      ok := stream.WriteAll(header, reach);
      if ok {
        ok := stream.WriteAll(payload, reach - 4);
        assert !ok ==> Frame(payload)[..reach] == header + payload[..reach - 4];
      } else {
        assert Frame(payload)[..reach] == header[..reach];
      }
      if !ok { stream.open := false; }
    }
  }

  lemma {:induction false} HeldIncomplete(d: FrameDecoder)
    requires d.Valid() && !d.complete && !d.failed
    ensures Parse(d.Held()).Incomplete?
  {
    if |d.header| == 4 {
      assert d.Held()[..4] == d.header;
    }
  }

  // ---- Any number of messages ----

  function Encoded(payloads: seq<Bytes>): Bytes
    requires forall i :: 0 <= i < |payloads| ==> |payloads[i]| <= MAX_MESSAGE_SIZE
  {
    if payloads == [] then [] else Frame(payloads[0]) + Encoded(payloads[1..])
  }

  /** However the encoded messages are cut into reads, the channel gives them back in order, and then the end
      of the stream. */
  method ReceiveAll(channel: LocalChannel, ghost payloads: seq<Bytes>) returns (received: seq<Bytes>)
    requires channel.Valid() && channel.stream.open
    requires forall i :: 0 <= i < |payloads| ==> |payloads[i]| <= MAX_MESSAGE_SIZE
    requires channel.Undelivered() == Encoded(payloads)
    modifies channel, channel.stream, channel.decoder
    ensures received == payloads
    decreases |payloads|
  {
    if payloads == [] {
      assert Parse(Encoded(payloads)).Incomplete?;
    } else {
      ParseFrame(payloads[0], Encoded(payloads[1..]));
    }
    var r := channel.Receive();
    if r == None {
      return [];
    }
    assert payloads != [] && r == Some(payloads[0]);
    ghost var later := payloads[1..];
    assert forall i :: 0 <= i < |later| ==> |later[i]| <= MAX_MESSAGE_SIZE;
    var rest := ReceiveAll(channel, later);
    return [r.value] + rest;
  }

  // ---- The other side ----

  /** The writer narrows the length to 32 bits before it checks it. */
  function Narrowed(n: nat): (r: nat)
    ensures r < U32
  {
    n % U32
  }

  /** What is put on the wire; nothing when refused. */
  function WriteMessage(payload: Bytes): Option<Bytes> {
    var len := Narrowed(|payload|);
    if len > MAX_MESSAGE_SIZE then None else Some(Header(len) + payload)
  }

  /** An accepted message is read back as itself exactly when its true length is within the limit. */
  lemma {:induction false} WrittenReadBack(payload: Bytes, rest: Bytes)
    requires WriteMessage(payload).Some?
    ensures Parse(WriteMessage(payload).value + rest) == Complete(payload, rest) <==> |payload| <= MAX_MESSAGE_SIZE
  {
    if |payload| <= MAX_MESSAGE_SIZE {
      assert Narrowed(|payload|) == |payload|;
      ParseFrame(payload, rest);
    } else {
      var n := Narrowed(|payload|);
      LengthHeader(n);
      var stream := WriteMessage(payload).value + rest;
      assert stream[..4] == Header(n);
      assert n < |payload|;
    }
  }

  /** The difference is real: a payload of 2 to the 32 bytes is accepted and announces an empty message. */
  lemma {:induction false} NarrowedAccepts(payload: Bytes, rest: Bytes)
    requires |payload| == U32
    ensures WriteMessage(payload).Some? && Parse(WriteMessage(payload).value + rest) == Complete([], payload + rest)
  {
    assert Narrowed(U32) == 0;
    LengthHeader(0);
    var stream := WriteMessage(payload).value + rest;
    assert stream[..4] == Header(0);
    assert stream[4..] == payload + rest && stream[4..4] == [];
  }

  /** The peer's bytes, delivered in short reads of any size. */
  class Reader {
    var data: Bytes

    constructor (bytes: Bytes)
      ensures data == bytes
    {
      data := bytes;
    }

    method Read(want: nat) returns (bytes: Bytes)
      requires want > 0
      modifies this
      ensures old(data) == bytes + data && |bytes| <= want && (bytes == [] <==> old(data) == [])
    {
      if data == [] {
        return [];
      }
      var n: nat :| 1 <= n <= want && n <= |data|;
      bytes := data[..n];
      data := data[n..];
    }
  }

  method ReadExact(reader: Reader, size: nat) returns (bytes: Bytes)
    modifies reader
    ensures old(reader.data) == bytes + reader.data && |bytes| <= size && (|bytes| < size ==> reader.data == [])
  {
    bytes := [];
    while |bytes| < size
      invariant old(reader.data) == bytes + reader.data && |bytes| <= size
      decreases size - |bytes|
    {
      var more := reader.Read(size - |bytes|);
      if more == [] {
        return;
      }
      bytes := bytes + more;
    }
  }

  /** Header and payload from short reads: the same messages as the native decoder. */
  method ReadMessage(reader: Reader) returns (r: Option<Bytes>)
    modifies reader
    ensures match Parse(old(reader.data))
            case Complete(payload, rest) => r == Some(payload) && reader.data == rest
            case _ => r == None
  {
    hide Parse;
    ghost var all := reader.data;
    var lenBuf := ReadExact(reader, 4);
    if |lenBuf| < 4 {
      ParseShort(all);
      return None;
    }
    var target := Length(lenBuf);
    if target > MAX_MESSAGE_SIZE {
      ParseLarge(lenBuf, reader.data);
      return None;
    }
    var payload: Bytes := [];
    var remaining: nat := target;
    var chunk := Least(READ_CHUNK_SIZE, if target > 1 then target else 1);
    while remaining > 0
      invariant remaining + |payload| == target && all == lenBuf + payload + reader.data
      decreases remaining
    {
      var want := Least(chunk, remaining);
      var bytes := reader.Read(want);
      if bytes == [] {
        WholeStream(all, lenBuf, payload, [], lenBuf + payload);
        return None;
      }
      assert lenBuf + payload + (bytes + reader.data) == lenBuf + (payload + bytes) + reader.data;
      payload := payload + bytes;
      remaining := remaining - |bytes|;
    }
    WholeStream(all, lenBuf, payload, reader.data, lenBuf + payload);
    return Some(payload);
  }
}
