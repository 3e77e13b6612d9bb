/** One row of the custody journal: the event schema, the hash-chained row text, and its
    re-verification. SHA-256 is a parameter: nothing is assumed about it beyond its output size. */
module JournalRow {
  import opened Base
  import opened Json
  import opened JsonText
  import opened Canonical

  const ROW_BYTES: nat := 1024 * 1024

  /** Thirty-two bytes. */
  type Digest = d: string | |d| == 32 && forall i :: 0 <= i < 32 ==> d[i] as int < 256
    witness seq(32, i => '0')

  type Hash = string -> Digest

  datatype Head = Head(number: nat, rootHash: string)

  const ZEROS: string := "0000000000000000"

  const ZERO_HASH: string := ZEROS + ZEROS + ZEROS + ZEROS

  const GENESIS: Head := Head(0, ZERO_HASH)

  // ---- Hexadecimal hashes ----

  predicate LowerHexDigit(c: char) { '0' <= c <= '9' || 'a' <= c <= 'f' }

  predicate HexHash(h: string) { |h| == 64 && forall i :: 0 <= i < 64 ==> LowerHexDigit(h[i]) }

  function DigitOf(c: char): (n: int)
    requires LowerHexDigit(c)
    ensures 0 <= n < 16
  {
    if '0' <= c <= '9' then c as int - '0' as int else c as int - 'a' as int + 10
  }

  function RawHash(h: string): (d: Digest)
    requires HexHash(h)
  {
    seq(32, i requires 0 <= i < 32 => (DigitOf(h[2 * i]) * 16 + DigitOf(h[2 * i + 1])) as char)
  }

  function HexOf(d: Digest): (h: string)
    ensures |h| == 64
  {
    seq(64, i requires 0 <= i < 64 =>
      if i % 2 == 0 then Hex(d[i / 2] as int / 16) else Hex(d[i / 2] as int % 16))
  }

  lemma {:induction false} HexDigits(n: int)
    requires 0 <= n < 16
    ensures LowerHexDigit(Hex(n)) && DigitOf(Hex(n)) == n
  {
  }

  lemma {:induction false} RawOfHex(d: Digest)
    ensures HexHash(HexOf(d)) && RawHash(HexOf(d)) == d
  {
    var h := HexOf(d);
    forall i | 0 <= i < 64 ensures LowerHexDigit(h[i]) {
      HexDigits(d[i / 2] as int / 16);
      HexDigits(d[i / 2] as int % 16);
    }
    forall i | 0 <= i < 32 ensures RawHash(h)[i] == d[i] {
      HexDigits(d[i] as int / 16);
      HexDigits(d[i] as int % 16);
      assert h[2 * i] == Hex(d[i] as int / 16) && h[2 * i + 1] == Hex(d[i] as int % 16);
    }
  }

  lemma {:induction false} HexPair(a: char, b: char)
    requires LowerHexDigit(a) && LowerHexDigit(b)
    ensures var n := DigitOf(a) * 16 + DigitOf(b); Hex(n / 16) == a && Hex(n % 16) == b
  {
    hide Hex, DigitOf;
    HexDigitOf(a);
    HexDigitOf(b);
    Halves(DigitOf(a), DigitOf(b));
  }

  lemma {:induction false} HexDigitOf(c: char)
    requires LowerHexDigit(c)
    ensures Hex(DigitOf(c)) == c
  {
  }

  lemma {:induction false} Halves(x: int, y: int)
    requires 0 <= x < 16 && 0 <= y < 16
    ensures (x * 16 + y) / 16 == x && (x * 16 + y) % 16 == y
  {
  }

  lemma {:induction false} HexOfRaw(h: string)
    requires HexHash(h)
    ensures HexOf(RawHash(h)) == h
  {
    hide Hex, DigitOf;
    forall i | 0 <= i < 64 ensures HexOf(RawHash(h))[i] == h[i] {
      var k := i / 2;
      HexPair(h[2 * k], h[2 * k + 1]);
      assert RawHash(h)[k] as int == DigitOf(h[2 * k]) * 16 + DigitOf(h[2 * k + 1]);
    }
  }

  // ---- The event schema ----

  predicate Identifier(s: string) {
    1 <= |s| <= 256 && forall i :: 0 <= i < |s| ==> 0x21 <= s[i] as int <= 0x7e
  }

  function Get(ms: seq<Member>, key: string): Option<Json> {
    if ms == [] then None
    else if ms[0].key == key then Some(ms[0].value)
    else Get(ms[1..], key)
  }

  function Field(v: Json, key: string): Option<Json> { if v.Obj? then Get(v.members, key) else None }

  predicate OnlyFields(v: Json, allowed: seq<string>) {
    v.Obj? && forall i :: 0 <= i < |v.members| ==> v.members[i].key in allowed
  }

  predicate TextIn(v: Option<Json>, choices: seq<string>) { v.Some? && v.value.Str? && v.value.s in choices }

  predicate IdText(v: Json) { v.Str? && Identifier(v.s) }

  predicate Required(v: Option<Json>) { v.Some? && IdText(v.value) }

  predicate Optional(v: Option<Json>) { v.None? || IdText(v.value) }

  predicate OptionalAll(v: Json, keys: seq<string>) {
    forall k :: k in keys ==> Optional(Field(v, k))
  }

  predicate IdList(v: Json) {
    v.Arr? && |v.items| <= 128 && forall i :: 0 <= i < |v.items| ==> IdText(v.items[i])
  }

  predicate HashText(v: Json) { v.Str? && HexHash(v.s) }

  predicate Trace(v: Option<Json>) {
    v.Some? && v.value.Str? && |v.value.s| == 32
    && (exists i :: 0 <= i < 32 && v.value.s[i] != '0')
    && forall i :: 0 <= i < 32 ==> LowerHexDigit(v.value.s[i])
  }

  const EVENT_FIELDS: seq<string> :=
    ["v", "ts", "event_type", "actor", "subject", "change", "outcome", "reason_code", "correlation"]
  const EVENT_TYPES: seq<string> :=
    ["custody.admit", "custody.serve", "custody.redeem", "custody.deny", "custody.reclaim",
     "custody.purge", "custody.scrub"]
  const OUTCOMES: seq<string> := ["success", "denied", "failure"]
  const ACTOR_IDS: seq<string> :=
    ["user_id", "service_principal", "node_id", "peer_id", "link_id", "session_id", "device_id", "client_kind"]
  const ACTOR_FIELDS: seq<string> := ["principal_kind"] + ACTOR_IDS
  const KINDS: seq<string> := ["user", "service_principal", "node", "peer", "link"]
  const SUBJECT_IDS: seq<string> := ["project_ref", "space", "logical_asset"]
  const SUBJECT_LISTS: seq<string> := ["version_ids", "object_keys"]
  const SUBJECT_FIELDS: seq<string> := ["org"] + SUBJECT_IDS + SUBJECT_LISTS
  const CHANGE_FIELDS: seq<string> := ["before_hash", "after_hash"]
  const CORRELATION_IDS: seq<string> := ["cap_id", "operation_id", "client_request_id"]
  const CORRELATION_FIELDS: seq<string> := ["trace_id"] + CORRELATION_IDS

  function ActorKey(kind: string): string {
    if kind == "user" then "user_id"
    else if kind == "node" then "node_id"
    else if kind == "peer" then "peer_id"
    else if kind == "link" then "link_id"
    else "service_principal"
  }

  predicate ValidActor(v: Json) {
    && OnlyFields(v, ACTOR_FIELDS)
    && TextIn(Field(v, "principal_kind"), KINDS)
    && Required(Field(v, ActorKey(Field(v, "principal_kind").value.s)))
    && OptionalAll(v, ACTOR_IDS)
  }

  predicate ValidSubject(v: Json) {
    && OnlyFields(v, SUBJECT_FIELDS)
    && Required(Field(v, "org"))
    && OptionalAll(v, SUBJECT_IDS)
    && forall k :: k in SUBJECT_LISTS ==> Field(v, k).None? || IdList(Field(v, k).value)
  }

  predicate ValidChange(v: Json) {
    && OnlyFields(v, CHANGE_FIELDS)
    && forall k :: k in CHANGE_FIELDS ==> Field(v, k).None? || HashText(Field(v, k).value)
  }

  predicate ValidCorrelation(v: Json) {
    && OnlyFields(v, CORRELATION_FIELDS)
    && Trace(Field(v, "trace_id"))
    && OptionalAll(v, CORRELATION_IDS)
  }

  predicate ValidEvent(v: Json) {
    && OnlyFields(v, EVENT_FIELDS)
    && Field(v, "v") == Some(Int(1))
    && (Field(v, "ts").Some? && Field(v, "ts").value.Int? && Field(v, "ts").value.n >= 0)
    && TextIn(Field(v, "event_type"), EVENT_TYPES)
    && TextIn(Field(v, "outcome"), OUTCOMES)
    && Required(Field(v, "reason_code"))
    && (Field(v, "actor").Some? && ValidActor(Field(v, "actor").value))
    && (Field(v, "subject").Some? && ValidSubject(Field(v, "subject").value))
    && (Field(v, "change").Some? && ValidChange(Field(v, "change").value))
    && (Field(v, "correlation").Some? && ValidCorrelation(Field(v, "correlation").value))
  }

  /** Validates an event and returns its canonical text. */
  function JournalEvent(input: string): (r: Option<string>) {
    if |input| > ROW_BYTES / 2 then None
    else match Canonicalize(Jcs, input)
      case None => None
      case Some(c) =>
        match ParseDocument(c)
        case Malformed => None
        case Document(v) => if ValidEvent(v) then Some(c) else None
  }

  // ---- Rows ----

  /** The row without its own hash, as the text that is hashed. */
  function CoreText(stream: string, previous: Head, event: string): string {
    "{\"event\":" + event + ",\"prev_hash\":" + EmitString(previous.rootHash, "")
    + ",\"seq\":" + Digits(previous.number + 1) + ",\"stream\":" + EmitString(stream, "") + "}"
  }

  function WithHash(core: string, hash: string): string
    requires core != []
  {
    core[..|core| - 1] + ",\"row_hash\":" + EmitString(hash, "") + "}"
  }

  /** The hash of a core chained to the previous one. */
  function ChainHash(sha: Hash, previous: string, core: string): string
    requires HexHash(previous)
  {
    HexOf(sha(RawHash(previous) + core))
  }

  function Row(sha: Hash, stream: string, previous: Head, event: string): (r: Option<string>) {
    if !Identifier(stream) || previous.number >= MAX_SAFE_INTEGER then None
    else match Canonicalize(Jcs, CoreText(stream, previous, event))
      case None => None
      case Some(core) =>
        if core == [] || !HexHash(previous.rootHash) then None
        else match Canonicalize(Jcs, WithHash(core, ChainHash(sha, previous.rootHash, core)))
          case None => None
          case Some(row) => if |row| < ROW_BYTES then Some(row) else None
  }

  /** Reads the head off a row without checking the chain. */
  function RowHead(row: string): (r: Option<Head>) {
    match ParseDocument(row)
    case Malformed => None
    case Document(v) =>
      var h, n := Field(v, "row_hash"), Field(v, "seq");
      if h.Some? && HashText(h.value) && n.Some? && n.value.Int? && 0 < n.value.n <= MAX_SAFE_INTEGER
      then Some(Head(n.value.n, h.value.s))
      else None
  }

  function Unhashed(ms: seq<Member>): seq<Member> {
    if ms == [] then []
    else (if ms[0].key == "row_hash" then [] else [ms[0]]) + Unhashed(ms[1..])
  }

  /** The bytes a row's hash stands for, read off the row alone: the previous hash it names, then its own text
      without the hash. */
  function HashInput(row: string): (r: Option<string>) {
    match ParseDocument(row)
    case Malformed => None
    case Document(v) =>
      var p := Field(v, "prev_hash");
      if p.Some? && HashText(p.value)
      then Some(RawHash(p.value.s) + Print(Obj(Unhashed(v.members))))
      else None
  }

  const ROW_FIELDS: seq<string> := ["event", "prev_hash", "seq", "stream", "row_hash"]

  /** Recomputes a row from its event and the previous head and insists on byte equality. */
  function VerifyRow(sha: Hash, stream: string, previous: Head, row: string): (r: Option<Head>) {
    if |row| >= ROW_BYTES || Canonicalize(Jcs, row) != Some(row) then None
    else match ParseDocument(row)
      case Malformed => None
      case Document(v) =>
        if !OnlyFields(v, ROW_FIELDS) || Field(v, "event").None? then None
        else match Canonicalize(Jcs, Print(Field(v, "event").value))
          case None => None
          case Some(serialized) =>
            match JournalEvent(serialized)
            case None => None
            case Some(event) =>
              if Row(sha, stream, previous, event) == Some(row) then RowHead(row) else None
  }
}
