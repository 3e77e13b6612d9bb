/** What a journal row is, and what accepting one means: appending produces exactly the rows that
    verification accepts, and the head of a row pins its whole content down to a hash collision. */
module JournalChain {
  import opened Base
  import opened Json
  import opened JsonText
  import opened JsonLaws
  import opened Canonical
  import opened JournalRow
  import opened JournalBounds

  /** `event` is the canonical text of a valid event. */
  predicate EventText(event: string, ev: Json) {
    event == Print(ev) && ValidEvent(ev) && Accepts(Jcs, ev, 127) && Normal(ByUtf16, ev) == ev
  }

  lemma {:induction false} JournalEventText(input: string)
    requires JournalEvent(input).Some?
    ensures var e := JournalEvent(input).value;
            ParseDocument(e).Document? && EventText(e, ParseDocument(e).value)
  {
    hide ValidEvent, Normal, Accepts;
    var v := ParseDocument(input).value;
    FormRoundTrip(Jcs, v, 127);
    AcceptedNormal(Jcs, v, 127);
    AcceptedIsPrintable(Jcs, v, 127);
    NormalIdempotent(ByUtf16, v);
  }

  // ---- Row values ----

  /** What a row can be written over: a valid stream name and a previous head that leaves room. */
  predicate Extendable(stream: string, previous: Head) {
    Identifier(stream) && previous.number < MAX_SAFE_INTEGER && HexHash(previous.rootHash)
  }

  function CoreMembers(ev: Json, previous: Head, stream: string): (ms: seq<Member>)
    requires previous.number < MAX_SAFE_INTEGER
    ensures |ms| == 4
  {
    [Member("event", ev), Member("prev_hash", Str(previous.rootHash)),
     Member("seq", Int(previous.number + 1)), Member("stream", Str(stream))]
  }

  function Core(ev: Json, previous: Head, stream: string): Json
    requires previous.number < MAX_SAFE_INTEGER
  {
    Obj(CoreMembers(ev, previous, stream))
  }

  function RowMembers(ev: Json, previous: Head, stream: string, hash: string): (ms: seq<Member>)
    requires previous.number < MAX_SAFE_INTEGER
    ensures |ms| == 5
  {
    [Member("event", ev), Member("prev_hash", Str(previous.rootHash)), Member("row_hash", Str(hash)),
     Member("seq", Int(previous.number + 1)), Member("stream", Str(stream))]
  }

  function RowValue(ev: Json, previous: Head, stream: string, hash: string): Json
    requires previous.number < MAX_SAFE_INTEGER
  {
    Obj(RowMembers(ev, previous, stream, hash))
  }

  // ---- Text of rows ----

  lemma {:induction false} RowLiterals()
    ensures "{\"event\":" == ['{'] + (['\"'] + "event" + ['\"', ':'])
    ensures ",\"prev_hash\":" == [','] + (['\"'] + "prev_hash" + ['\"', ':'])
    ensures ",\"seq\":" == [','] + (['\"'] + "seq" + ['\"', ':'])
    ensures ",\"stream\":" == [','] + (['\"'] + "stream" + ['\"', ':'])
    ensures ",\"row_hash\":" == [','] + (['\"'] + "row_hash" + ['\"', ':'])
  {
  }

  lemma {:induction false} CoreTextPrints(ev: Json, previous: Head, stream: string)
    requires previous.number < MAX_SAFE_INTEGER
    ensures CoreText(stream, previous, Print(ev)) == Print(Core(ev, previous, stream))
  {
    hide EmitMember, EmitMembers, EmitString, Digits, Decimal, Emit;
    var ms := CoreMembers(ev, previous, stream);
    FourMembers(ms[0], ms[1], ms[2], ms[3]);
    assert ms == [ms[0], ms[1], ms[2], ms[3]];
    PlainMember("event", ev);
    PlainMember("prev_hash", Str(previous.rootHash));
    PlainMember("seq", Int(previous.number + 1));
    PlainMember("stream", Str(stream));
    RowLiterals();
    Reassociate(['{'], [','], ['}'],
                ['\"'] + "event" + ['\"', ':'], Print(ev),
                ['\"'] + "prev_hash" + ['\"', ':'], Print(Str(previous.rootHash)),
                ['\"'] + "seq" + ['\"', ':'], Print(Int(previous.number + 1)),
                ['\"'] + "stream" + ['\"', ':'], Print(Str(stream)));
    PrintsAs(previous.rootHash, previous.number + 1);
    PrintsAs(stream, previous.number + 1);
  }

  lemma {:induction false} PrintsAs(s: string, n: nat)
    requires InWord(n)
    ensures Print(Str(s)) == EmitString(s, "") && Print(Int(n)) == Digits(n)
  {
  }

  lemma {:induction false} WithHashPrints(ev: Json, previous: Head, stream: string, hash: string)
    requires previous.number < MAX_SAFE_INTEGER
    ensures var core := Print(Core(ev, previous, stream));
            core != [] &&
            WithHash(core, hash)
            == Print(Obj(CoreMembers(ev, previous, stream) + [Member("row_hash", Str(hash))]))
  {
    hide EmitMember, EmitMembers, EmitString, CoreMembers;
    var ms := CoreMembers(ev, previous, stream);
    var m := Member("row_hash", Str(hash));
    EmitMembersSplit(ms, ['}'] + "");
    EmitMembersSplit(ms + [m], ['}'] + "");
    EmitMembersSnoc(ms, m);
    PlainMember("row_hash", Str(hash));
    RowLiterals();
    PrintsAs(hash, 0);
    PrintedObject(ms);
    PrintedObject(ms + [m]);
    var core := Print(Obj(ms));
    assert core[..|core| - 1] == ['{'] + EmitMembers(ms, "");
  }

  lemma {:induction false} PrintedObject(ms: seq<Member>)
    ensures Print(Obj(ms)) == ['{'] + EmitMembers(ms, ['}'] + "")
  {
  }

  // ---- Canonical form of rows ----

  lemma {:induction false} AsciiKeys()
    ensures Ascii("event") && Ascii("prev_hash") && Ascii("row_hash") && Ascii("seq") && Ascii("stream")
  {
  }

  lemma {:induction false} AsciiPair(a: string, b: string)
    requires Ascii(a) && Ascii(b) && Below(Codes(a), Codes(b))
    ensures Utf16Ok(a) && Utf16Ok(b) && Below(Rank(ByUtf16, a), Rank(ByUtf16, b))
  {
    hide Below, Rank, Utf16Ok, Codes;
    AsciiRank(a);
    AsciiRank(b);
  }

  lemma {:induction false} RowKeyPairs()
    ensures Utf16Ok("event") && Utf16Ok("prev_hash") && Utf16Ok("row_hash") && Utf16Ok("seq")
            && Utf16Ok("stream")
    ensures Below(Rank(ByUtf16, "event"), Rank(ByUtf16, "prev_hash"))
    ensures Below(Rank(ByUtf16, "prev_hash"), Rank(ByUtf16, "row_hash"))
    ensures Below(Rank(ByUtf16, "row_hash"), Rank(ByUtf16, "seq"))
    ensures Below(Rank(ByUtf16, "seq"), Rank(ByUtf16, "stream"))
  {
    hide Below, Rank, Utf16Ok, Codes, Ascii;
    AsciiKeys();
    BelowAtFirst("event", "prev_hash");
    BelowAtFirst("prev_hash", "row_hash");
    BelowAtFirst("row_hash", "seq");
    BelowAtSecond("seq", "stream");
    AsciiPair("event", "prev_hash");
    AsciiPair("prev_hash", "row_hash");
    AsciiPair("row_hash", "seq");
    AsciiPair("seq", "stream");
  }

  lemma {:induction false} RowOrder(ms: seq<Member>)
    requires |ms| == 5 && ms[0].key == "event" && ms[1].key == "prev_hash" && ms[2].key == "row_hash"
    requires ms[3].key == "seq" && ms[4].key == "stream"
    ensures Ascending(ByUtf16, ms) && DistinctRanks(ByUtf16, ms)
  {
    hide Rank, Below, Utf16Ok;
    RowKeyPairs();
    AscendingSteps(ByUtf16, ms);
    AscendingIsDistinct(ByUtf16, ms);
  }

  /** Members that are already canonical and leave room for one more level. */
  predicate RowParts(ms: seq<Member>) {
    forall m :: m in ms ==>
      Normal(ByUtf16, m.value) == m.value && KeyOk(Jcs, m.key) && Accepts(Jcs, m.value, 126)
  }

  lemma {:induction false} PartsOfRow(ev: Json, previous: Head, stream: string, hash: string)
    requires EventText(Print(ev), ev) && previous.number < MAX_SAFE_INTEGER
    ensures RowParts(RowMembers(ev, previous, stream, hash))
  {
    hide ValidEvent, Print, Utf16Ok, Below, Rank, Shallow;
    EventBound(ev, 127);
    AcceptsShallow(Jcs, ev, 127, 3, 126);
    RowKeyPairs();
  }

  /** An object made of canonical parts is accepted, and canonicalising it only sorts its keys. */
  lemma {:induction false} PartsAccepted(ms: seq<Member>)
    requires RowParts(ms) && DistinctRanks(ByUtf16, ms)
    ensures Accepts(Jcs, Obj(ms), 127)
    ensures Normal(ByUtf16, Obj(ms)) == Obj(SortMembers(ByUtf16, ms))
  {
    hide Rank, SortMembers, KeyOk;
    forall i | 0 <= i < |ms| ensures NormalMembers(ByUtf16, ms)[i] == ms[i] {
      assert ms[i] in ms;
    }
    assert NormalMembers(ByUtf16, ms) == ms;
  }

  /** A rearrangement of ascending members sorts back to them. */
  lemma {:induction false} SortBack(given: seq<Member>, row: seq<Member>)
    requires Ascending(ByUtf16, row) && DistinctRanks(ByUtf16, given)
    requires forall m :: m in given <==> m in row
    ensures SortMembers(ByUtf16, given) == row
  {
    hide Rank, Below, SortMembers;
    SortAscending(ByUtf16, given);
    SameElements(SortMembers(ByUtf16, given), given);
    AscendingUnique(ByUtf16, SortMembers(ByUtf16, given), row);
  }

  lemma {:induction false} CoreIsPartOfRow(ev: Json, previous: Head, stream: string, hash: string)
    requires previous.number < MAX_SAFE_INTEGER
    ensures var row := RowMembers(ev, previous, stream, hash);
            var core := CoreMembers(ev, previous, stream);
            core == [row[0], row[1], row[3], row[4]] && Member("row_hash", Str(hash)) == row[2]
  {
  }

  lemma {:induction false} FourOfFive(row: seq<Member>)
    requires |row| == 5 && Ascending(ByUtf16, row) && DistinctRanks(ByUtf16, row)
    ensures Ascending(ByUtf16, [row[0], row[1], row[3], row[4]])
    ensures DistinctRanks(ByUtf16, [row[0], row[1], row[3], row[4]])
  {
    hide Rank, Below;
    AscendingIsDistinct(ByUtf16, [row[0], row[1], row[3], row[4]]);
  }

  lemma {:induction false} RotatedRow(row: seq<Member>)
    requires |row| == 5 && DistinctRanks(ByUtf16, row)
    ensures DistinctRanks(ByUtf16, [row[0], row[1], row[3], row[4]] + [row[2]])
    ensures forall m :: m in [row[0], row[1], row[3], row[4]] + [row[2]] <==> m in row
  {
    hide Rank;
    assert row == [row[0], row[1], row[2], row[3], row[4]];
    assert [row[0], row[1], row[3], row[4]] + [row[2]] == [row[0], row[1], row[3], row[4], row[2]];
    RotatedRanks(Rank(ByUtf16, row[0].key), Rank(ByUtf16, row[1].key), Rank(ByUtf16, row[2].key),
                 Rank(ByUtf16, row[3].key), Rank(ByUtf16, row[4].key), row);
  }

  lemma {:induction false} RotatedRanks(a: seq<int>, b: seq<int>, c: seq<int>, d: seq<int>, e: seq<int>,
                                        row: seq<Member>)
    requires |row| == 5 && Rank(ByUtf16, row[0].key) == a && Rank(ByUtf16, row[1].key) == b
    requires Rank(ByUtf16, row[2].key) == c && Rank(ByUtf16, row[3].key) == d && Rank(ByUtf16, row[4].key) == e
    requires a != b && a != c && a != d && a != e && b != c && b != d && b != e && c != d && c != e && d != e
    ensures DistinctRanks(ByUtf16, [row[0], row[1], row[3], row[4], row[2]])
  {
    hide Rank;
  }

  lemma {:induction false} CoreCanonical(ev: Json, previous: Head, stream: string)
    requires EventText(Print(ev), ev) && previous.number < MAX_SAFE_INTEGER
    ensures Accepts(Jcs, Core(ev, previous, stream), 127)
    ensures Normal(ByUtf16, Core(ev, previous, stream)) == Core(ev, previous, stream)
  {
    hide EventText, Rank, SortMembers, Print, Accepts, Normal, KeyOk, DistinctRanks, Ascending;
    var row := RowMembers(ev, previous, stream, "");
    PartsOfRow(ev, previous, stream, "");
    RowOrder(row);
    FourOfFive(row);
    CoreIsPartOfRow(ev, previous, stream, "");
    PartsAccepted(CoreMembers(ev, previous, stream));
    SortOfAscending(ByUtf16, CoreMembers(ev, previous, stream));
  }

  lemma {:induction false} RowCanonical(ev: Json, previous: Head, stream: string, hash: string)
    requires EventText(Print(ev), ev) && previous.number < MAX_SAFE_INTEGER
    ensures var given := Obj(CoreMembers(ev, previous, stream) + [Member("row_hash", Str(hash))]);
            Accepts(Jcs, given, 127)
            && Normal(ByUtf16, given) == RowValue(ev, previous, stream, hash)
    ensures Accepts(Jcs, RowValue(ev, previous, stream, hash), 127)
            && Normal(ByUtf16, RowValue(ev, previous, stream, hash)) == RowValue(ev, previous, stream, hash)
  {
    hide EventText, Rank, SortMembers, Print, Accepts, Normal, KeyOk, DistinctRanks, Ascending;
    var row := RowMembers(ev, previous, stream, hash);
    var given := CoreMembers(ev, previous, stream) + [Member("row_hash", Str(hash))];
    PartsOfRow(ev, previous, stream, hash);
    RowOrder(row);
    RotatedRow(row);
    CoreIsPartOfRow(ev, previous, stream, hash);
    PartsAccepted(given);
    SortBack(given, row);
    PartsAccepted(row);
    SortOfAscending(ByUtf16, row);
  }

  // ---- Sizes of rows ----

  lemma {:induction false} RowLength(ev: Json, previous: Head, stream: string, hash: string)
    requires EventText(Print(ev), ev) && Extendable(stream, previous) && HexHash(hash)
    ensures Length(RowValue(ev, previous, stream, hash)) <= 495000 < ROW_BYTES
    ensures Length(Obj(CoreMembers(ev, previous, stream) + [Member("row_hash", Str(hash))])) <= 495000
    ensures Length(Core(ev, previous, stream)) <= 495000
  {
    hide EventText, Identifier, HexHash, Length, MemberLength, StringLength;
    var row := RowMembers(ev, previous, stream, hash);
    RowMemberLengths(ev, previous, stream, hash);
    SumFive(row[0], row[1], row[2], row[3], row[4]);
    SumFive(row[0], row[1], row[3], row[4], row[2]);
    SumFour(row[0], row[1], row[3], row[4]);
    assert row == [row[0], row[1], row[2], row[3], row[4]];
    assert CoreMembers(ev, previous, stream) == [row[0], row[1], row[3], row[4]];
    assert CoreMembers(ev, previous, stream) + [Member("row_hash", Str(hash))]
           == [row[0], row[1], row[3], row[4], row[2]];
    ObjectLength(row);
    ObjectLength(CoreMembers(ev, previous, stream));
    ObjectLength([row[0], row[1], row[3], row[4], row[2]]);
  }

  lemma {:induction false} SumFour(a: Member, b: Member, c: Member, d: Member)
    ensures SumLengths([a, b, c, d]) == MemberLength(a) + MemberLength(b) + MemberLength(c) + MemberLength(d)
  {
    hide MemberLength;
    assert [a, b, c, d][1..] == [b, c, d] && [b, c, d][1..] == [c, d] && [c, d][1..] == [d] && [d][1..] == [];
    assert SumLengths([d]) == MemberLength(d);
    assert SumLengths([c, d]) == MemberLength(c) + SumLengths([d]);
    assert SumLengths([b, c, d]) == MemberLength(b) + SumLengths([c, d]);
  }

  lemma {:induction false} SumFive(a: Member, b: Member, c: Member, d: Member, e: Member)
    ensures SumLengths([a, b, c, d, e])
            == MemberLength(a) + MemberLength(b) + MemberLength(c) + MemberLength(d) + MemberLength(e)
  {
    hide MemberLength;
    SumFour(b, c, d, e);
    assert [a, b, c, d, e][1..] == [b, c, d, e];
  }

  lemma {:induction false} RowMemberLengths(ev: Json, previous: Head, stream: string, hash: string)
    requires EventText(Print(ev), ev) && Extendable(stream, previous) && HexHash(hash)
    ensures var row := RowMembers(ev, previous, stream, hash);
            MemberLength(row[0]) <= 488515 && MemberLength(row[1]) <= 1029 && MemberLength(row[2]) <= 1029
            && MemberLength(row[3]) <= 1029 && MemberLength(row[4]) <= 1029
  {
    hide Length, MemberLength, ValidEvent, Accepts, Normal, Print;
    var row := RowMembers(ev, previous, stream, hash);
    RowNames();
    EventBound(ev, 127);
    MemberBound(row[0], 488000);
    IdTextBound(Str(previous.rootHash));
    MemberBound(row[1], 514);
    IdTextBound(Str(hash));
    MemberBound(row[2], 514);
    IntBound(previous.number + 1);
    MemberBound(row[3], 514);
    IdTextBound(Str(stream));
    MemberBound(row[4], 514);
  }

  lemma {:induction false} RowNames()
    ensures Identifier("event") && Identifier("prev_hash") && Identifier("row_hash") && Identifier("seq")
            && Identifier("stream")
  {
  }

  // ---- Building and verifying rows ----

  /** A valid event always yields a row: the size and nesting checks never refuse it, and the row is the
      canonical text of the five row fields with the chained hash among them. */
  lemma {:induction false} RowShape(sha: Hash, stream: string, previous: Head, event: string, ev: Json)
    requires EventText(event, ev) && Extendable(stream, previous)
    ensures var core := Print(Core(ev, previous, stream));
            var hash := ChainHash(sha, previous.rootHash, core);
            && CoreText(stream, previous, event) == core && core != []
            && Canonicalize(Jcs, core) == Some(core)
            && Row(sha, stream, previous, event) == Some(Print(RowValue(ev, previous, stream, hash)))
            && HexHash(hash)
  {
    hide EventText, Canonicalize, CoreText, Core, CoreMembers, RowMembers, HexHash, Print, Accepts, Normal,
         WithHash, RawHash, HexOf, Identifier;
    assert event == Print(ev) by { EventIsPrinted(event, ev); }
    var core := Print(Core(ev, previous, stream));
    var hash := ChainHash(sha, previous.rootHash, core);
    RawOfHex(sha(RawHash(previous.rootHash) + core));
    CoreTextPrints(ev, previous, stream);
    WithHashPrints(ev, previous, stream, hash);
    CoreCanonicalized(ev, previous, stream);
    RowCanonicalized(ev, previous, stream, hash);
    PrintLength(RowValue(ev, previous, stream, hash));
    RowLength(ev, previous, stream, hash);
  }

  lemma {:induction false} EventIsPrinted(event: string, ev: Json)
    requires EventText(event, ev)
    ensures event == Print(ev)
  {
  }

  lemma {:induction false} PrintLength(v: Json)
    ensures |Print(v)| == Length(v)
  {
  }

  lemma {:induction false} CoreCanonicalized(ev: Json, previous: Head, stream: string)
    requires EventText(Print(ev), ev) && Extendable(stream, previous)
    ensures Canonicalize(Jcs, Print(Core(ev, previous, stream))) == Some(Print(Core(ev, previous, stream)))
  {
    hide EventText, Core, Print, Accepts, Normal, HexHash, Identifier;
    CoreCanonical(ev, previous, stream);
    AnyHash();
    RowLength(ev, previous, stream, ZERO_HASH);
    PrintLength(Core(ev, previous, stream));
    CanonicalizePrinted(Jcs, Core(ev, previous, stream));
  }

  lemma {:induction false} CoreParsed(ev: Json, previous: Head, stream: string)
    requires EventText(Print(ev), ev) && Extendable(stream, previous)
    ensures ParseDocument(Print(Core(ev, previous, stream))) == Document(Core(ev, previous, stream))
  {
    hide EventText, Core, Print, Accepts, Normal, HexHash, Identifier, ParseDocument;
    CoreCanonical(ev, previous, stream);
    AcceptedIsPrintable(Jcs, Core(ev, previous, stream), 127);
    ParsePrinted(Core(ev, previous, stream));
  }

  lemma {:induction false} AnyHash()
    ensures HexHash(ZERO_HASH)
  {
    assert |ZEROS| == 16 && forall i :: 0 <= i < 16 ==> ZEROS[i] == '0';
    forall i | 0 <= i < 64 ensures LowerHexDigit(ZERO_HASH[i]) {
      assert ZERO_HASH[i] == ZEROS[i % 16];
    }
  }

  lemma {:induction false} RowCanonicalized(ev: Json, previous: Head, stream: string, hash: string)
    requires EventText(Print(ev), ev) && Extendable(stream, previous) && HexHash(hash)
    ensures var given := Obj(CoreMembers(ev, previous, stream) + [Member("row_hash", Str(hash))]);
            var row := Print(RowValue(ev, previous, stream, hash));
            && Canonicalize(Jcs, Print(given)) == Some(row)
            && Canonicalize(Jcs, row) == Some(row)
            && ParseDocument(row) == Document(RowValue(ev, previous, stream, hash))
  {
    hide EventText, CoreMembers, RowMembers, Accepts, Normal, HexHash, Identifier, Print, ParseDocument;
    var given := Obj(CoreMembers(ev, previous, stream) + [Member("row_hash", Str(hash))]);
    var value := RowValue(ev, previous, stream, hash);
    RowCanonical(ev, previous, stream, hash);
    RowLength(ev, previous, stream, hash);
    PrintLength(given);
    PrintLength(value);
    AcceptedIsPrintable(Jcs, given, 127);
    ParsePrinted(given);
    FormRoundTrip(Jcs, value, 127);
  }

  /** Looking the five fields up in a row finds what was put there. */
  lemma {:induction false} RowFields(ev: Json, previous: Head, stream: string, hash: string)
    requires previous.number < MAX_SAFE_INTEGER
    ensures var v := RowValue(ev, previous, stream, hash);
            && OnlyFields(v, ROW_FIELDS)
            && Field(v, "event") == Some(ev)
            && Field(v, "prev_hash") == Some(Str(previous.rootHash))
            && Field(v, "row_hash") == Some(Str(hash))
            && Field(v, "seq") == Some(Int(previous.number + 1))
  {
    hide Rank, DistinctRanks, Ascending, Get;
    var row := RowMembers(ev, previous, stream, hash);
    RowOrder(row);
    GetMember(ByUtf16, row, 0);
    GetMember(ByUtf16, row, 1);
    GetMember(ByUtf16, row, 2);
    GetMember(ByUtf16, row, 3);
  }

  lemma {:induction false} HeadOfRow(ev: Json, previous: Head, stream: string, hash: string)
    requires EventText(Print(ev), ev) && Extendable(stream, previous) && HexHash(hash)
    ensures RowHead(Print(RowValue(ev, previous, stream, hash))) == Some(Head(previous.number + 1, hash))
  {
    hide EventText, RowValue, Print, ParseDocument, Field, HexHash, Identifier, OnlyFields, Canonicalize;
    RowCanonicalized(ev, previous, stream, hash);
    RowFields(ev, previous, stream, hash);
  }

  lemma {:induction false} EventStable(event: string, ev: Json)
    requires EventText(event, ev)
    ensures Canonicalize(Jcs, Print(ev)) == Some(event) && JournalEvent(event) == Some(event)
    ensures ParseDocument(event) == Document(ev)
  {
    hide ValidEvent, Accepts, Normal, ParseDocument;
    EventBound(ev, 127);
    PrintLength(ev);
    CanonicalizePrinted(Jcs, ev);
    FormRoundTrip(Jcs, ev, 127);
  }

  /** Every row that appending can write is accepted by verification over the same previous head. */
  lemma {:induction false} WrittenRowVerifies(sha: Hash, stream: string, previous: Head, input: string)
    requires JournalEvent(input).Some? && Extendable(stream, previous)
    ensures var row := Row(sha, stream, previous, JournalEvent(input).value);
            && row.Some? && |row.value| < ROW_BYTES && Clean(row.value) && row.value != []
            && RowHead(row.value).Some?
            && VerifyRow(sha, stream, previous, row.value) == RowHead(row.value)
            && RowHead(row.value).value.number == previous.number + 1
            && HexHash(RowHead(row.value).value.rootHash)
  {
    hide EventText, Row, Print, ParseDocument, Canonicalize, RowHead, RowMembers, HexHash, Identifier, RawHash,
         HexOf, Core, CoreMembers, CoreText, OnlyFields, Field, JournalEvent;
    var event := JournalEvent(input).value;
    JournalEventText(input);
    var ev := ParseDocument(event).value;
    RowShape(sha, stream, previous, event, ev);
    var core := Print(Core(ev, previous, stream));
    var hash := ChainHash(sha, previous.rootHash, core);
    EventIsPrinted(event, ev);
    RowCanonicalized(ev, previous, stream, hash);
    RowFields(ev, previous, stream, hash);
    EventStable(event, ev);
    HeadOfRow(ev, previous, stream, hash);
    RowLength(ev, previous, stream, hash);
    PrintLength(RowValue(ev, previous, stream, hash));
    PrintClean(RowValue(ev, previous, stream, hash));
    PrintNonEmpty(RowMembers(ev, previous, stream, hash));
  }

  lemma {:induction false} PrintClean(v: Json)
    ensures Clean(Print(v))
  {
    EmitClean(v, "");
  }

  lemma {:induction false} PrintNonEmpty(ms: seq<Member>)
    ensures Print(Obj(ms)) != []
  {
  }

  /** A row without its hash is its core. */
  lemma {:induction false} UnhashedRow(ev: Json, previous: Head, stream: string, hash: string)
    requires previous.number < MAX_SAFE_INTEGER
    ensures Unhashed(RowMembers(ev, previous, stream, hash)) == CoreMembers(ev, previous, stream)
  {
    hide Unhashed;
    var ms := RowMembers(ev, previous, stream, hash);
    var (a, b, h, c, d) := (ms[0], ms[1], ms[2], ms[3], ms[4]);
    UnhashedStep(a, [b, h, c, d]);
    UnhashedStep(b, [h, c, d]);
    UnhashedStep(h, [c, d]);
    UnhashedStep(c, [d]);
    UnhashedStep(d, []);
    assert ms == [a] + [b, h, c, d] && [b] + [h, c, d] == [b, h, c, d] && [h] + [c, d] == [h, c, d];
    assert [c] + [d] == [c, d] && [d] + [] == [d];
  }

  lemma {:induction false} UnhashedStep(m: Member, ms: seq<Member>)
    ensures Unhashed([m] + ms) == if m.key == "row_hash" then Unhashed(ms) else [m] + Unhashed(ms)
    ensures Unhashed([]) == []
  {
    assert ([m] + ms)[1..] == ms;
  }

  lemma {:induction false} HashInputOfRow(ev: Json, previous: Head, stream: string, hash: string)
    requires EventText(Print(ev), ev) && Extendable(stream, previous) && HexHash(hash)
    ensures HashInput(Print(RowValue(ev, previous, stream, hash)))
            == Some(RawHash(previous.rootHash) + Print(Core(ev, previous, stream)))
  {
    hide EventText, Print, ParseDocument, Field, HexHash, Identifier, OnlyFields, Canonicalize, RawHash, RowMembers,
         CoreMembers;
    RowCanonicalized(ev, previous, stream, hash);
    RowFields(ev, previous, stream, hash);
    UnhashedRow(ev, previous, stream, hash);
  }

  /** Over one previous head a row text belongs to one event. */
  lemma {:induction false} EventOfRow(sha: Hash, stream: string, previous: Head, ev: Json, hash: string, other: Json)
    requires EventText(Print(ev), ev) && Extendable(stream, previous) && HexHash(hash)
    requires EventText(Print(other), other)
    requires Row(sha, stream, previous, Print(other)) == Some(Print(RowValue(ev, previous, stream, hash)))
    ensures other == ev
  {
    hide EventText, Row, Print, ParseDocument, Field, HexHash, Identifier, OnlyFields, Canonicalize, RawHash, HexOf,
         RowMembers, CoreMembers, CoreText, Core;
    RowShape(sha, stream, previous, Print(other), other);
    var h := ChainHash(sha, previous.rootHash, Print(Core(other, previous, stream)));
    RowCanonicalized(ev, previous, stream, hash);
    RowCanonicalized(other, previous, stream, h);
    RowFields(ev, previous, stream, hash);
    RowFields(other, previous, stream, h);
  }

  /** An accepted row is the row of one valid event over the previous head, and of no other; it carries the next
      number and the hash of what can be read off it. */
  lemma {:induction false} AcceptedRow(sha: Hash, stream: string, previous: Head, row: string)
    returns (ev: Json)
    requires VerifyRow(sha, stream, previous, row).Some?
    ensures Extendable(stream, previous) && EventText(Print(ev), ev)
    ensures Row(sha, stream, previous, Print(ev)) == Some(row)
    ensures forall other :: EventText(Print(other), other) && Row(sha, stream, previous, Print(other)) == Some(row)
                            ==> other == ev
    ensures HashInput(row) == Some(RawHash(previous.rootHash) + Print(Core(ev, previous, stream)))
    ensures VerifyRow(sha, stream, previous, row) == RowHead(row)
            == Some(Head(previous.number + 1, HexOf(sha(HashInput(row).value))))
    ensures Clean(row) && row != [] && |row| < ROW_BYTES
  {
    hide EventText, Print, ParseDocument, Canonicalize, RowHead, RowMembers, HexHash, Identifier, RawHash,
         HexOf, Core, CoreMembers, CoreText, OnlyFields, Field, JournalEvent, Row, HashInput;
    var event := VerifiedEvent(sha, stream, previous, row);
    ev := ParseDocument(event).value;
    EventIsPrinted(event, ev);
    RowIsOver(sha, stream, previous, event);
    RowShape(sha, stream, previous, event, ev);
    var core := Print(Core(ev, previous, stream));
    var hash := ChainHash(sha, previous.rootHash, core);
    HeadOfRow(ev, previous, stream, hash);
    HashInputOfRow(ev, previous, stream, hash);
    PrintClean(RowValue(ev, previous, stream, hash));
    PrintNonEmpty(RowMembers(ev, previous, stream, hash));
    forall other | EventText(Print(other), other) && Row(sha, stream, previous, Print(other)) == Some(row)
      ensures other == ev
    {
      EventOfRow(sha, stream, previous, ev, hash, other);
    }
  }

  lemma {:induction false} VerifiedEvent(sha: Hash, stream: string, previous: Head, row: string) returns (event: string)
    requires VerifyRow(sha, stream, previous, row).Some?
    ensures ParseDocument(event).Document? && EventText(event, ParseDocument(event).value)
    ensures Row(sha, stream, previous, event) == Some(row) && |row| < ROW_BYTES
    ensures VerifyRow(sha, stream, previous, row) == RowHead(row)
  {
    hide EventText, Print, ParseDocument, Canonicalize, RowHead, OnlyFields, Field, JournalEvent, Row;
    var serialized := Canonicalize(Jcs, Print(Field(ParseDocument(row).value, "event").value)).value;
    event := JournalEvent(serialized).value;
    JournalEventText(serialized);
  }

  lemma {:induction false} RowIsOver(sha: Hash, stream: string, previous: Head, event: string)
    requires Row(sha, stream, previous, event).Some?
    ensures Extendable(stream, previous)
  {
  }

  /** Once one spelling of an event is accepted, another within the limit gives the same text exactly when it
      means the same event. */
  lemma {:induction false} EventSpellings(a: string, b: string)
    requires JournalEvent(a).Some? && |b| <= ROW_BYTES / 2 && ParseDocument(b).Document?
    ensures JournalEvent(b) == JournalEvent(a) <==> Equivalent(ParseDocument(a).value, ParseDocument(b).value)
  {
    hide ParseDocument, Canonicalize, ValidEvent, Equivalent;
    SpellingsAgree(Jcs, a, b);
  }
}
