/** Project-relative paths: three hand-written validators of one meaning.

    Text is a sequence of Unicode scalar values; the native validator sees its UTF-8 bytes, one `char` each. */
module Paths {
  import opened Base
  import JsonText

  const META_DIR := ".synergos"

  // ---- The meaning ----

  /** The pieces between slashes; always at least one. */
  function Split(s: string): (r: seq<string>)
    ensures |r| > 0
  {
    if s == "" then [""]
    else
      var rest := Split(s[1..]);
      if s[0] == '/' then [""] + rest else [[s[0]] + rest[0]] + rest[1..]
  }

  function Join(parts: seq<string>): string
    requires |parts| > 0
  {
    if |parts| == 1 then parts[0] else parts[0] + "/" + Join(parts[1..])
  }

  predicate PlainPart(part: string) { part != "" && part != "." && part != ".." }

  /** Every piece is a plain name, the first is not the metadata directory, and no character is reserved. */
  predicate WellFormed(s: string) {
    && (forall part :: part in Split(s) ==> PlainPart(part))
    && Split(s)[0] != META_DIR
    && (forall i :: 0 <= i < |s| ==> s[i] != '\\' && s[i] != ':')
  }

  /** The Unicode control characters (general category Cc). */
  predicate Control(c: char) { c < ' ' || '\U{7F}' <= c <= '\U{9F}' }

  predicate Latin1Control(c: char) { '\U{80}' <= c <= '\U{9F}' }

  predicate Safe(s: string) { WellFormed(s) && forall i :: 0 <= i < |s| ==> !Control(s[i]) }

  predicate Contains(s: string, c: char) { exists i :: 0 <= i < |s| && s[i] == c }

  // ---- Facts about splitting ----

  lemma {:induction false} JoinSplit(s: string)
    ensures Join(Split(s)) == s
    decreases |s|
  {
    if s != "" {
      var rest := Split(s[1..]);
      JoinSplit(s[1..]);
      assert s == [s[0]] + s[1..];
      if s[0] == '/' { JoinSlash(rest); } else { JoinLonger(s[0], rest); }
    }
  }

  lemma {:induction false} JoinSlash(rest: seq<string>)
    requires |rest| > 0
    ensures Join([""] + rest) == ['/'] + Join(rest)
  {
    assert ([""] + rest)[1..] == rest;
    assert "" + "/" + Join(rest) == ['/'] + Join(rest);
  }

  lemma {:induction false} JoinLonger(c: char, rest: seq<string>)
    requires |rest| > 0
    ensures Join([[c] + rest[0]] + rest[1..]) == [c] + Join(rest)
  {
    var parts := [[c] + rest[0]] + rest[1..];
    assert parts[1..] == rest[1..];
    if |rest| > 1 {
      var more := Join(rest[1..]);
      assert [c] + rest[0] + "/" + more == [c] + (rest[0] + "/" + more);
    }
  }

  /** Up to the first slash the path is one piece; after it the rest is split on its own. */
  lemma {:induction false} SplitFirst(s: string, end: nat)
    requires end <= |s| && (forall i :: 0 <= i < end ==> s[i] != '/') && (end < |s| ==> s[end] == '/')
    ensures Split(s)[0] == s[..end]
    ensures end == |s| ==> Split(s) == [s]
    ensures end < |s| ==> Split(s) == [s[..end]] + Split(s[end + 1..])
    decreases |s|
  {
    if end > 0 {
      var t := s[1..];
      SplitFirst(t, end - 1);
      assert s[..end] == [s[0]] + t[..end - 1];
      if end < |s| {
        assert t[end..] == s[end + 1..];
        assert Split(t)[1..] == Split(s[end + 1..]);
      } else {
        assert s == [s[0]] + t;
      }
    }
  }

  lemma {:induction false} PartIn(s: string, part: string, c: char)
    requires part in Split(s) && Contains(part, c)
    ensures Contains(s, c) && c != '/'
    decreases |s|
  {
    if s != "" {
      var rest := Split(s[1..]);
      var j :| 0 <= j < |part| && part[j] == c;
      if part in rest {
        PartIn(s[1..], part, c);
        var i :| 0 <= i < |s[1..]| && s[1..][i] == c;
        assert s[i + 1] == c;
      } else if j == 0 {
        assert s[0] == c;
      } else {
        assert part == [s[0]] + rest[0] && rest[0][j - 1] == c;
        PartIn(s[1..], rest[0], c);
        var i :| 0 <= i < |s[1..]| && s[1..][i] == c;
        assert s[i + 1] == c;
      }
    }
  }

  lemma {:induction false} InPart(s: string, c: char)
    requires Contains(s, c) && c != '/'
    ensures exists part :: part in Split(s) && Contains(part, c)
    decreases |s|
  {
    var rest := Split(s[1..]);
    var i :| 0 <= i < |s| && s[i] == c;
    if i == 0 {
      assert Split(s)[0][0] == c;
      assert Contains(Split(s)[0], c);
    } else {
      assert s[1..][i - 1] == c;
      InPart(s[1..], c);
      var part :| part in rest && Contains(part, c);
      if s[0] == '/' || part in rest[1..] {
        assert part in Split(s);
      } else {
        var j :| 0 <= j < |part| && part[j] == c;
        assert Split(s)[0][j + 1] == c;
        assert Contains(Split(s)[0], c);
      }
    }
  }

  // ---- The manifest's check ----

  /** Segment by segment, giving the local path. */
  method SafeRelToLocal(rel: string) returns (local: Option<seq<string>>)
    ensures local == if Safe(rel) then Some(Split(rel)) else None
  {
    hide Split, Control;
    if rel == "" || rel[0] == '/' || '\\' in rel || exists i :: 0 <= i < |rel| && Control(rel[i]) {
      if rel == "" || rel[0] == '/' { EmptyFirst(rel); }
      return None;
    }
    var parts := Split(rel);
    var p: seq<string> := [];
    var first := true;
    while |p| < |parts|
      invariant |p| <= |parts| && p == parts[..|p|] && first == (|p| == 0)
      invariant forall i :: 0 <= i < |p| ==> PlainPart(parts[i]) && ':' !in parts[i]
      invariant |p| > 0 ==> parts[0] != META_DIR
    {
      var seg := parts[|p|];
      if seg == "" || seg == "." || seg == ".." {
        assert seg in Split(rel) && !PlainPart(seg);
        return None;
      }
      if ':' in seg || (first && seg == META_DIR) {
        if ':' in seg {
          assert Contains(seg, ':');
          PartIn(rel, seg, ':');
        }
        return None;
      }
      first := false;
      p := p + [seg];
    }
    if Contains(rel, ':') {
      InPart(rel, ':');
      assert false;
    }
    assert p == parts;
    assert forall part :: part in parts ==> PlainPart(part);
    assert forall i :: 0 <= i < |rel| ==> rel[i] != ':';
    return Some(p);
  }

  // ---- The native check ----

  predicate NativeControl(c: char) { c < ' ' || c == '\U{7F}' }

  /** What the native scan accepts, on bytes. */
  predicate NativeSafe(bytes: string) {
    WellFormed(bytes) && forall i :: 0 <= i < |bytes| ==> !NativeControl(bytes[i])
  }

  method Find(path: string, begin: nat) returns (end: nat)
    requires begin <= |path|
    ensures begin <= end <= |path| && (forall i :: begin <= i < end ==> path[i] != '/')
    ensures end < |path| ==> path[end] == '/'
  {
    end := begin;
    while end < |path| && path[end] != '/'
      invariant begin <= end <= |path| && forall i :: begin <= i < end ==> path[i] != '/'
    {
      end := end + 1;
    }
  }

  lemma {:induction false} EmptyFirst(s: string)
    requires s == "" || s[0] == '/'
    ensures "" in Split(s)
  {
    assert Split(s)[0] == "";
  }

  predicate PlainParts(parts: seq<string>) { forall part :: part in parts ==> PlainPart(part) }

  method IsSafeRelativePath(path: string) returns (ok: bool)
    ensures ok == NativeSafe(path)
  {
    hide Split;
    if path == "" || path[0] == '/' {
      EmptyFirst(path);
      return false;
    }
    for i := 0 to |path|
      invariant forall j :: 0 <= j < i ==> !NativeControl(path[j]) && path[j] != '\\' && path[j] != ':'
    {
      if NativeControl(path[i]) || path[i] == '\\' || path[i] == ':' {
        return false;
      }
    }
    var begin := 0;
    assert path[0..] == path;
    while begin <= |path|
      invariant begin <= |path|
      invariant PlainParts(Split(path)) == PlainParts(Split(path[begin..]))
      invariant begin > 0 ==> Split(path)[0] != META_DIR
      decreases |path| - begin
    {
      var end := Find(path, begin);
      var part := path[begin..end];
      SplitFirst(path[begin..], end - begin);
      assert path[begin..][..end - begin] == part;
      assert end < |path| ==> path[begin..][end - begin + 1..] == path[end + 1..];
      ghost var here := Split(path[begin..]);
      assert part in here;
      if part == "" || part == "." || part == ".." || (begin == 0 && part == META_DIR) {
        return false;
      }
      if end == |path| {
        assert here == [part];
        return true;
      }
      assert here == [part] + Split(path[end + 1..]);
      begin := end + 1;
    }
    return false;
  }

  // ---- The two agree on UTF-8 ----

  /** The UTF-8 encoding of one scalar value, a byte per `char` (section 3 of RFC 3629). */
  function Utf8Char(c: char): (r: string)
    ensures |r| > 0
    ensures c as int < 0x80 ==> r == [c]
    ensures c as int >= 0x80 ==> forall i :: 0 <= i < |r| ==> 0x80 <= r[i] as int < 0x100
  {
    JsonText.Utf8(c as int)
  }

  function Utf8(s: string): string {
    if s == "" then "" else Utf8Char(s[0]) + Utf8(s[1..])
  }

  predicate Ascii(c: char) { c as int < 0x80 }

  lemma {:induction false} ContainsAppend(a: string, b: string, c: char)
    ensures Contains(a + b, c) <==> Contains(a, c) || Contains(b, c)
  {
    if Contains(a, c) {
      var i :| 0 <= i < |a| && a[i] == c;
      assert (a + b)[i] == c;
    }
    if Contains(b, c) {
      var i :| 0 <= i < |b| && b[i] == c;
      assert (a + b)[|a| + i] == c;
    }
  }

  lemma {:induction false} AsciiByte(d: char, c: char)
    requires Ascii(c)
    ensures Contains(Utf8Char(d), c) <==> Contains([d], c)
  {
    hide Utf8Char;
    assert [d][0] == d;
    assert Contains([d], c) <==> d == c;
    assert Utf8Char(d)[0] == d || !Ascii(d);
  }

  /** An ASCII byte of the encoding stands for itself. */
  lemma {:induction false} AsciiBytes(s: string, c: char)
    requires Ascii(c)
    ensures Contains(Utf8(s), c) <==> Contains(s, c)
  {
    hide Contains, Utf8Char;
    if s != "" {
      AsciiBytes(s[1..], c);
      AsciiByte(s[0], c);
      ContainsAppend(Utf8Char(s[0]), Utf8(s[1..]), c);
      ContainsAppend([s[0]], s[1..], c);
      assert s == [s[0]] + s[1..];
    }
  }

  lemma {:induction false} Utf8Length(s: string)
    ensures |Utf8(s)| >= |s| && (s == "" <==> Utf8(s) == "")
  {
    if s != "" { Utf8Length(s[1..]); }
  }

  /** An ASCII text is the encoding of itself and of nothing else. */
  lemma {:induction false} AsciiText(s: string, t: string)
    requires forall i :: 0 <= i < |t| ==> Ascii(t[i])
    ensures Utf8(s) == t <==> s == t
    decreases |s|
  {
    Utf8Length(s);
    if s != "" && t != "" {
      AsciiText(s[1..], t[1..]);
      assert Utf8(s)[0] == Utf8Char(s[0])[0];
      if Ascii(s[0]) {
        assert Utf8(s) == [s[0]] + Utf8(s[1..]);
        assert t == [t[0]] + t[1..];
        assert s == [s[0]] + s[1..];
        assert Utf8(s)[1..] == Utf8(s[1..]);
      }
    }
  }

  function Utf8Parts(parts: seq<string>): (r: seq<string>)
    ensures |r| == |parts| && forall i :: 0 <= i < |r| ==> r[i] == Utf8(parts[i])
  {
    if parts == [] then [] else [Utf8(parts[0])] + Utf8Parts(parts[1..])
  }

  lemma {:induction false} SplitPrefix(head: string, tail: string)
    requires forall i :: 0 <= i < |head| ==> head[i] != '/'
    ensures Split(head + tail) == [head + Split(tail)[0]] + Split(tail)[1..]
  {
    if head == "" {
      assert head + tail == tail;
      assert "" + Split(tail)[0] == Split(tail)[0];
      assert [Split(tail)[0]] + Split(tail)[1..] == Split(tail);
    } else {
      SplitPrefix(head[1..], tail);
      var whole := head + tail;
      assert whole[1..] == head[1..] + tail && whole[0] == head[0];
      assert [head[0]] + (head[1..] + Split(tail)[0]) == head + Split(tail)[0];
    }
  }

  /** Splitting at slashes and encoding commute. */
  lemma {:induction false} SplitUtf8(s: string)
    ensures Split(Utf8(s)) == Utf8Parts(Split(s))
  {
    if s != "" {
      var rest := Split(s[1..]);
      var head, tail := Utf8Char(s[0]), Utf8(s[1..]);
      SplitUtf8(s[1..]);
      if s[0] == '/' {
        assert Utf8(s)[1..] == tail && Utf8(s)[0] == '/';
        assert Split(Utf8(s)) == [""] + Utf8Parts(rest);
        assert Utf8Parts([""] + rest) == [""] + Utf8Parts(rest);
      } else {
        SplitPrefix(head, tail);
        var first := [s[0]] + rest[0];
        assert first[1..] == rest[0];
        assert Utf8(first) == head + Utf8(rest[0]);
        assert Utf8Parts([first] + rest[1..]) == [Utf8(first)] + Utf8Parts(rest)[1..];
      }
    }
  }

  lemma {:induction false} PlainUtf8(part: string)
    ensures PlainPart(Utf8(part)) <==> PlainPart(part)
  {
    AsciiText(part, "");
    AsciiText(part, ".");
    AsciiText(part, "..");
  }

  lemma {:induction false} PlainPartsUtf8(parts: seq<string>)
    ensures PlainParts(Utf8Parts(parts)) <==> PlainParts(parts)
  {
    var encoded := Utf8Parts(parts);
    forall i | 0 <= i < |parts| ensures PlainPart(encoded[i]) <==> PlainPart(parts[i]) { PlainUtf8(parts[i]); }
    if PlainParts(encoded) {
      forall part | part in parts ensures PlainPart(part) {
        var i :| 0 <= i < |parts| && parts[i] == part;
        assert encoded[i] in encoded;
      }
    }
    if PlainParts(parts) {
      forall part | part in encoded ensures PlainPart(part) {
        var i :| 0 <= i < |encoded| && encoded[i] == part;
        assert parts[i] in parts;
      }
    }
  }

  lemma {:induction false} WellFormedUtf8(s: string)
    ensures WellFormed(Utf8(s)) <==> WellFormed(s)
  {
    SplitUtf8(s);
    PlainPartsUtf8(Split(s));
    AsciiText(Split(s)[0], META_DIR);
    AsciiBytes(s, '\\');
    AsciiBytes(s, ':');
    assert forall t: string :: WellFormed(t) <==>
      PlainParts(Split(t)) && Split(t)[0] != META_DIR && !Contains(t, '\\') && !Contains(t, ':');
  }

  predicate NativeClean(s: string) { forall i :: 0 <= i < |s| ==> !NativeControl(s[i]) }

  lemma {:induction false} CleanAppend(a: string, b: string)
    ensures NativeClean(a + b) <==> NativeClean(a) && NativeClean(b)
  {
    if NativeClean(a + b) {
      forall i | 0 <= i < |a| ensures !NativeControl(a[i]) { assert a[i] == (a + b)[i]; }
      forall i | 0 <= i < |b| ensures !NativeControl(b[i]) { assert b[i] == (a + b)[|a| + i]; }
    }
  }

  lemma {:induction false} CleanChar(c: char)
    ensures NativeClean(Utf8Char(c)) <==> NativeClean([c])
  {
    hide Utf8Char;
    assert [c][0] == c;
    assert !NativeControl(c) <==> NativeClean([c]);
    assert Utf8Char(c)[0] == c || c as int >= 0x80;
  }

  lemma {:induction false} NativeCleanUtf8(s: string)
    ensures NativeClean(Utf8(s)) <==> NativeClean(s)
  {
    hide Utf8Char, NativeClean;
    if s != "" {
      NativeCleanUtf8(s[1..]);
      CleanChar(s[0]);
      CleanAppend(Utf8Char(s[0]), Utf8(s[1..]));
      CleanAppend([s[0]], s[1..]);
      assert s == [s[0]] + s[1..];
    }
  }

  /** The manifest's check accepts exactly the texts whose bytes the native check accepts and that hold no
      character from U+0080 to U+009F. */
  lemma {:induction false} ValidatorsAgree(s: string)
    ensures Safe(s) <==> NativeSafe(Utf8(s)) && forall i :: 0 <= i < |s| ==> !Latin1Control(s[i])
  {
    WellFormedUtf8(s);
    NativeCleanUtf8(s);
    assert forall c: char :: Control(c) <==> NativeControl(c) || Latin1Control(c);
    assert NativeSafe(Utf8(s)) <==> WellFormed(s) && NativeClean(s);
  }

  // ---- The IPC check ----

  /** The Unicode property White_Space. */
  predicate WhiteSpace(c: char) {
    || '\U{9}' <= c <= '\U{D}' || c == ' ' || c == '\U{85}' || c == '\U{A0}' || c == '\U{1680}'
    || '\U{2000}' <= c <= '\U{200A}' || c == '\U{2028}' || c == '\U{2029}' || c == '\U{202F}' || c == '\U{205F}'
    || c == '\U{3000}'
  }

  predicate Blank(s: string) { forall i :: 0 <= i < |s| ==> WhiteSpace(s[i]) }

  predicate StartsWith(s: string, prefix: string) { prefix <= s }

  /** The closure that the command validator applies to path fields. */
  predicate CheckRelPath(path: string) {
    && !Blank(path) && |Utf8(path)| <= 1024
    && !(|| StartsWith(path, "/") || '\\' in path || path == ".synergos" || StartsWith(path, ".synergos/")
         || (exists i :: 0 <= i < |path| && Control(path[i]))
         || (exists part :: part in Split(path) && (part == "" || part == "." || part == ".." || ':' in part)))
  }

  lemma {:induction false} FirstIsMeta(s: string)
    ensures Split(s)[0] == META_DIR <==> s == ".synergos" || StartsWith(s, ".synergos/")
  {
    hide Split;
    if Split(s)[0] == META_DIR {
      var end := FirstSlash(s);
      SplitFirst(s, end);
      assert end < |s| ==> s[..end + 1] == s[..end] + "/";
    }
    if s == ".synergos" { SplitFirst(s, |s|); }
    if StartsWith(s, ".synergos/") { MetaPrefix(s); }
  }

  lemma {:induction false} MetaPrefix(s: string)
    requires StartsWith(s, ".synergos/")
    ensures Split(s)[0] == META_DIR
  {
    hide Split;
    var prefix := ".synergos/";
    assert forall i :: 0 <= i < 10 ==> s[i] == prefix[i];
    SplitFirst(s, 9);
    assert s[..9] == META_DIR;
  }

  function FirstSlash(s: string): (end: nat)
    ensures end <= |s| && (forall i :: 0 <= i < end ==> s[i] != '/') && (end < |s| ==> s[end] == '/')
  {
    if s == "" || s[0] == '/' then 0 else 1 + FirstSlash(s[1..])
  }

  lemma {:induction false} ColonInPart(s: string)
    ensures ':' in s <==> exists part :: part in Split(s) && ':' in part
  {
    if ':' in s {
      assert Contains(s, ':');
      InPart(s, ':');
    }
    if part :| part in Split(s) && ':' in part {
      assert Contains(part, ':');
      PartIn(s, part, ':');
    }
  }

  /** The IPC check accepts exactly the paths the manifest accepts that are not blank and fit 1024 bytes. */
  lemma {:induction false} IpcAgrees(path: string)
    ensures CheckRelPath(path) <==> Safe(path) && !Blank(path) && |Utf8(path)| <= 1024
  {
    hide Split, StartsWith, Control, Utf8, Blank;
    FirstIsMeta(path);
    BadPart(path);
    LeadingSlash(path);
    assert Safe(path) <==> PlainParts(Split(path)) && Split(path)[0] != META_DIR && '\\' !in path && ':' !in path
                           && !(exists i :: 0 <= i < |path| && Control(path[i]));
  }

  lemma {:induction false} BadPart(s: string)
    ensures (exists part :: part in Split(s) && (part == "" || part == "." || part == ".." || ':' in part))
            <==> !PlainParts(Split(s)) || ':' in s
  {
    hide Split;
    ColonInPart(s);
  }

  lemma {:induction false} LeadingSlash(s: string)
    ensures StartsWith(s, "/") ==> !PlainParts(Split(s))
  {
    if StartsWith(s, "/") {
      assert s[0] == '/';
      EmptyFirst(s);
    }
  }

  // ---- Where an accepted path leads ----

  /** Walking a directory tree component by component, as a file system does. */
  function Resolve(at: seq<string>, parts: seq<string>): seq<string>
    decreases |parts|
  {
    if parts == [] then at
    else
      var p := parts[0];
      var next := if p == "" || p == "." then at
                  else if p == ".." then (if at == [] then [] else at[..|at| - 1])
                  else at + [p];
      Resolve(next, parts[1..])
  }

  lemma {:induction false} ResolvePlain(at: seq<string>, parts: seq<string>)
    requires PlainParts(parts)
    ensures Resolve(at, parts) == at + parts
    decreases |parts|
  {
    if parts != [] {
      assert parts[0] in parts;
      assert forall part :: part in parts[1..] ==> part in parts;
      ResolvePlain(at + [parts[0]], parts[1..]);
      assert at + [parts[0]] + parts[1..] == at + parts;
    }
  }

  /** An accepted path leads strictly below the root and not into the metadata directory, and different
      accepted paths lead to different places. */
  lemma {:induction false} SafeStaysInside(root: seq<string>, s: string)
    requires Safe(s)
    ensures root < Resolve(root, Split(s)) && Resolve(root, Split(s))[|root|] != META_DIR
    ensures forall t :: Safe(t) && Resolve(root, Split(t)) == Resolve(root, Split(s)) ==> t == s
  {
    ResolvePlain(root, Split(s));
    assert (root + Split(s))[|root|] == Split(s)[0];
    JoinSplit(s);
    forall t | Safe(t) && Resolve(root, Split(t)) == Resolve(root, Split(s)) ensures t == s {
      ResolvePlain(root, Split(t));
      assert Split(t) == (root + Split(t))[|root|..];
      assert Split(s) == (root + Split(s))[|root|..];
      JoinSplit(t);
    }
  }
}
