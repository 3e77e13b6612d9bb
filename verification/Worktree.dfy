/** The working-tree scan: a walk that never enters ignored directories lists what listing everything and
    filtering would. */
module Worktree {
  import Glob
  import Json
  import Paths

  // ---- Trees ----

  type Path = seq<string>

  datatype Kind = File | Dir | Other

  type Tree = map<Path, Kind>

  predicate Name(n: string) { n != "" && n != "." && forall i :: 0 <= i < |n| ==> n[i] != '/' && n[i] != '\\' }

  function Parent(p: Path): Path
    requires |p| > 0
  {
    p[..|p| - 1]
  }

  /** Every entry but the root, each below a real directory. */
  predicate WellFormed(fs: Tree) {
    forall p :: p in fs ==>
      && |p| > 0 && (forall i :: 0 <= i < |p| ==> Name(p[i]))
      && (|p| > 1 ==> Parent(p) in fs && fs[Parent(p)] == Dir)
  }

  function Rel(p: Path): string
    requires |p| > 0
  {
    Paths.Join(p)
  }

  lemma {:induction false} JoinAppend(p: Path, q: Path)
    requires |p| > 0 && |q| > 0
    ensures Paths.Join(p + q) == Paths.Join(p) + "/" + Paths.Join(q)
    decreases |p|
  {
    assert (p + q)[0] == p[0];
    if |p| == 1 {
      assert (p + q)[1..] == q;
    } else {
      assert (p + q)[1..] == p[1..] + q;
      JoinAppend(p[1..], q);
    }
  }

  lemma {:induction false} SplitJoin(p: Path)
    requires |p| > 0 && forall i :: 0 <= i < |p| ==> Name(p[i])
    ensures Paths.Split(Paths.Join(p)) == p
    decreases |p|
  {
    var s := Paths.Join(p);
    Paths.SplitFirst(s, |p[0]|);
    if |p| == 1 {
      assert p == [p[0]];
    } else {
      SplitJoin(p[1..]);
      assert s[..|p[0]|] == p[0] && s[|p[0]| + 1..] == Paths.Join(p[1..]);
      assert p == [p[0]] + p[1..];
    }
  }

  // ---- Normalising a relative path ----

  function Slashes(s: string): (r: string)
    ensures |r| == |s| && forall i :: 0 <= i < |s| ==> r[i] == if s[i] == '\\' then '/' else s[i]
  {
    if s == "" then "" else [if s[0] == '\\' then '/' else s[0]] + Slashes(s[1..])
  }

  function TrimDots(s: string): string {
    if "./" <= s then TrimDots(s[2..]) else s
  }

  function TrimSlashes(s: string): string {
    if s != "" && s[0] == '/' then TrimSlashes(s[1..]) else s
  }

  function Normalize(s: string): string { TrimSlashes(TrimDots(Slashes(s))) }

  lemma {:induction false} JoinClean(p: Path)
    requires |p| > 0 && forall i :: 0 <= i < |p| ==> Name(p[i])
    ensures forall i :: 0 <= i < |Paths.Join(p)| ==> Paths.Join(p)[i] != '\\'
    decreases |p|
  {
    if |p| > 1 { JoinClean(p[1..]); }
  }

  lemma {:induction false} NormalizeRel(p: Path)
    requires |p| > 0 && forall i :: 0 <= i < |p| ==> Name(p[i])
    ensures Normalize(Rel(p)) == Rel(p)
  {
    var s := Rel(p);
    JoinClean(p);
    assert Slashes(s) == s;
    assert s[0] == p[0][0];
    assert |p[0]| > 1 ==> s[1] == p[0][1];
    assert |p[0]| == 1 ==> p[0] == [p[0][0]];
  }

  // ---- What is ignored ----

  const ALWAYS_IGNORED: seq<string> := [".synergos", ".git", ".synergosignore"]

  /** Where the path itself or one of its directories ends. */
  predicate End(rel: string, end: nat) { end == |rel| || (end < |rel| && rel[end] == '/') }

  ghost predicate Hit(rel: string, patterns: seq<string>, end: nat, i: nat) {
    End(rel, end) && i < |patterns| && Glob.Matches(Glob.Tokens(patterns[i]), rel[..end])
  }

  ghost predicate Ignored(rel: string, patterns: seq<string>) {
    || Paths.Split(rel)[0] in ALWAYS_IGNORED
    || exists end: nat, i: nat :: Hit(rel, patterns, end, i)
  }

  method IsIgnored(rel: string, patterns: seq<string>) returns (yes: bool)
    ensures yes == Ignored(rel, patterns)
  {
    hide Glob.Matches, Glob.Tokens, Paths.Split;
    var first := Paths.Split(rel)[0];
    if first in ALWAYS_IGNORED {
      return true;
    }
    for end := 0 to |rel| + 1
      invariant forall e: nat, i: nat :: e < end ==> !Hit(rel, patterns, e, i)
    {
      if end == |rel| || rel[end] == '/' {
        for j := 0 to |patterns|
          invariant forall i: nat :: i < j ==> !Hit(rel, patterns, end, i)
        {
          var matched := Glob.GlobMatch(patterns[j], rel[..end]);
          if matched {
            assert Hit(rel, patterns, end, j);
            return true;
          }
        }
      }
    }
    return false;
  }

  lemma {:induction false} SameFirst(rel: string, more: string)
    ensures Paths.Split(rel + "/" + more)[0] == Paths.Split(rel)[0]
  {
    var s, end := rel + "/" + more, Paths.FirstSlash(rel);
    Paths.SplitFirst(rel, end);
    Paths.SplitFirst(s, end);
    assert s[..end] == rel[..end];
  }

  /** Everything below an ignored path is ignored. */
  lemma {:induction false} IgnoredInherited(rel: string, patterns: seq<string>, more: string)
    requires Ignored(rel, patterns)
    ensures Ignored(rel + "/" + more, patterns)
  {
    hide Glob.Matches, Glob.Tokens, Paths.Split;
    SameFirst(rel, more);
    var s := rel + "/" + more;
    if Paths.Split(rel)[0] !in ALWAYS_IGNORED {
      var end: nat, i: nat :| Hit(rel, patterns, end, i);
      assert s[..end] == rel[..end];
      assert Hit(s, patterns, end, i);
    }
  }

  ghost predicate Live(fs: Tree, patterns: seq<string>, p: Path)
    requires WellFormed(fs)
  {
    p in fs && !Ignored(Rel(p), patterns)
  }

  ghost predicate LiveDir(fs: Tree, patterns: seq<string>, p: Path)
    requires WellFormed(fs)
  {
    p == [] || (Live(fs, patterns, p) && fs[p] == Dir)
  }

  ghost predicate LiveFile(fs: Tree, patterns: seq<string>, p: Path)
    requires WellFormed(fs)
  {
    Live(fs, patterns, p) && fs[p] == File
  }

  lemma {:induction false} ParentLive(fs: Tree, patterns: seq<string>, p: Path)
    requires WellFormed(fs) && Live(fs, patterns, p)
    ensures LiveDir(fs, patterns, Parent(p))
  {
    hide Ignored;
    if |p| > 1 {
      var d := Parent(p);
      assert p == d + [p[|p| - 1]];
      JoinAppend(d, [p[|p| - 1]]);
      if Ignored(Rel(d), patterns) { IgnoredInherited(Rel(d), patterns, p[|p| - 1]); }
    }
  }

  // ---- One directory ----

  predicate NoDup<T(==)>(s: seq<T>) { forall i, j :: 0 <= i < j < |s| ==> s[i] != s[j] }

  predicate ChildOf(p: Path, dir: Path) { |p| > 0 && Parent(p) == dir }

  function Names(fs: Tree, dir: Path): set<string> { set p | p in fs && ChildOf(p, dir) :: p[|p| - 1] }

  /** The live children of one kind, except those whose names are still to come. */
  ghost predicate Listed(fs: Tree, patterns: seq<string>, dir: Path, rest: set<string>, kind: Kind, list: seq<Path>)
    requires WellFormed(fs)
  {
    && NoDup(list)
    && forall p :: p in list <==> Live(fs, patterns, p) && fs[p] == kind && ChildOf(p, dir) && p[|p| - 1] !in rest
  }

  lemma {:induction false} ListedStep(fs: Tree, patterns: seq<string>, dir: Path, rest: set<string>, kind: Kind,
                                      list: seq<Path>, name: string, add: bool)
    requires WellFormed(fs) && Listed(fs, patterns, dir, rest, kind, list) && name in rest && rest <= Names(fs, dir)
    requires dir + [name] in fs && add == (Live(fs, patterns, dir + [name]) && fs[dir + [name]] == kind)
    ensures Listed(fs, patterns, dir, rest - {name}, kind, if add then list + [dir + [name]] else list)
  {
    hide Live, Names, WellFormed, NoDup, Listed;
    if add {
      ListedAdd(fs, patterns, dir, rest, kind, list, name);
    } else {
      ListedSkip(fs, patterns, dir, rest, kind, list, name);
    }
  }

  lemma {:induction false} ListedSkip(fs: Tree, patterns: seq<string>, dir: Path, rest: set<string>, kind: Kind,
                                      list: seq<Path>, name: string)
    requires WellFormed(fs) && Listed(fs, patterns, dir, rest, kind, list) && name in rest && name in Names(fs, dir)
    requires dir + [name] in fs && !(Live(fs, patterns, dir + [name]) && fs[dir + [name]] == kind)
    ensures Listed(fs, patterns, dir, rest - {name}, kind, list)
  {
    hide Live, Names, WellFormed, NoDup;
    OnlyChild(fs, dir, name);
  }

  lemma {:induction false} ListedAdd(fs: Tree, patterns: seq<string>, dir: Path, rest: set<string>, kind: Kind,
                                     list: seq<Path>, name: string)
    requires WellFormed(fs) && Listed(fs, patterns, dir, rest, kind, list) && name in rest && name in Names(fs, dir)
    requires Live(fs, patterns, dir + [name]) && fs[dir + [name]] == kind
    ensures Listed(fs, patterns, dir, rest - {name}, kind, list + [dir + [name]])
  {
    hide Live, Names, WellFormed, NoDup;
    var path := dir + [name];
    OnlyChild(fs, dir, name);
    assert path !in list;
    NoDupOne(path);
    NoDupAppend(list, [path]);
    var longer := list + [path];
    forall p ensures p in longer <==> p in list || p == path { }
  }

  lemma {:induction false} NoDupOne<T>(x: T)
    ensures NoDup([x])
  {
  }

  /** The entries of a directory, in whatever order they come. */
  method ReadDirectory(fs: Tree, patterns: seq<string>, dir: Path) returns (found: seq<Path>, dirs: seq<Path>)
    requires WellFormed(fs)
    ensures Listed(fs, patterns, dir, {}, File, found) && Listed(fs, patterns, dir, {}, Dir, dirs)
  {
    hide Listed, Ignored, Names, Paths.Join;
    found, dirs := [], [];
    var entries := Names(fs, dir);
    ListedNone(fs, patterns, dir, File);
    ListedNone(fs, patterns, dir, Dir);
    while entries != {}
      invariant entries <= Names(fs, dir)
      invariant Listed(fs, patterns, dir, entries, File, found) && Listed(fs, patterns, dir, entries, Dir, dirs)
      decreases |entries|
    {
      var name :| name in entries;
      ghost var rest := entries;
      entries := entries - {name};
      var path := dir + [name];
      OnlyChild(fs, dir, name);
      NormalizeRel(path);
      var ignored := IsIgnored(Normalize(Rel(path)), patterns);
      ListedStep(fs, patterns, dir, rest, File, found, name, !ignored && fs[path] == File);
      ListedStep(fs, patterns, dir, rest, Dir, dirs, name, !ignored && fs[path] == Dir);
      if ignored {
        continue;
      }
      if fs[path] == Dir {
        dirs := dirs + [path];
      } else if fs[path] == File {
        found := found + [path];
      }
    }
  }

  lemma {:induction false} ListedNone(fs: Tree, patterns: seq<string>, dir: Path, kind: Kind)
    requires WellFormed(fs)
    ensures Listed(fs, patterns, dir, Names(fs, dir), kind, [])
  {
    hide Ignored;
    forall p | p in fs && ChildOf(p, dir) ensures p[|p| - 1] in Names(fs, dir) { }
  }

  lemma {:induction false} OnlyChild(fs: Tree, dir: Path, name: string)
    requires name in Names(fs, dir)
    ensures dir + [name] in fs && ChildOf(dir + [name], dir)
    ensures forall p :: ChildOf(p, dir) && p[|p| - 1] == name ==> p == dir + [name]
  {
    var q :| q in fs && ChildOf(q, dir) && q[|q| - 1] == name;
    assert q == dir + [name];
    forall p | ChildOf(p, dir) && p[|p| - 1] == name ensures p == dir + [name] {
      assert p == Parent(p) + [name];
    }
  }

  // ---- The order of the listing ----

  /** Not above in the order of the bytes. */
  predicate Upto(a: string, b: string) { !Json.Below(Json.Codes(Paths.Utf8(b)), Json.Codes(Paths.Utf8(a))) }

  predicate Sorted(s: seq<string>) { forall i, j :: 0 <= i < j < |s| ==> Upto(s[i], s[j]) }

  lemma {:induction false} UptoTransitive(a: string, b: string, c: string)
    requires Upto(a, b) && Upto(b, c)
    ensures Upto(a, c)
  {
    var (x, y, z) := (Json.Codes(Paths.Utf8(a)), Json.Codes(Paths.Utf8(b)), Json.Codes(Paths.Utf8(c)));
    Json.BelowTotal(x, y);
    Json.BelowTotal(y, z);
    Json.BelowTotal(x, z);
    if Json.Below(x, y) && Json.Below(y, z) { Json.BelowTransitive(x, y, z); }
  }

  lemma {:induction false} UptoTotal(a: string, b: string)
    ensures Upto(a, b) || Upto(b, a)
  {
    Json.BelowTotal(Json.Codes(Paths.Utf8(a)), Json.Codes(Paths.Utf8(b)));
  }

  function Insert(x: string, s: seq<string>): (r: seq<string>)
    ensures multiset(r) == multiset([x] + s)
  {
    if s == [] || Upto(x, s[0]) then [x] + s
    else
      assert s == [s[0]] + s[1..];
      [s[0]] + Insert(x, s[1..])
  }

  function Sort(s: seq<string>): (r: seq<string>)
    ensures multiset(r) == multiset(s)
  {
    if s == [] then []
    else
      assert s == [s[0]] + s[1..];
      Insert(s[0], Sort(s[1..]))
  }

  lemma {:induction false} InMultiset(a: seq<string>, b: seq<string>, x: string)
    requires multiset(a) == multiset(b)
    ensures x in a <==> x in b
  {
    assert x in multiset(a) <==> x in multiset(b);
  }

  lemma {:induction false} InsertSorted(x: string, s: seq<string>)
    requires Sorted(s)
    ensures Sorted(Insert(x, s))
  {
    hide Upto;
    if s != [] && !Upto(x, s[0]) {
      var rest := Insert(x, s[1..]);
      InsertSorted(x, s[1..]);
      UptoTotal(x, s[0]);
      forall j | 0 <= j < |rest| ensures Upto(s[0], rest[j]) {
        InMultiset(rest, [x] + s[1..], rest[j]);
      }
      SortedCons(s[0], rest);
    } else if s != [] {
      forall j | 0 <= j < |s| ensures Upto(x, s[j]) {
        if j > 0 { UptoTransitive(x, s[0], s[j]); }
      }
      SortedCons(x, s);
    }
  }

  lemma {:induction false} SortedCons(x: string, s: seq<string>)
    requires Sorted(s) && forall j :: 0 <= j < |s| ==> Upto(x, s[j])
    ensures Sorted([x] + s)
  {
    hide Upto;
    forall i, j | 0 <= i < j < |s| + 1 ensures Upto(([x] + s)[i], ([x] + s)[j]) {
      assert ([x] + s)[j] == s[j - 1] && (i > 0 ==> ([x] + s)[i] == s[i - 1]);
    }
  }

  lemma {:induction false} SortSorted(s: seq<string>)
    ensures Sorted(Sort(s))
  {
    if s != [] {
      SortSorted(s[1..]);
      InsertSorted(s[0], Sort(s[1..]));
    }
  }

  lemma {:induction false} CountOne(s: seq<string>)
    ensures NoDup(s) <==> forall x :: multiset(s)[x] <= 1
  {
    if s != [] {
      var t := s[1..];
      assert s == [s[0]] + t;
      CountOne(t);
      NoDupCons(s[0], t);
      assert forall x :: multiset(s)[x] == multiset(t)[x] + if x == s[0] then 1 else 0;
      assert s[0] in t <==> multiset(t)[s[0]] > 0;
    }
  }

  lemma {:induction false} NoDupCons(x: string, t: seq<string>)
    ensures NoDup([x] + t) <==> x !in t && NoDup(t)
  {
    var s := [x] + t;
    assert forall i :: 0 <= i < |t| ==> t[i] == s[i + 1];
    if NoDup(s) {
      forall i | 0 <= i < |t| ensures t[i] != x { assert s[i + 1] != s[0]; }
    }
    if x !in t && NoDup(t) {
      forall i, j | 0 <= i < j < |s| ensures s[i] != s[j] {
        assert s[j] == t[j - 1] && t[j - 1] in t;
      }
    }
  }

  lemma {:induction false} SortNoDup(s: seq<string>)
    requires NoDup(s)
    ensures NoDup(Sort(s))
  {
    CountOne(s);
    CountOne(Sort(s));
  }

  // ---- The walk ----

  function Rels(ps: seq<Path>): (r: seq<string>)
    requires forall i :: 0 <= i < |ps| ==> |ps[i]| > 0
    ensures |r| == |ps| && forall i :: 0 <= i < |ps| ==> r[i] == Rel(ps[i])
  {
    if ps == [] then [] else [Rel(ps[0])] + Rels(ps[1..])
  }

  ghost function Members(s: seq<Path>): set<Path> { set d | d in s }

  /** What the walk has done so far: `done` are the directories it has read, `front` the ones it will read. */
  ghost predicate Frontier(fs: Tree, patterns: seq<string>, front: set<Path>, done: set<Path>)
    requires WellFormed(fs)
  {
    && front !! done && [] in done + front
    && (forall d :: d in done + front ==> LiveDir(fs, patterns, d))
    && (forall d :: d != [] && LiveDir(fs, patterns, d) ==> (Parent(d) in done <==> d in done + front))
  }

  ghost predicate DirsProgress(fs: Tree, patterns: seq<string>, pending: seq<Path>, done: set<Path>)
    requires WellFormed(fs)
  {
    NoDup(pending) && Frontier(fs, patterns, Members(pending), done)
  }

  ghost predicate FilesProgress(fs: Tree, patterns: seq<string>, found: seq<Path>, done: set<Path>)
    requires WellFormed(fs)
  {
    NoDup(found) && forall p :: p in found <==> LiveFile(fs, patterns, p) && Parent(p) in done
  }

  lemma {:induction false} Begin(fs: Tree, patterns: seq<string>)
    requires WellFormed(fs)
    ensures DirsProgress(fs, patterns, [[]], {}) && FilesProgress(fs, patterns, [], {})
  {
    hide Live;
  }

  lemma {:induction false} NoDupAppend<T>(a: seq<T>, b: seq<T>)
    requires NoDup(a) && NoDup(b) && forall x :: x in a ==> x !in b
    ensures NoDup(a + b)
  {
    forall i, j | 0 <= i < j < |a + b| ensures (a + b)[i] != (a + b)[j] {
      if i < |a| <= j { assert (a + b)[i] in a && (a + b)[j] in b; }
    }
  }

  lemma {:induction false} AdvanceFrontier(fs: Tree, patterns: seq<string>, front: set<Path>, dir: Path, done: set<Path>,
                                           kids: set<Path>)
    requires WellFormed(fs) && Frontier(fs, patterns, front, done) && dir in front
    requires forall p :: p in kids <==> p != [] && LiveDir(fs, patterns, p) && Parent(p) == dir
    ensures Frontier(fs, patterns, front - {dir} + kids, done + {dir})
    ensures kids !! front
  {
    hide LiveDir, WellFormed;
    forall d | d in kids ensures d !in done && d !in front { }
    assert dir !in kids;
  }

  lemma {:induction false} AdvanceDirs(fs: Tree, patterns: seq<string>, pending: seq<Path>, dir: Path, done: set<Path>,
                                       dirs: seq<Path>)
    requires WellFormed(fs) && DirsProgress(fs, patterns, pending + [dir], done)
    requires Listed(fs, patterns, dir, {}, Dir, dirs)
    ensures DirsProgress(fs, patterns, pending + dirs, done + {dir})
  {
    hide Live, WellFormed, NoDup, Frontier;
    NoDupFront(pending, dir);
    var front, kids := Members(pending + [dir]), Members(dirs);
    assert dir in front && front - {dir} == Members(pending);
    KidsOf(fs, patterns, dir, dirs);
    AdvanceFrontier(fs, patterns, front, dir, done, kids);
    assert Members(pending + dirs) == front - {dir} + kids;
    NoDupListed(fs, patterns, dir, dirs);
    NoDupAppend(pending, dirs);
  }

  lemma {:induction false} KidsOf(fs: Tree, patterns: seq<string>, dir: Path, dirs: seq<Path>)
    requires WellFormed(fs) && Listed(fs, patterns, dir, {}, Dir, dirs)
    ensures forall p :: p in Members(dirs) <==> p != [] && LiveDir(fs, patterns, p) && Parent(p) == dir
  {
    hide Ignored, NoDup;
  }

  lemma {:induction false} NoDupListed(fs: Tree, patterns: seq<string>, dir: Path, dirs: seq<Path>)
    requires WellFormed(fs) && Listed(fs, patterns, dir, {}, Dir, dirs)
    ensures NoDup(dirs)
  {
  }

  lemma {:induction false} NoDupFront<T>(s: seq<T>, x: T)
    requires NoDup(s + [x])
    ensures NoDup(s) && x !in s
  {
    var t := s + [x];
    assert forall i :: 0 <= i < |s| ==> t[i] == s[i];
    forall i | 0 <= i < |s| ensures s[i] != x { assert t[i] != t[|s|]; }
  }

  lemma {:induction false} AdvanceFiles(fs: Tree, patterns: seq<string>, dir: Path, found: seq<Path>, done: set<Path>,
                                        newFound: seq<Path>)
    requires WellFormed(fs) && FilesProgress(fs, patterns, found, done) && dir !in done
    requires Listed(fs, patterns, dir, {}, File, newFound)
    ensures FilesProgress(fs, patterns, found + newFound, done + {dir})
  {
    hide Ignored;
    var now := found + newFound;
    forall p ensures p in now <==> p in found || p in newFound { }
    assert forall p :: LiveFile(fs, patterns, p) ==> (ChildOf(p, dir) <==> Parent(p) == dir);
    NoDupAppend(found, newFound);
  }

  lemma {:induction false} AllRead(fs: Tree, patterns: seq<string>, done: set<Path>, d: Path)
    requires WellFormed(fs) && DirsProgress(fs, patterns, [], done) && LiveDir(fs, patterns, d)
    ensures d in done
    decreases |d|
  {
    if d != [] {
      ParentLive(fs, patterns, d);
      AllRead(fs, patterns, done, Parent(d));
    }
  }

  /** The regular files that are not ignored, wherever they are. */
  ghost function Wanted(fs: Tree, patterns: seq<string>): set<string>
    requires WellFormed(fs)
  {
    set p | p in fs && LiveFile(fs, patterns, p) :: Rel(p)
  }

  ghost function Directories(fs: Tree): set<Path> { {[]} + set p | p in fs && fs[p] == Dir }

  /** The walk ends and lists, in order and without repetition, exactly the files wanted. */
  method ScanWorktree(fs: Tree, patterns: seq<string>) returns (files: seq<string>)
    requires WellFormed(fs)
    ensures Sorted(files) && NoDup(files) && (set f | f in files) == Wanted(fs, patterns)
  {
    hide Ignored, DirsProgress, FilesProgress, Live, Listed, Rels, NoDup, Sort, Sorted, Wanted, Directories, WellFormed;
    files := [];
    var pending: seq<Path> := [[]];
    ghost var found: seq<Path>, done: set<Path> := [], {};
    Begin(fs, patterns);
    RelsNone();
    while pending != []
      invariant DirsProgress(fs, patterns, pending, done) && FilesProgress(fs, patterns, found, done)
      invariant forall i :: 0 <= i < |found| ==> |found[i]| > 0
      invariant files == Rels(found)
      decreases |Directories(fs) - done|
    {
      var dir := pending[|pending| - 1];
      ghost var before := pending;
      pending := pending[..|pending| - 1];
      assert before == pending + [dir];
      var newFound, dirs := ReadDirectory(fs, patterns, dir);
      NewlyRead(fs, patterns, before, dir, done);
      AdvanceDirs(fs, patterns, pending, dir, done, dirs);
      AdvanceFiles(fs, patterns, dir, found, done, newFound);
      ListedDeep(fs, patterns, dir, File, newFound);
      RelsAppend(found, newFound);
      files := files + Rels(newFound);
      pending := pending + dirs;
      found, done := found + newFound, done + {dir};
    }
    FoundWanted(fs, patterns, found, done);
    SortedSame(files);
    files := Sort(files);
  }

  lemma {:induction false} SortedSame(files: seq<string>)
    requires NoDup(files)
    ensures Sorted(Sort(files)) && NoDup(Sort(files)) && (set f | f in Sort(files)) == (set f | f in files)
  {
    hide NoDup, Sorted, Sort;
    SortSorted(files);
    SortNoDup(files);
    forall f ensures f in files <==> f in Sort(files) { InMultiset(files, Sort(files), f); }
  }

  lemma {:induction false} RelsNone()
    ensures Rels([]) == []
  {
  }

  lemma {:induction false} RelsAppend(a: seq<Path>, b: seq<Path>)
    requires forall i :: 0 <= i < |a| ==> |a[i]| > 0
    requires forall i :: 0 <= i < |b| ==> |b[i]| > 0
    ensures Rels(a + b) == Rels(a) + Rels(b)
  {
  }

  lemma {:induction false} ListedDeep(fs: Tree, patterns: seq<string>, dir: Path, kind: Kind, list: seq<Path>)
    requires WellFormed(fs) && Listed(fs, patterns, dir, {}, kind, list)
    ensures forall i :: 0 <= i < |list| ==> |list[i]| > 0
  {
    hide Live;
    forall i | 0 <= i < |list| ensures |list[i]| > 0 { assert list[i] in list; }
  }

  lemma {:induction false} NewlyRead(fs: Tree, patterns: seq<string>, pending: seq<Path>, dir: Path, done: set<Path>)
    requires WellFormed(fs) && DirsProgress(fs, patterns, pending, done) && dir in pending
    ensures dir !in done && |Directories(fs) - (done + {dir})| < |Directories(fs) - done|
  {
    hide Ignored;
    assert dir in Directories(fs) - done;
    assert Directories(fs) - (done + {dir}) == (Directories(fs) - done) - {dir};
  }

  lemma {:induction false} FoundWanted(fs: Tree, patterns: seq<string>, found: seq<Path>, done: set<Path>)
    requires WellFormed(fs) && DirsProgress(fs, patterns, [], done) && FilesProgress(fs, patterns, found, done)
    requires forall i :: 0 <= i < |found| ==> |found[i]| > 0
    ensures NoDup(Rels(found)) && (set f | f in Rels(found)) == Wanted(fs, patterns)
  {
    hide Rels, NoDup, FilesProgress, DirsProgress, Live, Wanted, Paths.Split, Paths.Join;
    AllFound(fs, patterns, found, done);
    RelsDistinct(fs, patterns, found, done);
    RelsWanted(fs, patterns, found);
  }

  lemma {:induction false} AllFound(fs: Tree, patterns: seq<string>, found: seq<Path>, done: set<Path>)
    requires WellFormed(fs) && DirsProgress(fs, patterns, [], done) && FilesProgress(fs, patterns, found, done)
    ensures forall p :: p in found <==> LiveFile(fs, patterns, p)
  {
    hide Ignored, DirsProgress;
    forall p | LiveFile(fs, patterns, p) ensures p in found {
      ParentLive(fs, patterns, p);
      AllRead(fs, patterns, done, Parent(p));
    }
  }

  lemma {:induction false} RelsDistinct(fs: Tree, patterns: seq<string>, found: seq<Path>, done: set<Path>)
    requires WellFormed(fs) && FilesProgress(fs, patterns, found, done)
    requires forall i :: 0 <= i < |found| ==> |found[i]| > 0
    ensures NoDup(Rels(found))
  {
    hide Ignored, Rels, Paths.Split, Paths.Join;
    forall i | 0 <= i < |found| ensures Paths.Split(Rel(found[i])) == found[i] {
      assert found[i] in found;
      SplitJoin(found[i]);
    }
    forall i, j | 0 <= i < j < |found| ensures Rels(found)[i] != Rels(found)[j] {
      assert found[i] != found[j];
    }
  }

  lemma {:induction false} RelsWanted(fs: Tree, patterns: seq<string>, found: seq<Path>)
    requires WellFormed(fs) && forall p :: p in found <==> LiveFile(fs, patterns, p)
    requires forall i :: 0 <= i < |found| ==> |found[i]| > 0
    ensures (set f | f in Rels(found)) == Wanted(fs, patterns)
  {
    hide Ignored, Rels, Paths.Join, WellFormed;
    var rels := Rels(found);
    forall f | f in rels ensures f in Wanted(fs, patterns) {
      var i :| 0 <= i < |rels| && rels[i] == f;
      assert found[i] in found;
    }
    forall f | f in Wanted(fs, patterns) ensures f in rels {
      var p :| p in fs && LiveFile(fs, patterns, p) && Rel(p) == f;
      var i :| 0 <= i < |found| && found[i] == p;
      assert rels[i] == f;
    }
  }
}
