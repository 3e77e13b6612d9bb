/** Requests that run alone: each arrives at an idle store, does its work with no other request in between, and
    leaves the store idle again. */
module CustodySessions {
  import opened Base
  import opened CustodyStore
  import opened CustodyInvariant
  import opened CustodyLaws

  // ---- Building runs ----

  lemma {:induction false} Then(env: Env, s: Store, xs: seq<Step>, m: Store, ys: seq<Step>, t: Store)
    requires Leads(env, s, xs, m) && Leads(env, m, ys, t)
    ensures Leads(env, s, xs + ys, t)
    decreases |xs|
  {
    hide Next;
    if xs == [] {
      assert xs + ys == ys;
    } else {
      var n :| Next(env, s, n, xs[0]) && Leads(env, n, xs[1..], m);
      Then(env, n, xs[1..], m, ys, t);
      assert (xs + ys)[0] == xs[0] && (xs + ys)[1..] == xs[1..] + ys;
    }
  }

  lemma {:induction false} One(env: Env, s: Store, step: Step, t: Store)
    requires Next(env, s, t, step)
    ensures Leads(env, s, [step], t)
  {
    hide Next;
    assert Leads(env, t, [step][1..], t);
    assert [step][0] == step;
  }

  lemma {:induction false} More(env: Env, s: Store, xs: seq<Step>, m: Store, step: Step, t: Store)
    requires Leads(env, s, xs, m) && Next(env, m, t, step)
    ensures Leads(env, s, xs + [step], t)
  {
    hide Next, Leads;
    One(env, m, step, t);
    Then(env, s, xs, m, [step], t);
  }

  // ---- A restart ----

  predicate Idle(s: Store) {
    s.up && s.tasks == map[] && s.jobs == map[] && s.held == map[] && s.parts == map[]
  }

  lemma {:induction false} ReapAll(env: Env, s: Store) returns (steps: seq<Step>)
    requires !s.up
    ensures Leads(env, s, steps, s.(parts := map[]))
    decreases |s.parts|
  {
    if s.parts == map[] {
      return [];
    }
    var p :| p in s.parts;
    var t := s.(parts := s.parts - {p});
    assert t.parts.Keys == s.parts.Keys - {p};
    assert |t.parts| == |t.parts.Keys| && |s.parts| == |s.parts.Keys|;
    var rest := ReapAll(env, t);
    One(env, s, Reap(p), t);
    assert t.(parts := map[]) == s.(parts := map[]);
    Then(env, s, [Reap(p)], t, rest, s.(parts := map[]));
    return [Reap(p)] + rest;
  }

  lemma {:induction false} Restart(env: Env, s: Store) returns (steps: seq<Step>, t: Store)
    ensures Leads(env, s, steps, t) && Idle(t) && SameFiles(s, t) && t.replies == s.replies
  {
    var down := s.(jobs := map[], removals := {}, held := map[], tasks := map[], up := false);
    One(env, s, Crash, down);
    var reaps := ReapAll(env, down);
    var bare := down.(parts := map[]);
    Then(env, s, [Crash], down, reaps, bare);
    t := bare.(up := true);
    One(env, bare, Start, t);
    Then(env, s, [Crash] + reaps, bare, [Start], t);
    steps := [Crash] + reaps + [Start];
  }

  // ---- One request ----

  function Held(locks: set<string>): map<string, nat> { map k | k in locks :: 0 }

  /** State `s` with one request alone at `pc`, holding these locks. */
  function Alone(s: Store, locks: set<string>, pc: Pc): Store {
    s.(held := Held(locks), tasks := map[0 := Task(locks, pc)])
  }

  lemma {:induction false} AloneMove(s: Store, locks: set<string>, pc: Pc, pc': Pc)
    ensures Move(Alone(s, locks, pc), 0, pc') == Alone(s, locks, pc')
  {
  }

  /** The request's next file operation only moves it on. */
  lemma {:induction false} Moves(env: Env, s: Store, locks: set<string>, pc: Pc, pc': Pc)
    requires Advanced(env, Alone(s, locks, pc), 0) == Move(Alone(s, locks, pc), 0, pc')
    ensures Next(env, Alone(s, locks, pc), Alone(s, locks, pc'), Advance(0))
  {
    hide Advanced;
    AloneMove(s, locks, pc, pc');
  }

  lemma {:induction false} Arrives(env: Env, s: Store, pc: Pc)
    requires Idle(s) && Initial(pc)
    ensures Next(env, s, Alone(s, {}, pc), Arrive(0, pc))
  {
    hide Advanced, Linked, Notified, Wanted, Granted;
    assert Held({}) == map[];
  }

  lemma {:induction false} Acquires(env: Env, s: Store, locks: set<string>, pc: Pc)
    requires Wanted(env, pc).Some? && Wanted(env, pc).value !in locks
    ensures Next(env, Alone(s, locks, pc), Alone(s, locks + {Wanted(env, pc).value}, Granted(pc)), Acquire(0))
  {
    hide Advanced, Linked, Notified, Wanted, Granted;
    var k := Wanted(env, pc).value;
    GrownMap(locks, k);
    var t := Task(locks, pc);
    assert map[0 := t][0 := Task(locks + {k}, Granted(pc))] == map[0 := Task(locks + {k}, Granted(pc))];
  }

  lemma {:induction false} GrownMap(locks: set<string>, k: string)
    ensures Held(locks)[k := 0] == Held(locks + {k})
  {
  }

  lemma {:induction false} Releases(env: Env, s: Store, locks: set<string>, k: string)
    requires k in locks
    ensures Next(env, Alone(s, locks, Unwinding(None)), Alone(s, locks - {k}, Unwinding(None)), Release(0, k))
  {
    hide Advanced, Linked, Notified, Wanted, Granted;
    ShrunkMap(locks, k);
    var t := Task(locks, Unwinding(None));
    assert map[0 := t][0 := Task(locks - {k}, Unwinding(None))] == map[0 := Task(locks - {k}, Unwinding(None))];
  }

  lemma {:induction false} ShrunkMap(locks: set<string>, k: string)
    ensures Held(locks) - {k} == Held(locks - {k})
  {
  }

  lemma {:induction false} Ends(env: Env, s: Store)
    requires Idle(s)
    ensures Next(env, Alone(s, {}, Unwinding(None)), s, Advance(0))
  {
    hide Move, Publish, Tell, OperationKey, Key, Matches, Linked, Notified;
    var t := map[0 := Task({}, Unwinding(None))];
    assert t - {0} == map[];
    assert Held({}) == map[];
  }

  /** Done, the request gives its locks back and is gone. */
  lemma {:induction false} Leave(env: Env, s: Store, locks: set<string>) returns (steps: seq<Step>)
    requires Idle(s)
    ensures Leads(env, Alone(s, locks, Unwinding(None)), steps, s)
    decreases |locks|
  {
    hide Next, Leads, Alone;
    if locks == {} {
      Ends(env, s);
      One(env, Alone(s, {}, Unwinding(None)), Advance(0), s);
      return [Advance(0)];
    }
    var k :| k in locks;
    Releases(env, s, locks, k);
    One(env, Alone(s, locks, Unwinding(None)), Release(0, k), Alone(s, locks - {k}, Unwinding(None)));
    var rest := Leave(env, s, locks - {k});
    Then(env, Alone(s, locks, Unwinding(None)), [Release(0, k)], Alone(s, locks - {k}, Unwinding(None)), rest, s);
    return [Release(0, k)] + rest;
  }

  /** The first steps of a request that wants one lock. */
  lemma {:induction false} Enter(env: Env, s: Store, k: string, pc: Pc) returns (steps: seq<Step>)
    requires Idle(s) && Initial(pc) && Wanted(env, pc) == Some(k)
    ensures Leads(env, s, steps, Alone(s, {k}, Granted(pc)))
  {
    hide Next, Leads, Wanted, Granted, Alone;
    Arrives(env, s, pc);
    Acquires(env, s, {}, pc);
    assert {} + {k} == {k};
    One(env, s, Arrive(0, pc), Alone(s, {}, pc));
    More(env, s, [Arrive(0, pc)], Alone(s, {}, pc), Acquire(0), Alone(s, {k}, Granted(pc)));
    steps := [Arrive(0, pc)] + [Acquire(0)];
  }

  /** From where the request has its answer. */
  lemma {:induction false} Answers(env: Env, s: Store, locks: set<string>, pc: Pc, r: Reply) returns (steps: seq<Step>)
    requires Idle(s) && Advanced(env, Alone(s, locks, pc), 0) == Tell(Alone(s, locks, pc), 0, r)
    ensures Leads(env, Alone(s, locks, pc), steps, s.(replies := s.replies + [r]))
  {
    hide Advanced, Leads;
    var t := s.(replies := s.replies + [r]);
    Told(s, locks, pc, r);
    One(env, Alone(s, locks, pc), Advance(0), Alone(t, locks, Unwinding(None)));
    var rest := Leave(env, t, locks);
    Then(env, Alone(s, locks, pc), [Advance(0)], Alone(t, locks, Unwinding(None)), rest, t);
    steps := [Advance(0)] + rest;
  }

  lemma {:induction false} Told(s: Store, locks: set<string>, pc: Pc, r: Reply)
    ensures Tell(Alone(s, locks, pc), 0, r) == Alone(s.(replies := s.replies + [r]), locks, Unwinding(None))
  {
  }

  // ---- A publication ----

  /** The request has written its partial file and a worker is to link it. */
  function Pending(s: Store, locks: set<string>, content: Content, target: Target, after: After): Store {
    Alone(s, locks, Publishing(s.nextPart, target, after))
      .(parts := map[s.nextPart := content], jobs := map[s.nextPart := target], nextPart := s.nextPart + 1)
  }

  lemma {:induction false} PublishPends(s: Store, locks: set<string>, pc: Pc, content: Content, target: Target, after: After)
    requires s.parts == map[] && s.jobs == map[]
    ensures Publish(Alone(s, locks, pc), 0, content, target, after) == Pending(s, locks, content, target, after)
  {
    AloneMove(s, locks, pc, Publishing(s.nextPart, target, after));
  }

  /** What a state becomes when a publication is carried through. */
  function Published(env: Env, s: Store, content: Content, target: Target, after: After): Store {
    Linked(s, target, content).(nextPart := s.nextPart + 1, replies := s.replies + Answer(env, after))
  }

  lemma {:induction false} PublishThrough(env: Env, s: Store, locks: set<string>, content: Content, target: Target, after: After)
    returns (steps: seq<Step>)
    requires s.parts == map[] && s.jobs == map[] && Absent(s, target)
    ensures Leads(env, Pending(s, locks, content, target, after), steps,
                  Alone(Published(env, s, content, target, after), locks, Resume(after)))
  {
    hide Leads, Next, Alone, Linked, Absent;
    var n := s.nextPart;
    var s1 := Pending(s, locks, content, target, after);
    var l := Linked(s, target, content).(nextPart := n + 1, parts := map[n := content]);
    var s2 := Alone(l, locks, Dropping(n, after));
    var s3 := Alone(Published(env, s, content, target, after), locks, Resume(after));
    LinkThrough(env, s, locks, content, target, after);
    DropThrough(env, s, l, locks, content, target, after);
    One(env, s1, Link(n, true), s2);
    More(env, s1, [Link(n, true)], s2, Advance(0), s3);
    steps := [Link(n, true)] + [Advance(0)];
  }

  lemma {:induction false} LinkThrough(env: Env, s: Store, locks: set<string>, content: Content, target: Target, after: After)
    requires s.parts == map[] && s.jobs == map[] && Absent(s, target)
    ensures var l := Linked(s, target, content).(nextPart := s.nextPart + 1, parts := map[s.nextPart := content]);
            Next(env, Pending(s, locks, content, target, after), Alone(l, locks, Dropping(s.nextPart, after)),
                 Link(s.nextPart, true))
  {
    hide Advanced, Linked, Wanted, Granted;
    var n := s.nextPart;
    var s1 := Pending(s, locks, content, target, after);
    var l := Linked(s, target, content).(nextPart := n + 1, parts := map[n := content]);
    var s2 := Alone(l, locks, Dropping(n, after));
    assert Notified(s1, n, true, s2.tasks);
    assert s1.jobs - {n} == map[];
    LinkedRest(s, target, content);
    LinkedCommutes(s, s1.parts, s1.jobs, s1.held, s1.tasks, s1.nextPart, target, content);
    assert s1 == s.(parts := s1.parts, jobs := s1.jobs, held := s1.held, tasks := s1.tasks, nextPart := s1.nextPart);
    assert s2 == Linked(s1, s1.jobs[n], s1.parts[n]).(jobs := s1.jobs - {n}, tasks := s2.tasks);
  }

  /** A link looks at published files only. */
  lemma {:induction false} LinkedCommutes(s: Store, parts: map<nat, Content>, jobs: map<nat, Target>, held: map<string, nat>,
                                         tasks: map<nat, Task>, next: nat, t: Target, content: Content)
    ensures Linked(s.(parts := parts, jobs := jobs, held := held, tasks := tasks, nextPart := next), t, content)
            == Linked(s, t, content).(parts := parts, jobs := jobs, held := held, tasks := tasks, nextPart := next)
  {
  }

  lemma {:induction false} DropThrough(env: Env, s: Store, l: Store, locks: set<string>, content: Content, target: Target,
                                      after: After)
    requires s.parts == map[]
    requires l == Linked(s, target, content).(nextPart := s.nextPart + 1, parts := map[s.nextPart := content])
    ensures Next(env, Alone(l, locks, Dropping(s.nextPart, after)),
                 Alone(Published(env, s, content, target, after), locks, Resume(after)), Advance(0))
  {
    hide OperationKey, Key, Linked, Matches, Publish, Tell, Notified;
    var n := s.nextPart;
    LinkedRest(s, target, content);
    LinkedReplies(s, target, content);
    AloneMove(l, locks, Dropping(n, after), Resume(after));
    assert l.parts - {n} == map[];
  }

  // ---- An admission ----

  /** The operation and the object are unused or already bound to this very admission, the object is not
      reclaimed, and the two do not share one lock name. */
  predicate Admissible(env: Env, s: Store, a: Admission) {
    && OperationKey(env, a) != Key(env, a)
    && (OperationKey(env, a) in s.operations ==> s.operations[OperationKey(env, a)] == a)
    && (Key(env, a) in s.admissions ==> s.admissions[Key(env, a)] == a)
    && Key(env, a) !in s.tombs
  }

  function AdmitLocked(env: Env, a: Admission): set<string> { {OperationKey(env, a)} + {Key(env, a)} }

  lemma {:induction false} AdmitEnter(env: Env, s: Store, a: Admission) returns (steps: seq<Step>)
    requires Idle(s) && OperationKey(env, a) != Key(env, a)
    ensures Leads(env, s, steps, Alone(s, AdmitLocked(env, a), AdmitRead(a)))
  {
    hide Next, Leads, OperationKey, Key, Alone;
    var o := OperationKey(env, a);
    steps := Enter(env, s, o, AdmitWait(a));
    Acquires(env, s, {o}, AdmitHalf(a));
    More(env, s, steps, Alone(s, {o}, AdmitHalf(a)), Acquire(0), Alone(s, AdmitLocked(env, a), AdmitRead(a)));
    steps := steps + [Acquire(0)];
  }

  lemma {:induction false} AdmitMoves(env: Env, s: Store, locks: set<string>, a: Admission)
    requires Admissible(env, s, a)
    ensures OperationKey(env, a) in s.operations ==>
              Next(env, Alone(s, locks, AdmitRead(a)), Alone(s, locks, AdmitRecorded(a)), Advance(0))
    ensures OperationKey(env, a) !in s.operations ==>
              Next(env, Alone(s, locks, AdmitRead(a)), Alone(s, locks, AdmitRecord(a)), Advance(0))
    ensures Next(env, Alone(s, locks, AdmitRecorded(a)), Alone(s, locks, AdmitUnmarked(a)), Advance(0))
    ensures Key(env, a) !in s.admissions ==>
              Next(env, Alone(s, locks, AdmitUnmarked(a)), Alone(s, locks, AdmitBind(a)), Advance(0))
  {
    hide OperationKey, Key, Move, Publish, Tell, Matches, Next;
    Moves(env, s, locks, AdmitRead(a),
          if OperationKey(env, a) in s.operations then AdmitRecorded(a) else AdmitRecord(a));
    Moves(env, s, locks, AdmitRecorded(a), AdmitUnmarked(a));
    if Key(env, a) !in s.admissions { Moves(env, s, locks, AdmitUnmarked(a), AdmitBind(a)); }
  }

  lemma {:induction false} AdmitPends(env: Env, s: Store, locks: set<string>, a: Admission)
    requires s.parts == map[] && s.jobs == map[]
    ensures Next(env, Alone(s, locks, AdmitRecord(a)),
                 Pending(s, locks, Record(a), OperationFile(OperationKey(env, a)), ThenAdmission(a)), Advance(0))
    ensures Next(env, Alone(s, locks, AdmitBind(a)),
                 Pending(s, locks, Record(a), AdmissionFile(Key(env, a)), ThenAdmitted(a)), Advance(0))
  {
    hide OperationKey, Key, Move, Publish, Tell, Matches;
    PublishPends(s, locks, AdmitRecord(a), Record(a), OperationFile(OperationKey(env, a)), ThenAdmission(a));
    PublishPends(s, locks, AdmitBind(a), Record(a), AdmissionFile(Key(env, a)), ThenAdmitted(a));
  }

  /** The published records after the admission; nothing else that is published changes. */
  predicate NowAdmitted(env: Env, s: Store, t: Store, a: Admission) {
    && t.operations == s.operations[OperationKey(env, a) := a] && t.admissions == s.admissions[Key(env, a) := a]
    && t.data == s.data && t.tombs == s.tombs
  }

  /** Up to the point where the operation is recorded, by an earlier attempt or now. */
  lemma {:induction false} RecordOperation(env: Env, s: Store, locks: set<string>, a: Admission)
    returns (steps: seq<Step>, u: Store)
    requires Idle(s) && Admissible(env, s, a)
    ensures Leads(env, Alone(s, locks, AdmitRead(a)), steps, Alone(u, locks, AdmitRecorded(a)))
    ensures Idle(u) && u.replies == s.replies && u.operations == s.operations[OperationKey(env, a) := a]
    ensures u.admissions == s.admissions && u.data == s.data && u.tombs == s.tombs
  {
    hide OperationKey, Key, Leads, Next, Alone, Pending;
    var o := OperationKey(env, a);
    AdmitMoves(env, s, locks, a);
    if o in s.operations {
      u := s;
      One(env, Alone(s, locks, AdmitRead(a)), Advance(0), Alone(s, locks, AdmitRecorded(a)));
      steps := [Advance(0)];
    } else {
      var s0, s1 := Alone(s, locks, AdmitRead(a)), Alone(s, locks, AdmitRecord(a));
      var s2 := Pending(s, locks, Record(a), OperationFile(o), ThenAdmission(a));
      AdmitPends(env, s, locks, a);
      One(env, s0, Advance(0), s1);
      More(env, s0, [Advance(0)], s1, Advance(0), s2);
      u := Published(env, s, Record(a), OperationFile(o), ThenAdmission(a));
      var rest := PublishThrough(env, s, locks, Record(a), OperationFile(o), ThenAdmission(a));
      Then(env, s0, [Advance(0)] + [Advance(0)], s2, rest, Alone(u, locks, AdmitRecorded(a)));
      steps := [Advance(0)] + [Advance(0)] + rest;
    }
  }

  lemma {:induction false} Bind(env: Env, s: Store, locks: set<string>, a: Admission) returns (steps: seq<Step>, t: Store)
    requires Idle(s) && Admissible(env, s, a) && Key(env, a) !in s.admissions
    ensures Leads(env, Alone(s, locks, AdmitUnmarked(a)), steps, t)
    ensures Idle(t) && t.replies == s.replies + [Admitted(Key(env, a), a)]
    ensures t.operations == s.operations && t.admissions == s.admissions[Key(env, a) := a]
    ensures t.data == s.data && t.tombs == s.tombs
  {
    hide OperationKey, Key, Leads, Next, Alone, Pending;
    var target := AdmissionFile(Key(env, a));
    AdmitMoves(env, s, locks, a);
    AdmitPends(env, s, locks, a);
    var s1, s2 := Alone(s, locks, AdmitUnmarked(a)), Alone(s, locks, AdmitBind(a));
    var s3 := Pending(s, locks, Record(a), target, ThenAdmitted(a));
    One(env, s1, Advance(0), s2);
    More(env, s1, [Advance(0)], s2, Advance(0), s3);
    var rest := PublishThrough(env, s, locks, Record(a), target, ThenAdmitted(a));
    t := Published(env, s, Record(a), target, ThenAdmitted(a));
    Then(env, s1, [Advance(0)] + [Advance(0)], s3, rest, Alone(t, locks, Unwinding(None)));
    var leave := Leave(env, t, locks);
    Then(env, s1, [Advance(0)] + [Advance(0)] + rest, Alone(t, locks, Unwinding(None)), leave, t);
    steps := [Advance(0)] + [Advance(0)] + rest + leave;
  }

  /** From the point where the operation is recorded the request runs through to its reply. */
  lemma {:induction false} AdmitFinish(env: Env, s: Store, locks: set<string>, a: Admission) returns (steps: seq<Step>, t: Store)
    requires Idle(s) && Admissible(env, s, a)
    ensures Leads(env, Alone(s, locks, AdmitRecorded(a)), steps, t)
    ensures Idle(t) && t.replies == s.replies + [Admitted(Key(env, a), a)]
    ensures t.operations == s.operations && t.admissions == s.admissions[Key(env, a) := a]
    ensures t.data == s.data && t.tombs == s.tombs
  {
    hide OperationKey, Key, Leads, Next, Move, Publish, Tell;
    var s0, s1 := Alone(s, locks, AdmitRecorded(a)), Alone(s, locks, AdmitUnmarked(a));
    AdmitMoves(env, s, locks, a);
    One(env, s0, Advance(0), s1);
    var rest: seq<Step>;
    if Key(env, a) in s.admissions {
      t := s.(replies := s.replies + [Admitted(Key(env, a), a)]);
      rest := Answers(env, s, locks, AdmitUnmarked(a), Admitted(Key(env, a), a));
    } else {
      rest, t := Bind(env, s, locks, a);
    }
    Then(env, s0, [Advance(0)], s1, rest, t);
    steps := [Advance(0)] + rest;
  }

  /** An admissible admission is granted by one request, whatever an earlier attempt left behind. */
  lemma {:induction false} AdmitSession(env: Env, s: Store, a: Admission) returns (steps: seq<Step>, t: Store)
    requires Idle(s) && Admissible(env, s, a)
    ensures Leads(env, s, steps, t) && Idle(t) && NowAdmitted(env, s, t, a)
    ensures t.replies == s.replies + [Admitted(Key(env, a), a)]
  {
    hide OperationKey, Key, Leads, Alone;
    var locks := AdmitLocked(env, a);
    var enter := AdmitEnter(env, s, a);
    var record, u := RecordOperation(env, s, locks, a);
    Then(env, s, enter, Alone(s, locks, AdmitRead(a)), record, Alone(u, locks, AdmitRecorded(a)));
    var finish: seq<Step>;
    finish, t := AdmitFinish(env, u, locks, a);
    Then(env, s, enter + record, Alone(u, locks, AdmitRecorded(a)), finish, t);
    steps := enter + record + finish;
  }

  // ---- An upload ----

  /** An upload under way: so much has been received. */
  function Receiving(s: Store, k: string, a: Admission, bytes: string): Store {
    Alone(s, {k}, PutStream(k, a, s.nextPart)).(parts := map[s.nextPart := Bytes(bytes)], nextPart := s.nextPart + 1)
  }

  lemma {:induction false} PutOpens(env: Env, s: Store, k: string) returns (steps: seq<Step>)
    requires Idle(s) && k in s.admissions && k !in s.tombs && k !in s.data
    ensures Leads(env, s, steps, Receiving(s, k, s.admissions[k], ""))
  {
    hide Leads, Next, Move, Publish, Tell, Matches;
    var a := s.admissions[k];
    var s1, s2, s3 := Alone(s, {k}, PutCheck(k)), Alone(s, {k}, PutUnmarked(k)), Alone(s, {k}, PutAdmitted(k, a));
    steps := Enter(env, s, k, PutWait(k));
    Moves(env, s, {k}, PutCheck(k), PutUnmarked(k));
    More(env, s, steps, s1, Advance(0), s2);
    Moves(env, s, {k}, PutUnmarked(k), PutAdmitted(k, a));
    More(env, s, steps + [Advance(0)], s2, Advance(0), s3);
    StreamOpens(env, s, k);
    More(env, s, steps + [Advance(0)] + [Advance(0)], s3, Advance(0), Receiving(s, k, a, ""));
    steps := steps + [Advance(0)] + [Advance(0)] + [Advance(0)];
  }

  lemma {:induction false} StreamOpens(env: Env, s: Store, k: string)
    requires Idle(s) && k in s.admissions && k !in s.data
    ensures Next(env, Alone(s, {k}, PutAdmitted(k, s.admissions[k])), Receiving(s, k, s.admissions[k], ""), Advance(0))
  {
    hide Publish, Tell, Matches, OperationKey, Key, Linked, Notified;
    AloneMove(s, {k}, PutAdmitted(k, s.admissions[k]), PutStream(k, s.admissions[k], s.nextPart));
  }

  lemma {:induction false} Receives(env: Env, s: Store, k: string, a: Admission, bytes: string, more: string)
    requires |bytes| + |more| <= a.byteLength
    ensures Next(env, Receiving(s, k, a, bytes), Receiving(s, k, a, bytes + more), Chunk(0, more))
  {
    hide Advanced, Linked, Notified, Wanted, Granted;
    var n := s.nextPart;
    assert map[n := Bytes(bytes)][n := Bytes(bytes + more)] == map[n := Bytes(bytes + more)];
  }

  /** However the body is cut into pieces, all of it is received. */
  lemma {:induction false} ReceiveAll(env: Env, s: Store, k: string, a: Admission, bytes: string, pieces: seq<string>)
    returns (steps: seq<Step>)
    requires |bytes| + |Flatten(pieces)| <= a.byteLength
    ensures Leads(env, Receiving(s, k, a, bytes), steps, Receiving(s, k, a, bytes + Flatten(pieces)))
    decreases |pieces|
  {
    hide Next, Receiving;
    if pieces == [] {
      assert bytes + Flatten(pieces) == bytes;
      return [];
    }
    var longer := bytes + pieces[0];
    Receives(env, s, k, a, bytes, pieces[0]);
    One(env, Receiving(s, k, a, bytes), Chunk(0, pieces[0]), Receiving(s, k, a, longer));
    var rest := ReceiveAll(env, s, k, a, longer, pieces[1..]);
    assert longer + Flatten(pieces[1..]) == bytes + Flatten(pieces);
    Then(env, Receiving(s, k, a, bytes), [Chunk(0, pieces[0])], Receiving(s, k, a, longer), rest,
         Receiving(s, k, a, bytes + Flatten(pieces)));
    return [Chunk(0, pieces[0])] + rest;
  }

  lemma {:induction false} StreamCloses(env: Env, s: Store, k: string, a: Admission, bytes: string)
    requires Idle(s) && Matches(env, a, bytes)
    ensures Next(env, Receiving(s, k, a, bytes), Pending(s, {k}, Bytes(bytes), DataFile(k), ThenCreated(k)), Advance(0))
  {
    hide Publish, Tell, Matches, OperationKey, Key, Linked, Notified;
    var n := s.nextPart;
    AloneMove(s, {k}, PutStream(k, a, n), Publishing(n, DataFile(k), ThenCreated(k)));
    assert s.jobs[n := DataFile(k)] == map[n := DataFile(k)];
  }

  /** A body that matches its admission is stored by one request, however it is cut into pieces. */
  lemma {:induction false} PutSession(env: Env, s: Store, k: string, pieces: seq<string>) returns (steps: seq<Step>, t: Store)
    requires Idle(s) && k in s.admissions && k !in s.tombs && k !in s.data
    requires Matches(env, s.admissions[k], Flatten(pieces))
    ensures Leads(env, s, steps, t) && Idle(t) && t.replies == s.replies + [Created(k)]
    ensures t.operations == s.operations && t.admissions == s.admissions && t.tombs == s.tombs
    ensures t.data == s.data[k := Flatten(pieces)]
  {
    hide Leads, Next, Alone, Pending, Receiving;
    var a, bytes := s.admissions[k], Flatten(pieces);
    steps := PutOpens(env, s, k);
    var receive := ReceiveAll(env, s, k, a, "", pieces);
    assert "" + bytes == bytes;
    Then(env, s, steps, Receiving(s, k, a, ""), receive, Receiving(s, k, a, bytes));
    StreamCloses(env, s, k, a, bytes);
    var s4 := Pending(s, {k}, Bytes(bytes), DataFile(k), ThenCreated(k));
    More(env, s, steps + receive, Receiving(s, k, a, bytes), Advance(0), s4);
    var publish := PublishThrough(env, s, {k}, Bytes(bytes), DataFile(k), ThenCreated(k));
    t := Published(env, s, Bytes(bytes), DataFile(k), ThenCreated(k));
    Then(env, s, steps + receive + [Advance(0)], s4, publish, Alone(t, {k}, Unwinding(None)));
    var leave := Leave(env, t, {k});
    Then(env, s, steps + receive + [Advance(0)] + publish, Alone(t, {k}, Unwinding(None)), leave, t);
    steps := steps + receive + [Advance(0)] + publish + leave;
  }

  // ---- A download or a receipt ----

  function Reading(s: Store, k: string, receipt: bool): Reply
    requires k in s.admissions && k in s.data
  {
    if receipt then Receipt(k, s.admissions[k], s.data[k]) else Served(k, s.data[k])
  }

  lemma {:induction false} ReadMoves(env: Env, s: Store, k: string, receipt: bool)
    requires k in s.admissions && k !in s.tombs
    ensures Next(env, Alone(s, {k}, ReadCheck(k, receipt)), Alone(s, {k}, ReadUnmarked(k, receipt)), Advance(0))
    ensures Next(env, Alone(s, {k}, ReadUnmarked(k, receipt)),
                 Alone(s, {k}, ReadAdmitted(k, receipt, s.admissions[k])), Advance(0))
  {
    hide Next, Move, Publish, Tell, OperationKey, Key, Matches;
    Moves(env, s, {k}, ReadCheck(k, receipt), ReadUnmarked(k, receipt));
    Moves(env, s, {k}, ReadUnmarked(k, receipt), ReadAdmitted(k, receipt, s.admissions[k]));
  }

  lemma {:induction false} ReadAnswers(env: Env, s: Store, k: string, receipt: bool)
    requires k in s.admissions && k in s.data && Matches(env, s.admissions[k], s.data[k])
    ensures var pc := ReadAdmitted(k, receipt, s.admissions[k]);
            Advanced(env, Alone(s, {k}, pc), 0) == Tell(Alone(s, {k}, pc), 0, Reading(s, k, receipt))
  {
    hide Move, Publish, Tell, OperationKey, Key;
  }

  /** A stored object that is not marked is served and certified. */
  lemma {:induction false} ReadSession(env: Env, s: Store, k: string, receipt: bool) returns (steps: seq<Step>, t: Store)
    requires Idle(s) && k in s.admissions && k in s.data && k !in s.tombs && Matches(env, s.admissions[k], s.data[k])
    ensures Leads(env, s, steps, t) && Idle(t) && SameFiles(s, t) && t.replies == s.replies + [Reading(s, k, receipt)]
  {
    hide Leads, Next, Advanced, Alone, Tell, Matches;
    var s1, s2 := Alone(s, {k}, ReadCheck(k, receipt)), Alone(s, {k}, ReadUnmarked(k, receipt));
    var pc := ReadAdmitted(k, receipt, s.admissions[k]);
    steps := Enter(env, s, k, ReadWait(k, receipt));
    ReadMoves(env, s, k, receipt);
    More(env, s, steps, s1, Advance(0), s2);
    More(env, s, steps + [Advance(0)], s2, Advance(0), Alone(s, {k}, pc));
    ReadAnswers(env, s, k, receipt);
    var answer := Answers(env, s, {k}, pc, Reading(s, k, receipt));
    t := s.(replies := s.replies + [Reading(s, k, receipt)]);
    Then(env, s, steps + [Advance(0)] + [Advance(0)], Alone(s, {k}, pc), answer, t);
    steps := steps + [Advance(0)] + [Advance(0)] + answer;
  }

  // ---- A reclaim ----

  /** Up to the point where the mark is published, by an earlier attempt or now. */
  lemma {:induction false} MarkObject(env: Env, s: Store, k: string) returns (steps: seq<Step>, u: Store)
    requires Idle(s)
    ensures Leads(env, s, steps, Alone(u, {k}, ReclaimErase(k)))
    ensures Idle(u) && u.operations == s.operations && u.admissions == s.admissions && u.data == s.data
    ensures u.tombs == s.tombs + {k} && u.replies == s.replies
  {
    hide Leads, Next, Move, Publish, Tell, Alone, Pending;
    steps := Enter(env, s, k, ReclaimWait(k));
    var s1 := Alone(s, {k}, ReclaimCheck(k));
    CheckMoves(env, s, k);
    if k in s.tombs {
      u := s;
      assert s.tombs == s.tombs + {k};
      More(env, s, steps, s1, Advance(0), Alone(s, {k}, ReclaimErase(k)));
      steps := steps + [Advance(0)];
    } else {
      var s2, s3 := Alone(s, {k}, ReclaimMark(k)), Pending(s, {k}, Mark, TombFile(k), ThenErase(k));
      More(env, s, steps, s1, Advance(0), s2);
      More(env, s, steps + [Advance(0)], s2, Advance(0), s3);
      u := Published(env, s, Mark, TombFile(k), ThenErase(k));
      var rest := PublishThrough(env, s, {k}, Mark, TombFile(k), ThenErase(k));
      Then(env, s, steps + [Advance(0)] + [Advance(0)], s3, rest, Alone(u, {k}, ReclaimErase(k)));
      steps := steps + [Advance(0)] + [Advance(0)] + rest;
    }
  }

  lemma {:induction false} CheckMoves(env: Env, s: Store, k: string)
    requires Idle(s)
    ensures Next(env, Alone(s, {k}, ReclaimCheck(k)),
                 Alone(s, {k}, if k in s.tombs then ReclaimErase(k) else ReclaimMark(k)), Advance(0))
    ensures Next(env, Alone(s, {k}, ReclaimMark(k)), Pending(s, {k}, Mark, TombFile(k), ThenErase(k)), Advance(0))
  {
    hide Move, Publish, Tell, OperationKey, Key, Matches;
    Moves(env, s, {k}, ReclaimCheck(k), if k in s.tombs then ReclaimErase(k) else ReclaimMark(k));
    PublishPends(s, {k}, ReclaimMark(k), Mark, TombFile(k), ThenErase(k));
  }

  /** The bytes go, and the client is told. */
  lemma {:induction false} EraseObject(env: Env, s: Store, k: string) returns (steps: seq<Step>, t: Store)
    requires Idle(s)
    ensures Leads(env, Alone(s, {k}, ReclaimErase(k)), steps, t)
    ensures Idle(t) && t.operations == s.operations && t.admissions == s.admissions && t.tombs == s.tombs
    ensures t.data == s.data - {k} && t.replies == s.replies + [Reclaimed(k)]
  {
    hide Leads, Move, Publish, Tell;
    var s0 := Alone(s, {k}, ReclaimErase(k));
    var s1 := Alone(s.(removals := s.removals + {k}), {k}, ReclaimDone(k));
    var u := s.(removals := s.removals + {k} - {k}, data := s.data - {k});
    ErasureStarts(env, s, k);
    One(env, s0, Advance(0), s1);
    More(env, s0, [Advance(0)], s1, Erase(k), Alone(u, {k}, ReclaimDone(k)));
    var answer := Answers(env, u, {k}, ReclaimDone(k), Reclaimed(k));
    t := u.(replies := u.replies + [Reclaimed(k)]);
    Then(env, s0, [Advance(0)] + [Erase(k)], Alone(u, {k}, ReclaimDone(k)), answer, t);
    steps := [Advance(0)] + [Erase(k)] + answer;
  }

  lemma {:induction false} ErasureStarts(env: Env, s: Store, k: string)
    ensures Next(env, Alone(s, {k}, ReclaimErase(k)), Alone(s.(removals := s.removals + {k}), {k}, ReclaimDone(k)), Advance(0))
  {
    hide Publish, Tell, OperationKey, Key, Matches, Linked, Notified;
    AloneMove(s, {k}, ReclaimErase(k), ReclaimDone(k));
  }

  /** Any object is reclaimed by one request: marked, its bytes gone, nothing else touched. */
  lemma {:induction false} ReclaimSession(env: Env, s: Store, k: string) returns (steps: seq<Step>, t: Store)
    requires Idle(s)
    ensures Leads(env, s, steps, t) && Idle(t) && t.operations == s.operations && t.admissions == s.admissions
    ensures t.tombs == s.tombs + {k} && t.data == s.data - {k} && t.replies == s.replies + [Reclaimed(k)]
  {
    hide Leads, Alone;
    var mark, u := MarkObject(env, s, k);
    var erase: seq<Step>;
    erase, t := EraseObject(env, u, k);
    Then(env, s, mark, Alone(u, {k}, ReclaimErase(k)), erase, t);
    steps := mark + erase;
  }
}
