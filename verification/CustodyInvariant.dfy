/** The invariant of the custody store and its preservation by every step. */
module CustodyInvariant {
  import opened Base
  import opened CustodyStore

  // ---- The invariant ----

  /** The published files agree with each other. */
  ghost predicate FilesOk(env: Env, s: Store) {
    && (forall o :: o in s.operations ==> OperationKey(env, s.operations[o]) == o)
    && (forall k :: k in s.admissions ==>
          Key(env, s.admissions[k]) == k && OperationKey(env, s.admissions[k]) != k && Recorded(env, s, s.admissions[k]))
    && (forall k :: k in s.data ==> k in s.admissions && Matches(env, s.admissions[k], s.data[k]))
  }

  predicate Recorded(env: Env, s: Store, a: Admission) {
    OperationKey(env, a) in s.operations && s.operations[OperationKey(env, a)] == a
  }

  predicate Bound(s: Store, k: string, a: Admission) { k in s.admissions && s.admissions[k] == a }

  ghost predicate LocksOk(s: Store) {
    && (forall k :: k in s.held ==> s.held[k] in s.tasks && k in s.tasks[s.held[k]].locks)
    && (forall id, k :: id in s.tasks && k in s.tasks[id].locks ==> k in s.held && s.held[k] == id)
  }

  /** Partial files have one owner at most, and names are never reused. */
  ghost predicate PartsOk(s: Store) {
    && (forall p :: p in s.parts ==> p < s.nextPart)
    && (forall p :: p in s.jobs ==> p < s.nextPart)
    && (forall id :: id in s.tasks && PartOf(s.tasks[id].pc).Some? ==> PartOf(s.tasks[id].pc).value < s.nextPart)
    && (forall i, j ::
          (i in s.tasks && j in s.tasks && PartOf(s.tasks[i].pc).Some?
           && PartOf(s.tasks[i].pc) == PartOf(s.tasks[j].pc)) ==> i == j)
  }

  /** Linking this content at this target now would keep the files in agreement. */
  predicate Safe(env: Env, s: Store, t: Target, content: Content) {
    match t
    case OperationFile(o) => content.Record? && OperationKey(env, content.a) == o
    case AdmissionFile(k) => content.Record? && Key(env, content.a) == k && OperationKey(env, content.a) != k
                             && Recorded(env, s, content.a)
    case DataFile(k) => content.Bytes? && k in s.admissions && Matches(env, s.admissions[k], content.bytes)
                        && k !in s.tombs
    case TombFile(k) => content.Mark?
  }

  predicate Owns(s: Store, id: nat, p: nat) { id in s.tasks && PartOf(s.tasks[id].pc) == Some(p) }

  /** A worker whose partial file still exists works for a task that holds the target's lock. */
  ghost predicate JobOk(env: Env, s: Store, p: nat)
    requires p in s.jobs && p in s.parts
  {
    && Safe(env, s, s.jobs[p], s.parts[p])
    && exists id :: Owns(s, id, p) && LockFor(s.jobs[p]) in s.tasks[id].locks
  }

  ghost predicate JobsOk(env: Env, s: Store) {
    forall p :: p in s.jobs && p in s.parts ==> JobOk(env, s, p)
  }

  /** Both locks of an admission are held; one lock cannot be had twice, so the two names differ. */
  predicate AdmitLocks(env: Env, t: Task, a: Admission) {
    OperationKey(env, a) in t.locks && Key(env, a) in t.locks && OperationKey(env, a) != Key(env, a)
  }

  predicate Unmarked(s: Store, t: Task, k: string) { k in t.locks && k !in s.tombs }

  /** What a task may rely on at its program counter. */
  ghost predicate TaskOk(env: Env, s: Store, t: Task) {
    match t.pc
    case AdmitHalf(a) => OperationKey(env, a) in t.locks
    case AdmitRead(a) => AdmitLocks(env, t, a)
    case AdmitRecord(a) => AdmitLocks(env, t, a)
    case AdmitRecorded(a) => AdmitLocks(env, t, a) && Recorded(env, s, a)
    case AdmitUnmarked(a) => AdmitLocks(env, t, a) && Recorded(env, s, a) && Unmarked(s, t, Key(env, a))
    case AdmitBind(a) => AdmitLocks(env, t, a) && Recorded(env, s, a) && Unmarked(s, t, Key(env, a))
    case PutCheck(k) => k in t.locks
    case PutUnmarked(k) => Unmarked(s, t, k)
    case PutAdmitted(k, a) => Unmarked(s, t, k) && Bound(s, k, a)
    case PutStream(k, a, p) => Unmarked(s, t, k) && Bound(s, k, a) && p in s.parts && p !in s.jobs
    case ReclaimCheck(k) => k in t.locks
    case ReclaimMark(k) => k in t.locks
    case ReclaimErase(k) => k in s.tombs
    case ReclaimDone(k) => k in s.tombs
    case ReadCheck(k, _) => k in t.locks
    case ReadUnmarked(k, _) => Unmarked(s, t, k)
    case ReadAdmitted(k, _, a) => Unmarked(s, t, k) && Bound(s, k, a)
    case Publishing(p, target, after) =>
      && p in s.jobs && s.jobs[p] == target && p in s.parts && LockFor(target) in t.locks
      && Promised(env, s, t, target, s.parts[p], after)
    case Dropping(p, after) =>
      p !in s.jobs && Delivered(env, s, t, after)
    case _ => true
  }

  /** Linking this content at this target is what the task will rely on afterwards. */
  ghost predicate Promised(env: Env, s: Store, t: Task, target: Target, content: Content, after: After) {
    match after
    case ThenAdmission(a) =>
      AdmitLocks(env, t, a) && target == OperationFile(OperationKey(env, a)) && content == Record(a)
    case ThenAdmitted(a) =>
      && target == AdmissionFile(Key(env, a)) && content == Record(a) && Unmarked(s, t, Key(env, a))
      && AdmitLocks(env, t, a)
    case ThenCreated(k) => target == DataFile(k) && content.Bytes? && Unmarked(s, t, k)
    case ThenErase(k) => target == TombFile(k) && content == Mark
  }

  ghost predicate Delivered(env: Env, s: Store, t: Task, after: After) {
    match after
    case ThenAdmission(a) => AdmitLocks(env, t, a) && Recorded(env, s, a)
    case ThenAdmitted(a) => Bound(s, Key(env, a), a) && Unmarked(s, t, Key(env, a)) && AdmitLocks(env, t, a)
    case ThenCreated(k) => k in s.data && Unmarked(s, t, k)
    case ThenErase(k) => k in s.tombs
  }

  ghost predicate TasksOk(env: Env, s: Store) {
    forall id :: id in s.tasks ==> TaskOk(env, s, s.tasks[id])
  }

  ghost predicate RestOk(s: Store) {
    s.removals <= s.tombs && (!s.up ==> s.tasks == map[] && s.jobs == map[] && s.held == map[])
  }

  ghost predicate Inv(env: Env, s: Store) {
    FilesOk(env, s) && LocksOk(s) && PartsOk(s) && JobsOk(env, s) && TasksOk(env, s) && RestOk(s)
  }

  // ---- What a step of one task leaves alone ----

  predicate Grows(m: map<string, Admission>, m': map<string, Admission>) {
    forall k :: k in m ==> k in m' && m'[k] == m[k]
  }

  /** Everything but task `me`, its partial file and the files it may add to is as before. */
  ghost predicate Frame(s: Store, s': Store, me: nat) {
    && Grows(s.operations, s'.operations) && Grows(s.admissions, s'.admissions)
    && (forall id :: id != me ==> (id in s.tasks <==> id in s'.tasks))
    && (forall id :: id != me && id in s.tasks ==> s'.tasks[id] == s.tasks[id])
    && (forall k :: k in s.data ==> k in s'.data)
    && (forall k :: k in s.tombs ==> k in s'.tombs)
    && (forall k :: k in s'.tombs && k !in s.tombs ==> me in s.tasks && k in s.tasks[me].locks)
    && (forall p: nat :: p < s.nextPart && !Owns(s, me, p) ==> SamePart(s, s', p))
  }

  predicate SamePart(s: Store, s': Store, p: nat) {
    && (p in s.parts <==> p in s'.parts) && (p in s.parts ==> s'.parts[p] == s.parts[p])
    && (p in s.jobs <==> p in s'.jobs) && (p in s.jobs ==> s'.jobs[p] == s.jobs[p])
  }

  lemma {:induction false} FrameUnmarked(s: Store, s': Store, me: nat, id: nat, k: string)
    requires LocksOk(s) && Frame(s, s', me) && id != me && id in s.tasks && k in s.tasks[id].locks
    requires k !in s.tombs
    ensures k !in s'.tombs
  {
    assert s.held[k] == id;
    assert me in s.tasks ==> k !in s.tasks[me].locks;
  }

  /** Nothing a task at this point relies on is taken away. */
  ghost predicate Stays(s: Store, s': Store, t: Task) {
    && Grows(s.operations, s'.operations) && Grows(s.admissions, s'.admissions) && s.tombs <= s'.tombs
    && (forall k :: k in s.data && k !in s.tombs ==> k in s'.data)
    && (forall k :: Unmarked(s, t, k) ==> Unmarked(s', t, k))
    && (PartOf(t.pc).Some? ==> SamePart(s, s', PartOf(t.pc).value))
  }

  lemma {:induction false} PromisedStays(env: Env, s: Store, s': Store, t: Task, target: Target, content: Content,
                                         after: After)
    requires Stays(s, s', t) && Promised(env, s, t, target, content, after)
    ensures Promised(env, s', t, target, content, after)
  {
  }

  lemma {:induction false} DeliveredStays(env: Env, s: Store, s': Store, t: Task, after: After)
    requires Stays(s, s', t) && Delivered(env, s, t, after)
    ensures Delivered(env, s', t, after)
  {
  }

  lemma {:induction false} TaskStays(env: Env, s: Store, s': Store, t: Task)
    requires Stays(s, s', t) && TaskOk(env, s, t)
    ensures TaskOk(env, s', t)
  {
    hide Promised, Delivered, OperationKey, Key;
    match t.pc {
      case Publishing(p, target, after) => PromisedStays(env, s, s', t, target, s.parts[p], after);
      case Dropping(p, after) => DeliveredStays(env, s, s', t, after);
      case _ =>
    }
  }

  lemma {:induction false} FrameTask(env: Env, s: Store, s': Store, me: nat, id: nat)
    requires LocksOk(s) && PartsOk(s) && TasksOk(env, s) && Frame(s, s', me) && id != me && id in s.tasks
    ensures TaskOk(env, s', s.tasks[id])
  {
    hide TaskOk;
    var t := s.tasks[id];
    forall k | Unmarked(s, t, k) ensures Unmarked(s', t, k) { FrameUnmarked(s, s', me, id, k); }
    assert PartOf(t.pc).Some? ==> !Owns(s, me, PartOf(t.pc).value);
    TaskStays(env, s, s', t);
  }

  lemma {:induction false} SafeStays(env: Env, s: Store, s': Store, t: Target, content: Content)
    requires Grows(s.operations, s'.operations) && Grows(s.admissions, s'.admissions)
    requires LockFor(t) in s'.tombs ==> LockFor(t) in s.tombs
    requires Safe(env, s, t, content)
    ensures Safe(env, s', t, content)
  {
  }

  lemma {:induction false} FrameJob(env: Env, s: Store, s': Store, me: nat, p: nat)
    requires LocksOk(s) && PartsOk(s) && JobsOk(env, s) && Frame(s, s', me)
    requires p < s.nextPart && !Owns(s, me, p) && p in s'.jobs && p in s'.parts
    ensures JobOk(env, s', p)
  {
    assert SamePart(s, s', p);
    assert JobOk(env, s, p);
    var id :| Owns(s, id, p) && LockFor(s.jobs[p]) in s.tasks[id].locks;
    var k := LockFor(s.jobs[p]);
    if k !in s.tombs { FrameUnmarked(s, s', me, id, k); }
    SafeStays(env, s, s', s.jobs[p], s.parts[p]);
    assert Owns(s', id, p);
  }

  /** The part of the work that is the same for every step of a task: its own new state is left to show. */
  lemma {:induction false} FrameKeeps(env: Env, s: Store, s': Store, me: nat)
    requires Inv(env, s) && Frame(s, s', me)
    requires FilesOk(env, s') && LocksOk(s') && PartsOk(s') && RestOk(s')
    requires me in s'.tasks ==> TaskOk(env, s', s'.tasks[me])
    requires forall p :: p in s'.jobs && p in s'.parts && (p >= s.nextPart || Owns(s, me, p)) ==> JobOk(env, s', p)
    ensures Inv(env, s')
  {
    hide FilesOk, TaskOk, JobOk, Frame;
    forall id | id in s'.tasks ensures TaskOk(env, s', s'.tasks[id]) {
      if id != me {
        SameTask(s, s', me, id);
        FrameTask(env, s, s', me, id);
      }
    }
    forall p | p in s'.jobs && p in s'.parts ensures JobOk(env, s', p) {
      if p < s.nextPart && !Owns(s, me, p) { FrameJob(env, s, s', me, p); }
    }
  }

  lemma {:induction false} SameTask(s: Store, s': Store, me: nat, id: nat)
    requires Frame(s, s', me) && id != me && id in s'.tasks
    ensures id in s.tasks && s'.tasks[id] == s.tasks[id]
  {
  }

  // ---- Steps of one task ----

  predicate SameFiles(s: Store, s': Store) {
    s'.operations == s.operations && s'.admissions == s.admissions && s'.data == s.data && s'.tombs == s.tombs
  }

  lemma {:induction false} FilesSame(env: Env, s: Store, s': Store)
    requires FilesOk(env, s) && SameFiles(s, s')
    ensures FilesOk(env, s')
  {
  }

  lemma {:induction false} SafeSame(env: Env, s: Store, s': Store, t: Target, content: Content)
    requires SameFiles(s, s')
    ensures Safe(env, s', t, content) <==> Safe(env, s, t, content)
  {
  }

  lemma {:induction false} TaskOkSame(env: Env, s: Store, s': Store, t: Task)
    requires SameFiles(s, s') && s'.parts == s.parts && s'.jobs == s.jobs
    ensures TaskOk(env, s', t) <==> TaskOk(env, s, t)
  {
  }

  lemma {:induction false} TaskOkOf(env: Env, s: Store, id: nat)
    requires Inv(env, s) && id in s.tasks
    ensures TaskOk(env, s, s.tasks[id])
  {
  }

  /** Task `id` changes its program counter, its own partial file or the next one: no lock, no published file. */
  ghost predicate Local(s: Store, s': Store, id: nat) {
    && id in s.tasks && id in s'.tasks && s'.tasks == s.tasks[id := s'.tasks[id]]
    && s'.tasks[id].locks == s.tasks[id].locks
    && SameFiles(s, s') && s'.held == s.held && s'.up == s.up && s'.removals <= s'.tombs
    && s.nextPart <= s'.nextPart
    && (forall p: nat :: p < s.nextPart && !Owns(s, id, p) ==> SamePart(s, s', p))
    && (forall p :: p in s'.parts || p in s'.jobs ==> p < s'.nextPart)
    && (PartOf(s'.tasks[id].pc).Some? ==>
          Owns(s, id, PartOf(s'.tasks[id].pc).value) || s.nextPart <= PartOf(s'.tasks[id].pc).value < s'.nextPart)
  }

  lemma {:induction false} LocalLocks(s: Store, s': Store, id: nat)
    requires LocksOk(s) && Local(s, s', id)
    ensures LocksOk(s')
  {
  }

  lemma {:induction false} LocalParts(s: Store, s': Store, id: nat)
    requires PartsOk(s) && Local(s, s', id)
    ensures PartsOk(s')
  {
  }

  lemma {:induction false} LocalKeeps(env: Env, s: Store, s': Store, id: nat)
    requires Inv(env, s) && Local(s, s', id)
    requires TaskOk(env, s', s'.tasks[id])
    requires forall p :: p in s'.jobs && p in s'.parts && (p >= s.nextPart || Owns(s, id, p)) ==> JobOk(env, s', p)
    ensures Inv(env, s')
  {
    hide FilesOk, LocksOk, PartsOk, JobsOk, TasksOk, TaskOk, JobOk, Owns, SamePart;
    FilesSame(env, s, s');
    LocalLocks(s, s', id);
    LocalParts(s, s', id);
    FrameKeeps(env, s, s', id);
  }

  /** Only the program counter changes. */
  lemma {:induction false} MoveKeeps(env: Env, s: Store, id: nat, pc: Pc)
    requires Inv(env, s) && id in s.tasks && PartOf(pc) == PartOf(s.tasks[id].pc)
    requires TaskOk(env, s, Task(s.tasks[id].locks, pc))
    ensures Inv(env, Move(s, id, pc))
  {
    hide FilesOk, LocksOk, TasksOk, TaskOk, Safe;
    var s' := Move(s, id, pc);
    TaskOkSame(env, s, s', Task(s.tasks[id].locks, pc));
    forall p | p in s'.jobs && p in s'.parts ensures JobOk(env, s', p) {
      assert JobOk(env, s, p);
      var i :| Owns(s, i, p) && LockFor(s.jobs[p]) in s.tasks[i].locks;
      SafeSame(env, s, s', s.jobs[p], s.parts[p]);
      assert Owns(s', i, p);
    }
    LocalKeeps(env, s, s', id);
  }

  /** A fresh partial file is written and its link handed to a worker. */
  lemma {:induction false} PublishKeeps(env: Env, s: Store, id: nat, content: Content, target: Target, after: After)
    requires Inv(env, s) && id in s.tasks && PartOf(s.tasks[id].pc).None?
    requires Safe(env, s, target, content) && LockFor(target) in s.tasks[id].locks
    requires Promised(env, s, s.tasks[id], target, content, after)
    ensures Inv(env, Publish(s, id, content, target, after))
  {
    hide FilesOk, LocksOk, JobsOk, TasksOk, Safe;
    var s' := Publish(s, id, content, target, after);
    SafeSame(env, s, s', target, content);
    assert Owns(s', id, s.nextPart);
    LocalKeeps(env, s, s', id);
  }

  lemma {:induction false} OpenStreamKeeps(env: Env, s: Store, id: nat)
    requires Inv(env, s) && id in s.tasks && s.tasks[id].pc.PutAdmitted? && s.tasks[id].pc.k !in s.data
    ensures Inv(env, Advanced(env, s, id))
  {
    hide FilesOk, LocksOk, JobsOk, TasksOk, JobOk;
    TaskOkOf(env, s, id);
    LocalKeeps(env, s, Advanced(env, s, id), id);
  }

  /** The upload is complete and matches its admission: the link goes to a worker. */
  lemma {:induction false} CloseStreamKeeps(env: Env, s: Store, id: nat)
    requires Inv(env, s) && id in s.tasks && s.tasks[id].pc.PutStream?
    requires var pc := s.tasks[id].pc;
             pc.p in s.parts && s.parts[pc.p].Bytes? && Matches(env, pc.a, s.parts[pc.p].bytes)
    ensures Inv(env, Advanced(env, s, id))
  {
    hide FilesOk, LocksOk, JobsOk, TasksOk, Matches;
    TaskOkOf(env, s, id);
    assert Owns(Advanced(env, s, id), id, s.tasks[id].pc.p);
    LocalKeeps(env, s, Advanced(env, s, id), id);
  }

  /** The task's partial file is removed: its worker, if still around, can no longer link it. */
  lemma {:induction false} DropPartKeeps(env: Env, s: Store, s': Store, id: nat, p: nat, pc: Pc)
    requires Inv(env, s) && Owns(s, id, p) && PartOf(pc).None?
    requires s' == Move(s, id, pc).(parts := s.parts - {p})
    requires TaskOk(env, s, Task(s.tasks[id].locks, pc))
    ensures Inv(env, s')
  {
    hide FilesOk, LocksOk, JobsOk, TasksOk, JobOk;
    LocalKeeps(env, s, s', id);
  }

  lemma {:induction false} ChunkKeeps(env: Env, s: Store, s': Store, id: nat, bytes: string)
    requires Inv(env, s) && id in s.tasks && s.tasks[id].pc.PutStream?
    requires s' == s.(parts := s.parts[s.tasks[id].pc.p := Bytes(bytes)])
    ensures Inv(env, s')
  {
    hide FilesOk, LocksOk, JobsOk, TasksOk, JobOk;
    TaskOkOf(env, s, id);
    LocalKeeps(env, s, s', id);
  }

  // ---- Steps that come, go, take and release locks ----

  /** Task `id` appears, disappears, or changes its locks; partial files and published files stay. */
  ghost predicate LockStep(s: Store, s': Store, id: nat) {
    && s' == s.(held := s'.held, tasks := s'.tasks) && s.up
    && (forall i :: i != id ==> (i in s.tasks <==> i in s'.tasks))
    && (forall i :: i != id && i in s.tasks ==> s'.tasks[i] == s.tasks[i])
    && (id in s.tasks ==> PartOf(s.tasks[id].pc).None?) && (id in s'.tasks ==> PartOf(s'.tasks[id].pc).None?)
  }

  lemma {:induction false} LockStepKeeps(env: Env, s: Store, s': Store, id: nat)
    requires Inv(env, s) && LockStep(s, s', id) && LocksOk(s')
    requires id in s'.tasks ==> TaskOk(env, s', s'.tasks[id])
    ensures Inv(env, s')
  {
    hide FilesOk, LocksOk, JobsOk, TasksOk, TaskOk, JobOk;
    FilesSame(env, s, s');
    FrameKeeps(env, s, s', id);
  }

  lemma {:induction false} UpWithTasks(env: Env, s: Store, id: nat)
    requires Inv(env, s) && id in s.tasks
    ensures s.up
  {
  }

  lemma {:induction false} FinishKeeps(env: Env, s: Store, s': Store, id: nat)
    requires Inv(env, s) && id in s.tasks && s.tasks[id] == Task({}, Unwinding(None))
    requires s' == s.(tasks := s.tasks - {id})
    ensures Inv(env, s')
  {
    hide FilesOk, PartsOk, JobsOk, TasksOk, TaskOk;
    UpWithTasks(env, s, id);
    LockStepKeeps(env, s, s', id);
  }

  lemma {:induction false} ReleaseLocks(s: Store, s': Store, id: nat, k: string)
    requires LocksOk(s) && id in s.tasks && k in s.tasks[id].locks
    requires s'.held == s.held - {k}
    requires s'.tasks == s.tasks[id := Task(s.tasks[id].locks - {k}, Unwinding(None))]
    ensures LocksOk(s')
  {
    forall i, j | i in s'.tasks && j in s'.tasks[i].locks ensures j in s'.held && s'.held[j] == i {
      assert i in s.tasks && j in s.tasks[i].locks;
      assert j in s.held && s.held[j] == i && s.held[k] == id;
      assert j != k;
    }
  }

  lemma {:induction false} ReleaseKeeps(env: Env, s: Store, s': Store, id: nat, k: string)
    requires Inv(env, s) && Next(env, s, s', Release(id, k))
    ensures Inv(env, s')
  {
    hide FilesOk, LocksOk, PartsOk, JobsOk, TasksOk;
    UpWithTasks(env, s, id);
    ReleaseLocks(s, s', id, k);
    LockStepKeeps(env, s, s', id);
  }

  lemma {:induction false} ArriveKeeps(env: Env, s: Store, s': Store, id: nat, pc: Pc)
    requires Inv(env, s) && Next(env, s, s', Arrive(id, pc))
    ensures Inv(env, s')
  {
    hide FilesOk, PartsOk, JobsOk, TasksOk, Advanced, Linked, Notified, Move, Wanted, Granted;
    LockStepKeeps(env, s, s', id);
  }

  lemma {:induction false} AcquireLocks(env: Env, s: Store, s': Store, id: nat)
    requires Inv(env, s) && Next(env, s, s', Acquire(id))
    ensures LocksOk(s') && forall k :: k in s.tasks[id].locks ==> Wanted(env, s.tasks[id].pc).value != k
  {
    hide FilesOk, PartsOk, JobsOk, TasksOk, Wanted, Granted, Advanced;
  }

  lemma {:induction false} AcquireKeeps(env: Env, s: Store, s': Store, id: nat)
    requires Inv(env, s) && Next(env, s, s', Acquire(id))
    ensures Inv(env, s')
  {
    hide Inv, LocksOk, Advanced, Linked, Notified, Move;
    UpWithTasks(env, s, id);
    TaskOkOf(env, s, id);
    AcquireLocks(env, s, s', id);
    LockStepKeeps(env, s, s', id);
  }

  // ---- The worker's link ----

  lemma {:induction false} LinkedFiles(env: Env, s: Store, s': Store, t: Target, content: Content)
    requires FilesOk(env, s) && Safe(env, s, t, content) && Absent(s, t)
    requires SameFiles(Linked(s, t, content), s')
    ensures FilesOk(env, s') && Grows(s.operations, s'.operations) && Grows(s.admissions, s'.admissions)
    ensures forall k :: k in s.data ==> k in s'.data
  {
    hide FilesOk, Matches, OperationKey, Key;
    match t {
      case OperationFile(o) => OperationAdded(env, s, s', o, content.a);
      case AdmissionFile(k) => AdmissionAdded(env, s, s', k, content.a);
      case DataFile(k) => DataAdded(env, s, s', k, content.bytes);
      case TombFile(k) => MarkAdded(env, s, s');
    }
  }

  lemma {:induction false} OperationAdded(env: Env, s: Store, s': Store, o: string, a: Admission)
    requires FilesOk(env, s) && o !in s.operations && OperationKey(env, a) == o
    requires SameFiles(s.(operations := s.operations[o := a]), s')
    ensures FilesOk(env, s')
  {
    hide Matches, OperationKey, Key;
  }

  lemma {:induction false} AdmissionAdded(env: Env, s: Store, s': Store, k: string, a: Admission)
    requires FilesOk(env, s) && k !in s.admissions && Key(env, a) == k && OperationKey(env, a) != k && Recorded(env, s, a)
    requires SameFiles(s.(admissions := s.admissions[k := a]), s')
    ensures FilesOk(env, s')
  {
    hide Matches, OperationKey, Key;
  }

  lemma {:induction false} DataAdded(env: Env, s: Store, s': Store, k: string, bytes: string)
    requires FilesOk(env, s) && k in s.admissions && Matches(env, s.admissions[k], bytes)
    requires SameFiles(s.(data := s.data[k := bytes]), s')
    ensures FilesOk(env, s')
  {
    hide Matches, OperationKey, Key;
  }

  lemma {:induction false} MarkAdded(env: Env, s: Store, s': Store)
    requires FilesOk(env, s) && SameFiles(s.(tombs := s'.tombs), s')
    ensures FilesOk(env, s')
  {
    hide Matches, OperationKey, Key;
  }

  /** The task that waits for this worker is the owner of the partial file, and no other is told. */
  lemma {:induction false} NotifiedOwner(env: Env, s: Store, id: nat, p: nat, good: bool, tasks: map<nat, Task>)
    requires Inv(env, s) && Owns(s, id, p) && p in s.jobs && Notified(s, p, good, tasks)
    ensures forall i :: i != id && i in s.tasks ==> tasks[i] == s.tasks[i]
    ensures id in tasks && tasks[id].locks == s.tasks[id].locks && PartOf(tasks[id].pc) == Some(p)
    ensures s.tasks[id].pc.Publishing? || s.tasks[id].pc.Unwinding?
    ensures !good ==> tasks[id].pc.Unwinding?
    ensures good && s.tasks[id].pc.Publishing? ==> tasks[id].pc == Dropping(p, s.tasks[id].pc.after)
    ensures s.tasks[id].pc.Unwinding? ==> tasks[id] == s.tasks[id]
  {
    hide Inv;
    OwnerPc(env, s, id, p);
    forall i | i != id && i in s.tasks ensures tasks[i] == s.tasks[i] { OtherPc(env, s, id, i, p); }
  }

  lemma {:induction false} OwnerPc(env: Env, s: Store, id: nat, p: nat)
    requires Inv(env, s) && Owns(s, id, p) && p in s.jobs
    ensures s.tasks[id].pc == Unwinding(Some(p)) || (s.tasks[id].pc.Publishing? && s.tasks[id].pc.p == p)
  {
    hide FilesOk, LocksOk, PartsOk, JobsOk, TasksOk, Promised, Delivered;
    TaskOkOf(env, s, id);
  }

  lemma {:induction false} OtherPc(env: Env, s: Store, id: nat, i: nat, p: nat)
    requires Inv(env, s) && Owns(s, id, p) && i != id && i in s.tasks
    ensures !(s.tasks[i].pc.Publishing? && s.tasks[i].pc.p == p)
  {
    hide FilesOk, LocksOk, JobsOk, TasksOk;
  }

  lemma {:induction false} LinkRefusedKeeps(env: Env, s: Store, s': Store, p: nat)
    requires Inv(env, s) && p in s.jobs && p in s.parts && Notified(s, p, false, s'.tasks)
    requires s' == s.(jobs := s.jobs - {p}, tasks := s'.tasks)
    ensures Inv(env, s')
  {
    hide FilesOk, LocksOk, TasksOk, Notified;
    assert JobOk(env, s, p);
    var id :| Owns(s, id, p) && LockFor(s.jobs[p]) in s.tasks[id].locks;
    NotifiedOwner(env, s, id, p, false, s'.tasks);
    assert s'.tasks.Keys == s.tasks.Keys by { NotifiedKeys(s, p, false, s'.tasks); }
    assert s'.tasks == s.tasks[id := s'.tasks[id]];
    LocalKeeps(env, s, s', id);
  }

  lemma {:induction false} NotifiedKeys(s: Store, p: nat, good: bool, tasks: map<nat, Task>)
    requires Notified(s, p, good, tasks)
    ensures tasks.Keys == s.tasks.Keys
  {
  }

  // ---- Steps of no task ----

  /** No task, lock or record changes, and no partial file that is in use. */
  ghost predicate Quiet(s: Store, s': Store) {
    && s'.tasks == s.tasks && s'.held == s.held && s'.up == s.up && s.nextPart <= s'.nextPart
    && s'.operations == s.operations && s'.admissions == s.admissions && s'.tombs == s.tombs
    && s'.removals <= s.removals
    && (forall k :: k in s.data && k !in s.tombs ==> k in s'.data)
    && (forall p :: p in s.parts ==> p in s'.parts && s'.parts[p] == s.parts[p])
    && (forall p :: p in s'.parts && p !in s.parts ==> s.nextPart <= p < s'.nextPart)
    && (forall p :: p in s'.jobs ==> p in s.jobs && s'.jobs[p] == s.jobs[p])
    && (forall p :: p in s.jobs && p in s.parts ==> p in s'.jobs)
  }

  /** Apart from a link that never was, a quiet step leaves the task all it relies on. */
  lemma {:induction false} QuietTask(env: Env, s: Store, s': Store, id: nat)
    requires PartsOk(s) && Quiet(s, s') && id in s.tasks && TaskOk(env, s, s.tasks[id])
    ensures TaskOk(env, s', s.tasks[id])
  {
    hide TaskOk;
    var t := s.tasks[id];
    if PartOf(t.pc).None? || SamePart(s, s', PartOf(t.pc).value) {
      TaskStays(env, s, s', t);
    } else {
      OrphanTask(env, s, s', t);
    }
  }

  lemma {:induction false} OrphanTask(env: Env, s: Store, s': Store, t: Task)
    requires Quiet(s, s') && TaskOk(env, s, t) && PartOf(t.pc).Some? && PartOf(t.pc).value < s.nextPart
    requires !SamePart(s, s', PartOf(t.pc).value)
    ensures TaskOk(env, s', t)
  {
    hide Promised, Delivered;
    assert PartOf(t.pc).value in s.jobs && PartOf(t.pc).value !in s.parts;
  }

  lemma {:induction false} QuietJob(env: Env, s: Store, s': Store, p: nat)
    requires PartsOk(s) && JobsOk(env, s) && Quiet(s, s') && p in s'.jobs && p in s'.parts
    ensures JobOk(env, s', p)
  {
    assert JobOk(env, s, p);
    var id :| Owns(s, id, p) && LockFor(s.jobs[p]) in s.tasks[id].locks;
    assert Owns(s', id, p);
  }

  lemma {:induction false} QuietKeeps(env: Env, s: Store, s': Store)
    requires Inv(env, s) && Quiet(s, s') && FilesOk(env, s')
    ensures Inv(env, s')
  {
    hide FilesOk, TaskOk, JobOk;
    forall id | id in s'.tasks ensures TaskOk(env, s', s'.tasks[id]) {
      QuietTask(env, s, s', id);
    }
    forall p | p in s'.jobs && p in s'.parts ensures JobOk(env, s', p) {
      QuietJob(env, s, s', p);
    }
  }

  /** Nobody waits for a worker whose partial file is gone. */
  lemma {:induction false} OrphanUnnoticed(env: Env, s: Store, p: nat, tasks: map<nat, Task>)
    requires Inv(env, s) && p !in s.parts && Notified(s, p, false, tasks)
    ensures tasks == s.tasks
  {
    hide FilesOk, LocksOk, PartsOk, JobsOk, TasksOk;
    forall id | id in s.tasks ensures tasks[id] == s.tasks[id] {
      TaskOkOf(env, s, id);
    }
  }

  lemma {:induction false} LinkOrphanKeeps(env: Env, s: Store, s': Store, p: nat)
    requires Inv(env, s) && p in s.jobs && p !in s.parts && Notified(s, p, false, s'.tasks)
    requires s' == s.(jobs := s.jobs - {p}, tasks := s'.tasks)
    ensures Inv(env, s')
  {
    hide FilesOk, LocksOk, PartsOk, JobsOk, TasksOk, Notified;
    OrphanUnnoticed(env, s, p, s'.tasks);
    FilesSame(env, s, s');
    QuietKeeps(env, s, s');
  }

  lemma {:induction false} EraseKeeps(env: Env, s: Store, s': Store, k: string)
    requires Inv(env, s) && Next(env, s, s', Erase(k))
    ensures Inv(env, s')
  {
    hide LocksOk, PartsOk, JobsOk, TasksOk, Matches, Advanced, Linked, Notified, Move, Wanted, Granted;
    QuietKeeps(env, s, s');
  }

  lemma {:induction false} DebrisKeeps(env: Env, s: Store, s': Store, content: Content)
    requires Inv(env, s) && Next(env, s, s', Debris(content))
    ensures Inv(env, s')
  {
    hide FilesOk, LocksOk, JobsOk, TasksOk, Advanced, Linked, Notified, Move, Wanted, Granted;
    FilesSame(env, s, s');
    QuietKeeps(env, s, s');
  }

  lemma {:induction false} DownKeeps(env: Env, s: Store, s': Store, step: Step)
    requires Inv(env, s) && (step.Crash? || step.Reap? || step.Start?) && Next(env, s, s', step)
    ensures Inv(env, s')
  {
    hide Next, FilesOk, PartsOk, TaskOk, JobOk;
    DownParts(env, s, s', step);
    FilesSame(env, s, s');
  }

  lemma {:induction false} DownParts(env: Env, s: Store, s': Store, step: Step)
    requires Inv(env, s) && (step.Crash? || step.Reap? || step.Start?) && Next(env, s, s', step)
    ensures PartsOk(s') && SameFiles(s, s') && s'.tasks == map[] && s'.jobs == map[] && s'.held == map[]
    ensures s'.removals <= s.removals
  {
    hide Inv, Next, PartsOk;
    DownRest(env, s);
    match step {
      case Crash => CrashParts(env, s, s');
      case Reap(p) => ReapParts(env, s, s', p);
      case Start => StartParts(env, s, s');
    }
  }

  lemma {:induction false} DownRest(env: Env, s: Store)
    requires Inv(env, s)
    ensures PartsOk(s) && (!s.up ==> s.tasks == map[] && s.jobs == map[] && s.held == map[])
  {
    hide FilesOk, LocksOk, PartsOk, JobsOk, TasksOk;
  }

  lemma {:induction false} CrashParts(env: Env, s: Store, s': Store)
    requires PartsOk(s) && Next(env, s, s', Crash)
    ensures PartsOk(s') && SameFiles(s, s') && s'.tasks == map[] && s'.jobs == map[] && s'.held == map[] && s'.removals == {}
  {
    hide Advanced, Linked, Notified, Move, Wanted, Granted;
  }

  lemma {:induction false} ReapParts(env: Env, s: Store, s': Store, p: nat)
    requires PartsOk(s) && Next(env, s, s', Reap(p))
    ensures PartsOk(s') && SameFiles(s, s') && s'.removals == s.removals && !s.up
    ensures s'.tasks == s.tasks && s'.jobs == s.jobs && s'.held == s.held
  {
    hide Advanced, Linked, Notified, Move, Wanted, Granted;
  }

  lemma {:induction false} StartParts(env: Env, s: Store, s': Store)
    requires PartsOk(s) && Next(env, s, s', Start)
    ensures PartsOk(s') && SameFiles(s, s') && s'.removals == s.removals && !s.up
    ensures s'.tasks == s.tasks && s'.jobs == s.jobs && s'.held == s.held
  {
    hide Advanced, Linked, Notified, Move, Wanted, Granted;
  }

  // ---- Links that take effect ----

  lemma {:induction false} LinkDoneFrame(env: Env, s: Store, s': Store, id: nat, p: nat, synced: bool)
    requires LinkDone(env, s, s', id, p, synced)
    ensures Frame(s, s', id)
  {
    hide FilesOk, LocksOk, JobsOk, TasksOk, TaskOk, Notified, LinkDone;
    LinkDoneParts(env, s, s', id, p, synced);
    NotifiedOwner(env, s, id, p, synced, s'.tasks);
    NotifiedKeys(s, p, synced, s'.tasks);
    LinkedFiles(env, s, s', s.jobs[p], s.parts[p]);
  }

  /** The worker of `p`, owned by `id`, links its file and reports back. */
  ghost predicate LinkDone(env: Env, s: Store, s': Store, id: nat, p: nat, synced: bool) {
    && Inv(env, s) && p in s.jobs && p in s.parts && Absent(s, s.jobs[p])
    && Owns(s, id, p) && LockFor(s.jobs[p]) in s.tasks[id].locks && Safe(env, s, s.jobs[p], s.parts[p])
    && Notified(s, p, synced, s'.tasks)
    && s' == Linked(s, s.jobs[p], s.parts[p]).(jobs := s.jobs - {p}, tasks := s'.tasks)
  }

  lemma {:induction false} LinkDoneParts(env: Env, s: Store, s': Store, id: nat, p: nat, synced: bool)
    requires LinkDone(env, s, s', id, p, synced)
    ensures Inv(env, s) && p in s.jobs && p in s.parts && Absent(s, s.jobs[p]) && Owns(s, id, p)
    ensures Safe(env, s, s.jobs[p], s.parts[p]) && Notified(s, p, synced, s'.tasks)
    ensures s'.parts == s.parts && s'.jobs == s.jobs - {p} && s'.held == s.held && s'.up == s.up
    ensures s'.removals == s.removals && s'.nextPart == s.nextPart
    ensures SameFiles(Linked(s, s.jobs[p], s.parts[p]), s')
    ensures s.tombs <= s'.tombs <= s.tombs + s.tasks[id].locks
  {
    hide FilesOk, LocksOk, PartsOk, JobsOk, TasksOk, TaskOk, Notified, Linked, Safe, Absent;
    LinkedRest(s, s.jobs[p], s.parts[p]);
  }

  lemma {:induction false} LinkedRest(s: Store, t: Target, content: Content)
    ensures var l := Linked(s, t, content);
            && l.parts == s.parts && l.jobs == s.jobs && l.held == s.held && l.up == s.up && l.removals == s.removals
            && l.nextPart == s.nextPart && s.tombs <= l.tombs <= s.tombs + {LockFor(t)}
  {
  }

  /** What the owner learns from a good link is true: its record is there, its bytes are, its mark is. */
  lemma {:induction false} LinkDelivers(env: Env, s: Store, s': Store, t: Task, target: Target, content: Content,
                                        after: After)
    requires Promised(env, s, t, target, content, after) && SameFiles(Linked(s, target, content), s')
    ensures Delivered(env, s', t, after)
  {
    hide OperationKey, Key;
  }

  lemma {:induction false} LinkDoneTask(env: Env, s: Store, s': Store, id: nat, p: nat, synced: bool)
    requires LinkDone(env, s, s', id, p, synced) && id in s'.tasks
    ensures TaskOk(env, s', s'.tasks[id])
  {
    hide Inv, Notified, Linked, Safe, Absent, Promised, Delivered;
    TaskOkOf(env, s, id);
    NotifiedOwner(env, s, id, p, synced, s'.tasks);
    var t := s.tasks[id];
    if t.pc.Publishing? && synced {
      LinkDelivers(env, s, s', t, s.jobs[p], s.parts[p], t.pc.after);
      DeliveredSameLocks(env, s', t, s'.tasks[id], t.pc.after);
    }
  }

  lemma {:induction false} DeliveredSameLocks(env: Env, s: Store, t: Task, t': Task, after: After)
    requires Delivered(env, s, t, after) && t'.locks == t.locks
    ensures Delivered(env, s, t', after)
  {
  }

  lemma {:induction false} LinkDoneKeeps(env: Env, s: Store, s': Store, id: nat, p: nat, synced: bool)
    requires LinkDone(env, s, s', id, p, synced)
    ensures Inv(env, s')
  {
    hide FilesOk, JobsOk, TasksOk, TaskOk, JobOk, Notified, LinkDone, Frame;
    LinkDoneParts(env, s, s', id, p, synced);
    NotifiedOwner(env, s, id, p, synced, s'.tasks);
    NotifiedKeys(s, p, synced, s'.tasks);
    LinkedFiles(env, s, s', s.jobs[p], s.parts[p]);
    LinkDoneTask(env, s, s', id, p, synced);
    LinkDoneFrame(env, s, s', id, p, synced);
    FrameKeeps(env, s, s', id);
  }
}
