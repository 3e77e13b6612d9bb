/** The opaque custody store as interleaved requests over write-once files.

    A request is a task with a program counter; every file operation is one step, so any two requests
    interleave between any two file operations. Publishing hands the link to a detached worker: when the
    request is dropped meanwhile, the worker still runs, after or before the request removes its partial
    file. A crash loses every task, lock and worker and keeps the files. */
module CustodyStore {
  import opened Base

  /** The fields of an accepted admission that are compared, stored and checked. */
  datatype Admission = Admission(operation: string, objectId: string, contentHash: string, byteLength: nat,
                                 expiresAt: string, contentType: string)

  /** `digest` renders the content hash of some bytes, `objectKey` the file name stem of an identifier. */
  datatype Env = Env(digest: string -> string, objectKey: string -> string)

  function OperationKey(env: Env, a: Admission): string { env.objectKey("operation:" + a.operation) }

  function Key(env: Env, a: Admission): string { env.objectKey(a.objectId) }

  predicate Matches(env: Env, a: Admission, bytes: string) {
    |bytes| == a.byteLength && env.digest(bytes) == a.contentHash
  }

  /** What a partial file holds, and where a worker is to link it. */
  datatype Content = Record(a: Admission) | Bytes(bytes: string) | Mark
  datatype Target = OperationFile(o: string) | AdmissionFile(k: string) | DataFile(k: string) | TombFile(k: string)

  /** The lock under which a file name may be linked. */
  function LockFor(t: Target): string {
    match t
    case OperationFile(o) => o
    case AdmissionFile(k) => k
    case DataFile(k) => k
    case TombFile(k) => k
  }

  /** What a request does after its publication has succeeded. */
  datatype After = ThenAdmission(a: Admission) | ThenAdmitted(a: Admission) | ThenCreated(k: string) | ThenErase(k: string)

  datatype Pc =
    | AdmitWait(a: Admission)
    | AdmitHalf(a: Admission)
    | AdmitRead(a: Admission)
    | AdmitRecord(a: Admission)
    | AdmitRecorded(a: Admission)
    | AdmitUnmarked(a: Admission)
    | AdmitBind(a: Admission)
    | PutWait(k: string)
    | PutCheck(k: string)
    | PutUnmarked(k: string)
    | PutAdmitted(k: string, a: Admission)
    | PutStream(k: string, a: Admission, p: nat)
    | ReclaimWait(k: string)
    | ReclaimCheck(k: string)
    | ReclaimMark(k: string)
    | ReclaimErase(k: string)
    | ReclaimDone(k: string)
    | ReadWait(k: string, receipt: bool)
    | ReadCheck(k: string, receipt: bool)
    | ReadUnmarked(k: string, receipt: bool)
    | ReadAdmitted(k: string, receipt: bool, a: Admission)
    | Publishing(p: nat, target: Target, after: After)
    | Dropping(p: nat, after: After)
    | Unwinding(left: Option<nat>)

  datatype Task = Task(locks: set<string>, pc: Pc)

  /** What clients get to see: an upload granted, an upload stored, bytes opened for download, a receipt
      issued over re-read bytes, an object reclaimed. */
  datatype Reply =
    | Admitted(k: string, a: Admission)
    | Created(k: string)
    | Served(k: string, bytes: string)
    | Receipt(k: string, a: Admission, bytes: string)
    | Reclaimed(k: string)

  datatype Store = Store(
    operations: map<string, Admission>,
    admissions: map<string, Admission>,
    data: map<string, string>,
    tombs: set<string>,
    parts: map<nat, Content>,
    jobs: map<nat, Target>,
    removals: set<string>,
    held: map<string, nat>,
    tasks: map<nat, Task>,
    nextPart: nat,
    up: bool,
    replies: seq<Reply>)

  const FRESH: Store := Store(map[], map[], map[], {}, map[], map[], {}, map[], map[], 0, true, [])

  function PartOf(pc: Pc): Option<nat> {
    match pc
    case PutStream(_, _, p) => Some(p)
    case Publishing(p, _, _) => Some(p)
    case Dropping(p, _) => Some(p)
    case Unwinding(left) => left
    case _ => None
  }

  // ---- Steps ----

  datatype Step =
    | Arrive(id: nat, pc: Pc)
    | Acquire(id: nat)
    | Advance(id: nat)
    | Chunk(id: nat, bytes: string)
    | Link(p: nat, synced: bool)
    | Erase(k: string)
    | Cancel(id: nat)
    | Release(id: nat, k: string)
    | Debris(content: Content)
    | Crash
    | Reap(p: nat)
    | Start

  function Wanted(env: Env, pc: Pc): Option<string> {
    match pc
    case AdmitWait(a) => Some(OperationKey(env, a))
    case AdmitHalf(a) => Some(Key(env, a))
    case PutWait(k) => Some(k)
    case ReclaimWait(k) => Some(k)
    case ReadWait(k, _) => Some(k)
    case _ => None
  }

  function Granted(pc: Pc): Pc {
    match pc
    case AdmitWait(a) => AdmitHalf(a)
    case AdmitHalf(a) => AdmitRead(a)
    case PutWait(k) => PutCheck(k)
    case ReclaimWait(k) => ReclaimCheck(k)
    case ReadWait(k, receipt) => ReadCheck(k, receipt)
    case _ => pc
  }

  predicate Initial(pc: Pc) { pc.AdmitWait? || pc.PutWait? || pc.ReclaimWait? || pc.ReadWait? }

  predicate Absent(s: Store, t: Target) {
    match t
    case OperationFile(o) => o !in s.operations
    case AdmissionFile(k) => k !in s.admissions
    case DataFile(k) => k !in s.data
    case TombFile(k) => k !in s.tombs
  }

  /** Link-if-absent of a content that fits the target. */
  function Linked(s: Store, t: Target, content: Content): Store {
    match t
    case OperationFile(o) => if content.Record? then s.(operations := s.operations[o := content.a]) else s
    case AdmissionFile(k) => if content.Record? then s.(admissions := s.admissions[k := content.a]) else s
    case DataFile(k) => if content.Bytes? then s.(data := s.data[k := content.bytes]) else s
    case TombFile(k) => if content.Mark? then s.(tombs := s.tombs + {k}) else s
  }

  function Move(s: Store, id: nat, pc: Pc): Store
    requires id in s.tasks
  {
    s.(tasks := s.tasks[id := Task(s.tasks[id].locks, pc)])
  }

  /** Writes and syncs a partial file and hands its link to a worker. */
  function Publish(s: Store, id: nat, content: Content, target: Target, after: After): Store
    requires id in s.tasks
  {
    Move(s, id, Publishing(s.nextPart, target, after))
      .(parts := s.parts[s.nextPart := content], jobs := s.jobs[s.nextPart := target], nextPart := s.nextPart + 1)
  }

  function Resume(after: After): Pc {
    match after
    case ThenAdmission(a) => AdmitRecorded(a)
    case ThenAdmitted(_) => Unwinding(None)
    case ThenCreated(_) => Unwinding(None)
    case ThenErase(k) => ReclaimErase(k)
  }

  /** What the client is told once the publication has succeeded. */
  function Answer(env: Env, after: After): seq<Reply> {
    match after
    case ThenAdmitted(a) => [Admitted(Key(env, a), a)]
    case ThenCreated(k) => [Created(k)]
    case _ => []
  }

  function Tell(s: Store, id: nat, r: Reply): Store
    requires id in s.tasks
  {
    Move(s, id, Unwinding(None)).(replies := s.replies + [r])
  }

  /** The next file operation of a task, or its cleanup. */
  function Advanced(env: Env, s: Store, id: nat): Store
    requires id in s.tasks
  {
    match s.tasks[id].pc
    case AdmitRead(a) =>
      var o := OperationKey(env, a);
      if o !in s.operations then Move(s, id, AdmitRecord(a))
      else if s.operations[o] == a then Move(s, id, AdmitRecorded(a))
      else Move(s, id, Unwinding(None))
    case AdmitRecord(a) =>
      Publish(s, id, Record(a), OperationFile(OperationKey(env, a)), ThenAdmission(a))
    case AdmitRecorded(a) =>
      Move(s, id, if Key(env, a) in s.tombs then Unwinding(None) else AdmitUnmarked(a))
    case AdmitUnmarked(a) =>
      if Key(env, a) !in s.admissions then Move(s, id, AdmitBind(a))
      else if s.admissions[Key(env, a)] == a then Tell(s, id, Admitted(Key(env, a), a))
      else Move(s, id, Unwinding(None))
    case AdmitBind(a) =>
      Publish(s, id, Record(a), AdmissionFile(Key(env, a)), ThenAdmitted(a))
    case PutCheck(k) =>
      Move(s, id, if k in s.tombs then Unwinding(None) else PutUnmarked(k))
    case PutUnmarked(k) =>
      Move(s, id, if k in s.admissions then PutAdmitted(k, s.admissions[k]) else Unwinding(None))
    case PutAdmitted(k, a) =>
      if k in s.data then Move(s, id, Unwinding(None))
      else Move(s, id, PutStream(k, a, s.nextPart))
             .(parts := s.parts[s.nextPart := Bytes("")], nextPart := s.nextPart + 1)
    case PutStream(k, a, p) =>
      if p in s.parts && s.parts[p].Bytes? && Matches(env, a, s.parts[p].bytes)
      then Move(s, id, Publishing(p, DataFile(k), ThenCreated(k))).(jobs := s.jobs[p := DataFile(k)])
      else Move(s, id, Unwinding(Some(p)))
    case ReclaimCheck(k) =>
      Move(s, id, if k in s.tombs then ReclaimErase(k) else ReclaimMark(k))
    case ReclaimMark(k) =>
      Publish(s, id, Mark, TombFile(k), ThenErase(k))
    case ReclaimErase(k) =>
      Move(s, id, ReclaimDone(k)).(removals := s.removals + {k})
    case ReclaimDone(k) =>
      if k in s.data then s else Tell(s, id, Reclaimed(k))
    case ReadCheck(k, receipt) =>
      Move(s, id, if k in s.tombs then Unwinding(None) else ReadUnmarked(k, receipt))
    case ReadUnmarked(k, receipt) =>
      Move(s, id, if k in s.admissions then ReadAdmitted(k, receipt, s.admissions[k]) else Unwinding(None))
    case ReadAdmitted(k, receipt, a) =>
      if k in s.data && |s.data[k]| == a.byteLength && (receipt ==> env.digest(s.data[k]) == a.contentHash)
      then Tell(s, id, if receipt then Receipt(k, a, s.data[k]) else Served(k, s.data[k]))
      else Move(s, id, Unwinding(None))
    case Dropping(p, after) =>
      Move(s, id, Resume(after)).(parts := s.parts - {p}, replies := s.replies + Answer(env, after))
    case Unwinding(Some(p)) =>
      Move(s, id, Unwinding(None)).(parts := s.parts - {p})
    case Unwinding(None) =>
      if s.tasks[id].locks == {} then s.(tasks := s.tasks - {id}) else s
    case _ => s
  }

  /** The task waiting for the worker of part `p`, told how the link went. */
  ghost predicate Notified(s: Store, p: nat, good: bool, tasks: map<nat, Task>) {
    && tasks.Keys == s.tasks.Keys
    && forall id :: id in s.tasks ==>
         tasks[id] == (if s.tasks[id].pc.Publishing? && s.tasks[id].pc.p == p
                       then Task(s.tasks[id].locks,
                                 if good then Dropping(p, s.tasks[id].pc.after) else Unwinding(Some(p)))
                       else s.tasks[id])
  }

  ghost predicate Next(env: Env, s: Store, s': Store, step: Step) {
    match step
    case Arrive(id, pc) =>
      s.up && id !in s.tasks && Initial(pc) && s' == s.(tasks := s.tasks[id := Task({}, pc)])
    case Acquire(id) =>
      && id in s.tasks
      && Wanted(env, s.tasks[id].pc).Some? && Wanted(env, s.tasks[id].pc).value !in s.held
      && s' == s.(held := s.held[Wanted(env, s.tasks[id].pc).value := id],
                  tasks := s.tasks[id := Task(s.tasks[id].locks + {Wanted(env, s.tasks[id].pc).value},
                                              Granted(s.tasks[id].pc))])
    case Advance(id) => id in s.tasks && s' == Advanced(env, s, id)
    case Chunk(id, bytes) =>
      && id in s.tasks && s.tasks[id].pc.PutStream?
      && s.tasks[id].pc.p in s.parts && s.parts[s.tasks[id].pc.p].Bytes?
      && s' == (if |s.parts[s.tasks[id].pc.p].bytes| + |bytes| > s.tasks[id].pc.a.byteLength
                then Move(s, id, Unwinding(Some(s.tasks[id].pc.p)))
                else s.(parts := s.parts[s.tasks[id].pc.p := Bytes(s.parts[s.tasks[id].pc.p].bytes + bytes)]))
    case Link(p, synced) =>
      && p in s.jobs
      && (p in s.parts && Absent(s, s.jobs[p]) ==>
            exists tasks :: Notified(s, p, synced, tasks)
                            && s' == Linked(s, s.jobs[p], s.parts[p]).(jobs := s.jobs - {p}, tasks := tasks))
      && (!(p in s.parts && Absent(s, s.jobs[p])) ==>
            exists tasks :: Notified(s, p, false, tasks) && s' == s.(jobs := s.jobs - {p}, tasks := tasks))
    case Erase(k) =>
      k in s.removals && s' == s.(data := s.data - {k}, removals := s.removals - {k})
    case Cancel(id) => id in s.tasks && s' == Move(s, id, Unwinding(PartOf(s.tasks[id].pc)))
    case Release(id, k) =>
      && id in s.tasks && s.tasks[id].pc == Unwinding(None) && k in s.tasks[id].locks
      && s' == s.(held := s.held - {k}, tasks := s.tasks[id := Task(s.tasks[id].locks - {k}, Unwinding(None))])
    case Debris(content) =>
      s' == s.(parts := s.parts[s.nextPart := content], nextPart := s.nextPart + 1)
    case Crash =>
      s' == s.(jobs := map[], removals := {}, held := map[], tasks := map[], up := false)
    case Reap(p) => !s.up && s' == s.(parts := s.parts - {p})
    case Start => !s.up && s.parts == map[] && s' == s.(up := true)
  }
}
