/** What the custody store can still do for a client, from any reachable state: store a body, serve or certify
    it, reclaim it. Each is possible exactly when the published files allow it. */
module CustodyService {
  import opened Base
  import opened CustodyStore
  import opened CustodyInvariant
  import opened CustodyRuns
  import opened CustodyLaws
  import opened CustodySessions

  // ---- Uploads ----

  /** This run confirms an upload of `k`, and the bytes are there. */
  ghost predicate Uploads(env: Env, s: Store, steps: seq<Step>, t: Store, k: string, bytes: string) {
    && Leads(env, s, steps, t) && s.replies <= t.replies && Created(k) in t.replies[|s.replies|..]
    && k in t.data && t.data[k] == bytes
  }

  /** The name is free of bytes and of a mark, and is or can be bound to an admission that these bytes match. */
  ghost predicate Storable(env: Env, s: Store, k: string, bytes: string) {
    && k !in s.tombs && k !in s.data
    && exists a :: Key(env, a) == k && Admissible(env, s, a) && Matches(env, a, bytes)
  }

  /** A request has linked its bytes and is about to confirm them. */
  predicate Confirming(s: Store, id: nat, k: string) {
    id in s.tasks && s.tasks[id].pc.Dropping? && s.tasks[id].pc.after == ThenCreated(k)
  }

  ghost predicate Confirms(s: Store, k: string) { exists id :: Confirming(s, id, k) }

  // ---- A name that can be used is used ----

  /** From any state, a storable body ends up stored. */
  lemma {:induction false} Stores(env: Env, s: Store, k: string, bytes: string) returns (steps: seq<Step>, t: Store)
    requires Storable(env, s, k, bytes)
    ensures Uploads(env, s, steps, t, k, bytes) && Idle(t) && t.tombs == s.tombs
    ensures k in t.admissions && Matches(env, t.admissions[k], bytes)
  {
    hide Leads, OperationKey, Key, Matches;
    var a :| Key(env, a) == k && Admissible(env, s, a) && Matches(env, a, bytes);
    var restart, idle := Restart(env, s);
    var admit, m := AdmitSession(env, idle, a);
    Then(env, s, restart, idle, admit, m);
    assert Flatten([bytes]) == bytes;
    var put: seq<Step>;
    put, t := PutSession(env, m, k, [bytes]);
    Then(env, s, restart + admit, m, put, t);
    steps := restart + admit + put;
    assert t.replies[|s.replies|..] == [Admitted(k, a), Created(k)];
  }

  lemma {:induction false} Confirmed(env: Env, s: Store, k: string) returns (steps: seq<Step>, t: Store)
    requires Inv(env, s) && Confirms(s, k)
    ensures k in s.data && k !in s.tombs && Uploads(env, s, steps, t, k, s.data[k])
  {
    hide Leads, Inv;
    var id :| Confirming(s, id, k);
    TaskOkOf(env, s, id);
    t := Advanced(env, s, id);
    One(env, s, Advance(id), t);
    steps := [Advance(id)];
    assert t.replies[|s.replies|..] == [Created(k)];
  }

  // ---- A name that cannot be used stays so ----

  /** Task `id` moved to a point that does not confirm an upload, or left. */
  ghost predicate Calm(s: Store, s': Store, id: nat) {
    id in s.tasks
    && (|| s'.tasks == s.tasks
        || s'.tasks == s.tasks - {id}
        || (id in s'.tasks && !s'.tasks[id].pc.Dropping? && s'.tasks == s.tasks[id := s'.tasks[id]]))
  }

  lemma {:induction false} CalmConfirms(s: Store, s': Store, id: nat, k: string)
    requires Calm(s, s', id) && !Confirms(s, k)
    ensures !Confirms(s', k)
  {
    if Confirms(s', k) {
      var i :| Confirming(s', i, k);
      assert Confirming(s, i, k);
    }
  }

  lemma {:induction false} MoveCalm(s: Store, s': Store, id: nat, pc: Pc)
    requires id in s.tasks && !pc.Dropping? && s'.tasks == Move(s, id, pc).tasks
    ensures Calm(s, s', id)
  {
  }

  lemma {:induction false} PublishCalm(s: Store, id: nat, content: Content, target: Target, after: After)
    requires id in s.tasks
    ensures Calm(s, Publish(s, id, content, target, after), id)
  {
    hide Move, Calm;
    MoveCalm(s, Publish(s, id, content, target, after), id, Publishing(s.nextPart, target, after));
  }

  lemma {:induction false} TellCalm(s: Store, id: nat, r: Reply)
    requires id in s.tasks
    ensures Calm(s, Tell(s, id, r), id)
  {
    hide Move, Calm;
    MoveCalm(s, Tell(s, id, r), id, Unwinding(None));
  }

  lemma {:induction false} AdmitCalm(env: Env, s: Store, id: nat)
    requires id in s.tasks
    requires match s.tasks[id].pc case AdmitRead(_) => true case AdmitRecord(_) => true case AdmitRecorded(_) => true
             case AdmitUnmarked(_) => true case AdmitBind(_) => true case _ => false
    ensures Calm(s, Advanced(env, s, id), id)
  {
    hide OperationKey, Key, Matches, Move, Publish, Tell, Calm;
    MoveCalm(s, Move(s, id, Unwinding(None)), id, Unwinding(None));
    match s.tasks[id].pc {
      case AdmitRead(a) =>
        MoveCalm(s, Move(s, id, AdmitRecord(a)), id, AdmitRecord(a));
        MoveCalm(s, Move(s, id, AdmitRecorded(a)), id, AdmitRecorded(a));
      case AdmitRecord(a) => PublishCalm(s, id, Record(a), OperationFile(OperationKey(env, a)), ThenAdmission(a));
      case AdmitRecorded(a) => MoveCalm(s, Move(s, id, AdmitUnmarked(a)), id, AdmitUnmarked(a));
      case AdmitUnmarked(a) =>
        MoveCalm(s, Move(s, id, AdmitBind(a)), id, AdmitBind(a));
        TellCalm(s, id, Admitted(Key(env, a), a));
      case AdmitBind(a) => PublishCalm(s, id, Record(a), AdmissionFile(Key(env, a)), ThenAdmitted(a));
    }
  }

  lemma {:induction false} PutCalm(env: Env, s: Store, id: nat)
    requires id in s.tasks
    requires match s.tasks[id].pc case PutCheck(_) => true case PutUnmarked(_) => true case PutAdmitted(_, _) => true
             case PutStream(_, _, _) => true case _ => false
    ensures Calm(s, Advanced(env, s, id), id)
  {
    hide Matches, Move, Calm;
    var s' := Advanced(env, s, id);
    match s.tasks[id].pc {
      case PutCheck(k) => MoveCalm(s, s', id, if k in s.tombs then Unwinding(None) else PutUnmarked(k));
      case PutUnmarked(k) =>
        MoveCalm(s, s', id, if k in s.admissions then PutAdmitted(k, s.admissions[k]) else Unwinding(None));
      case PutAdmitted(k, a) =>
        MoveCalm(s, s', id, if k in s.data then Unwinding(None) else PutStream(k, a, s.nextPart));
      case PutStream(k, a, p) =>
        MoveCalm(s, s', id, if p in s.parts && s.parts[p].Bytes? && Matches(env, a, s.parts[p].bytes)
                            then Publishing(p, DataFile(k), ThenCreated(k)) else Unwinding(Some(p)));
    }
  }

  lemma {:induction false} ReclaimCalm(env: Env, s: Store, id: nat)
    requires id in s.tasks
    requires match s.tasks[id].pc case ReclaimCheck(_) => true case ReclaimMark(_) => true case ReclaimErase(_) => true
             case ReclaimDone(_) => true case _ => false
    ensures Calm(s, Advanced(env, s, id), id)
  {
    hide Move, Publish, Tell, Calm;
    var s' := Advanced(env, s, id);
    match s.tasks[id].pc {
      case ReclaimCheck(k) => MoveCalm(s, s', id, if k in s.tombs then ReclaimErase(k) else ReclaimMark(k));
      case ReclaimMark(k) => PublishCalm(s, id, Mark, TombFile(k), ThenErase(k));
      case ReclaimErase(k) => MoveCalm(s, s', id, ReclaimDone(k));
      case ReclaimDone(k) => if k in s.data { SameCalm(s, s', id); } else { TellCalm(s, id, Reclaimed(k)); }
    }
  }

  lemma {:induction false} ReadCalm(env: Env, s: Store, id: nat)
    requires id in s.tasks
    requires match s.tasks[id].pc case ReadCheck(_, _) => true case ReadUnmarked(_, _) => true
             case ReadAdmitted(_, _, _) => true case _ => false
    ensures Calm(s, Advanced(env, s, id), id)
  {
    hide Move, Tell, Calm;
    var s' := Advanced(env, s, id);
    match s.tasks[id].pc {
      case ReadCheck(k, receipt) => MoveCalm(s, s', id, if k in s.tombs then Unwinding(None) else ReadUnmarked(k, receipt));
      case ReadUnmarked(k, receipt) =>
        MoveCalm(s, s', id, if k in s.admissions then ReadAdmitted(k, receipt, s.admissions[k]) else Unwinding(None));
      case ReadAdmitted(k, receipt, a) =>
        if s' == Move(s, id, Unwinding(None)) {
          MoveCalm(s, s', id, Unwinding(None));
        } else {
          TellCalm(s, id, if receipt then Receipt(k, a, s.data[k]) else Served(k, s.data[k]));
        }
    }
  }

  lemma {:induction false} LeaveCalm(env: Env, s: Store, id: nat)
    requires id in s.tasks && (s.tasks[id].pc.Dropping? || s.tasks[id].pc.Unwinding?)
    ensures Calm(s, Advanced(env, s, id), id)
  {
    hide Move, Calm;
    var s' := Advanced(env, s, id);
    match s.tasks[id].pc {
      case Dropping(p, after) => MoveCalm(s, s', id, Resume(after));
      case Unwinding(Some(p)) => MoveCalm(s, s', id, Unwinding(None));
      case Unwinding(None) => if s.tasks[id].locks == {} { GoneCalm(s, s', id); } else { SameCalm(s, s', id); }
    }
  }

  lemma {:induction false} GoneCalm(s: Store, s': Store, id: nat)
    requires id in s.tasks && s'.tasks == s.tasks - {id}
    ensures Calm(s, s', id)
  {
  }

  lemma {:induction false} AdvanceCalm(env: Env, s: Store, id: nat)
    requires id in s.tasks
    ensures Calm(s, Advanced(env, s, id), id)
  {
    hide OperationKey, Key, Matches, Move, Publish, Tell, Calm;
    match s.tasks[id].pc {
      case AdmitRead(_) => AdmitCalm(env, s, id);
      case AdmitRecord(_) => AdmitCalm(env, s, id);
      case AdmitRecorded(_) => AdmitCalm(env, s, id);
      case AdmitUnmarked(_) => AdmitCalm(env, s, id);
      case AdmitBind(_) => AdmitCalm(env, s, id);
      case PutCheck(_) => PutCalm(env, s, id);
      case PutUnmarked(_) => PutCalm(env, s, id);
      case PutAdmitted(_, _) => PutCalm(env, s, id);
      case PutStream(_, _, _) => PutCalm(env, s, id);
      case Dropping(_, _) => LeaveCalm(env, s, id);
      case Unwinding(_) => LeaveCalm(env, s, id);
      case ReclaimCheck(_) => ReclaimCalm(env, s, id);
      case ReclaimMark(_) => ReclaimCalm(env, s, id);
      case ReclaimErase(_) => ReclaimCalm(env, s, id);
      case ReclaimDone(_) => ReclaimCalm(env, s, id);
      case ReadCheck(_, _) => ReadCalm(env, s, id);
      case ReadUnmarked(_, _) => ReadCalm(env, s, id);
      case ReadAdmitted(_, _, _) => ReadCalm(env, s, id);
      case _ => SameCalm(s, s, id);
    }
  }

  lemma {:induction false} SameCalm(s: Store, s': Store, id: nat)
    requires id in s.tasks && s'.tasks == s.tasks
    ensures Calm(s, s', id)
  {
  }

  /** A worker's task is told of a link only when the name was free. */
  lemma {:induction false} LinkConfirms(env: Env, s: Store, s': Store, p: nat, synced: bool, k: string)
    requires Inv(env, s) && Next(env, s, s', Link(p, synced)) && k in s.data && !Confirms(s, k)
    ensures !Confirms(s', k)
  {
    hide FilesOk, LocksOk, PartsOk, JobsOk, RestOk, Safe, Linked, Advanced, Delivered;
    forall i | Confirming(s', i, k) ensures Confirming(s, i, k) { TaskOkOf(env, s, i); }
  }

  lemma {:induction false} OtherConfirms(env: Env, s: Store, s': Store, step: Step, k: string)
    requires Next(env, s, s', step) && !step.Link? && !Confirms(s, k)
    ensures !Confirms(s', k)
  {
    hide Advanced, Linked, Notified, Calm, Confirms, Wanted;
    match step {
      case Arrive(id, pc) => ArriveConfirms(s, s', id, pc, k);
      case Acquire(id) => AcquireCalm(env, s, s', id); CalmConfirms(s, s', id, k);
      case Advance(id) => AdvanceCalm(env, s, id); CalmConfirms(s, s', id, k);
      case Chunk(id, bytes) => ChunkCalm(env, s, s', id, bytes); CalmConfirms(s, s', id, k);
      case Cancel(id) =>
        MoveCalm(s, s', id, Unwinding(PartOf(s.tasks[id].pc)));
        CalmConfirms(s, s', id, k);
      case Release(id, j) => ReleaseCalm(env, s, s', id, j); CalmConfirms(s, s', id, k);
      case _ => NoTaskConfirms(s, s', k);
    }
  }

  lemma {:induction false} ArriveConfirms(s: Store, s': Store, id: nat, pc: Pc, k: string)
    requires Initial(pc) && s'.tasks == s.tasks[id := Task({}, pc)] && !Confirms(s, k)
    ensures !Confirms(s', k)
  {
    forall i | Confirming(s', i, k) ensures Confirming(s, i, k) {}
  }

  lemma {:induction false} NoTaskConfirms(s: Store, s': Store, k: string)
    requires (s'.tasks == s.tasks || s'.tasks == map[]) && !Confirms(s, k)
    ensures !Confirms(s', k)
  {
    forall i | Confirming(s', i, k) ensures Confirming(s, i, k) {}
  }

  lemma {:induction false} AcquireCalm(env: Env, s: Store, s': Store, id: nat)
    requires Next(env, s, s', Acquire(id))
    ensures Calm(s, s', id)
  {
    hide Advanced, Linked, Notified, OperationKey, Key;
  }

  lemma {:induction false} ChunkCalm(env: Env, s: Store, s': Store, id: nat, bytes: string)
    requires Next(env, s, s', Chunk(id, bytes))
    ensures Calm(s, s', id)
  {
    hide Advanced, Linked, Notified, Move, Calm;
    if |s.parts[s.tasks[id].pc.p].bytes| + |bytes| > s.tasks[id].pc.a.byteLength {
      MoveCalm(s, s', id, Unwinding(Some(s.tasks[id].pc.p)));
    } else {
      SameCalm(s, s', id);
    }
  }

  lemma {:induction false} ReleaseCalm(env: Env, s: Store, s': Store, id: nat, k: string)
    requires Next(env, s, s', Release(id, k))
    ensures Calm(s, s', id)
  {
    hide Advanced, Linked, Notified;
  }

  /** Only a request that was about to confirm confirms. */
  lemma {:induction false} AdvanceTells(env: Env, s: Store, id: nat, k: string)
    requires id in s.tasks && !Confirming(s, id, k)
    ensures s.replies <= Advanced(env, s, id).replies
    ensures Created(k) !in Advanced(env, s, id).replies[|s.replies|..]
  {
    hide Move, Publish, OperationKey, Key, Matches;
    var s' := Advanced(env, s, id);
    match s.tasks[id].pc {
      case AdmitUnmarked(_) => OtherTells(env, s, id, k);
      case ReclaimDone(_) => OtherTells(env, s, id, k);
      case ReadAdmitted(_, _, _) => OtherTells(env, s, id, k);
      case Dropping(_, after) => DropTells(env, s, id, k);
      case _ => AdvanceMute(env, s, id);
    }
  }

  lemma {:induction false} OtherTells(env: Env, s: Store, id: nat, k: string)
    requires id in s.tasks
    requires s.tasks[id].pc.AdmitUnmarked? || s.tasks[id].pc.ReclaimDone? || s.tasks[id].pc.ReadAdmitted?
    ensures s.replies <= Advanced(env, s, id).replies
    ensures Created(k) !in Advanced(env, s, id).replies[|s.replies|..]
  {
    hide OperationKey, Key, Matches, Move, Mute;
    match s.tasks[id].pc {
      case AdmitUnmarked(a) => MoveTells(s, id, AdmitBind(a)); MoveTells(s, id, Unwinding(None));
      case ReclaimDone(_) => MoveTells(s, id, Unwinding(None));
      case ReadAdmitted(_, _, _) => MoveTells(s, id, Unwinding(None));
    }
  }

  lemma {:induction false} MoveTells(s: Store, id: nat, pc: Pc)
    requires id in s.tasks
    ensures Move(s, id, pc).replies == s.replies
  {
  }

  lemma {:induction false} DropTells(env: Env, s: Store, id: nat, k: string)
    requires id in s.tasks && s.tasks[id].pc.Dropping? && s.tasks[id].pc.after != ThenCreated(k)
    ensures s.replies <= Advanced(env, s, id).replies
    ensures Created(k) !in Advanced(env, s, id).replies[|s.replies|..]
  {
    hide OperationKey, Key, Matches;
  }

  lemma {:induction false} StepTells(env: Env, s: Store, s': Store, step: Step, k: string)
    requires Inv(env, s) && Next(env, s, s', step) && k in s.data && !Confirms(s, k)
    ensures !Confirms(s', k) && s.replies <= s'.replies && Created(k) !in s'.replies[|s.replies|..]
  {
    hide Inv, Advanced, Linked, Notified, Later, Confirms, Absent;
    match step {
      case Link(p, synced) =>
        LinkConfirms(env, s, s', p, synced, k);
        LinkLater(env, s, s', p, synced);
      case Advance(id) =>
        OtherConfirms(env, s, s', step, k);
        assert !Confirming(s, id, k) by { NotConfirming(s, id, k); }
        AdvanceTells(env, s, id, k);
      case Erase(_) =>
        OtherConfirms(env, s, s', step, k);
      case _ =>
        OtherConfirms(env, s, s', step, k);
        OtherStepMute(env, s, s', step);
    }
  }

  lemma {:induction false} NotConfirming(s: Store, id: nat, k: string)
    requires !Confirms(s, k)
    ensures !Confirming(s, id, k)
  {
  }

  /** While an object stays stored, no new upload of it is confirmed. */
  lemma {:induction false} RunTells(env: Env, s: Store, steps: seq<Step>, t: Store, k: string)
    requires Inv(env, s) && AllAnswered(env, s) && Leads(env, s, steps, t)
    requires k in s.data && k in t.data && !Confirms(s, k)
    ensures s.replies <= t.replies && Created(k) !in t.replies[|s.replies|..]
    decreases |steps|
  {
    hide Inv, AllAnswered, Next, Replies, Confirms;
    if steps != [] {
      var m :| Next(env, s, m, steps[0]) && Leads(env, m, steps[1..], t);
      NextKeeps(env, s, m, steps[0]);
      NextLater(env, s, m, steps[0]);
      NextAnswers(env, s, m);
      StepTells(env, s, m, steps[0], k);
      RunKeeps(env, m, steps[1..], t);
      RunTells(env, m, steps[1..], t, k);
      assert t.replies[|s.replies|..] == m.replies[|s.replies|..] + t.replies[|m.replies|..];
    }
  }

  /** An admission that is bound in the end was admissible all along. */
  lemma {:induction false} BoundAdmissible(env: Env, s: Store, t: Store, k: string)
    requires FilesOk(env, t) && Later(s, t) && k in t.admissions && k !in s.tombs
    ensures Key(env, t.admissions[k]) == k && Admissible(env, s, t.admissions[k])
  {
    hide OperationKey, Key, Matches;
    assert Recorded(env, t, t.admissions[k]);
  }

  lemma {:induction false} NewReply(s: Store, t: Store, r: Reply)
    requires Later(s, t) && r in t.replies[|s.replies|..]
    ensures Timely(s, r) && r in t.replies
  {
    hide Timely;
    var n :| 0 <= n < |t.replies| - |s.replies| && t.replies[|s.replies|..][n] == r;
    assert t.replies[|s.replies| + n] == r;
  }

  lemma {:induction false} UploadNeeds(env: Env, s: Store, steps: seq<Step>, t: Store, k: string, bytes: string)
    requires Inv(env, s) && AllAnswered(env, s) && Uploads(env, s, steps, t, k, bytes)
    ensures if k in s.data then Confirms(s, k) && s.data[k] == bytes else Storable(env, s, k, bytes)
  {
    hide OperationKey, Key, Matches, Leads, Confirms, Admissible, Inv, AllAnswered;
    RunKeeps(env, s, steps, t);
    NewReply(s, t, Created(k));
    if k in s.data {
      if !Confirms(s, k) { RunTells(env, s, steps, t, k); }
    } else {
      FilesOf(env, t);
      BoundAdmissible(env, s, t, k);
    }
  }

  /** From any reachable state, some continuation confirms an upload of `k` and has these bytes stored, if and only
      if the name can still be bound to an admission they match and is neither marked nor stored; or a request has
      already stored them and is about to say so. */
  lemma {:induction false} UploadedIff(env: Env, s: Store, k: string, bytes: string)
    requires Reachable(env, s)
    ensures (exists steps, t :: Uploads(env, s, steps, t, k, bytes))
            <==> if k in s.data then Confirms(s, k) && s.data[k] == bytes else Storable(env, s, k, bytes)
  {
    hide Uploads, Storable, Confirms, Inv, AllAnswered, Reachable;
    ReachableIsGood(env, s);
    if exists steps, t :: Uploads(env, s, steps, t, k, bytes) {
      var steps, t :| Uploads(env, s, steps, t, k, bytes);
      UploadNeeds(env, s, steps, t, k, bytes);
    }
    if k in s.data && Confirms(s, k) {
      var steps, t := Confirmed(env, s, k);
    }
    if Storable(env, s, k, bytes) {
      var steps, t := Stores(env, s, k, bytes);
    }
  }

  /** A name already bound is storable exactly when it has no bytes and no mark and the body matches its admission. */
  lemma {:induction false} BoundStorable(env: Env, s: Store, k: string, bytes: string)
    requires Reachable(env, s) && k in s.admissions
    ensures Storable(env, s, k, bytes) <==> k !in s.tombs && k !in s.data && Matches(env, s.admissions[k], bytes)
  {
    hide OperationKey, Key, Matches, Reachable;
    ReachableIsGood(env, s);
    FilesOf(env, s);
    LaterReflexive(s);
    if k !in s.tombs { BoundAdmissible(env, s, s, k); }
  }

  /** Admitted and not being confirmed: a body can be stored exactly when it matches the admission and the name has
      neither bytes nor a mark. */
  lemma {:induction false} AdmittedUploadIff(env: Env, s: Store, k: string, bytes: string)
    requires Reachable(env, s) && k in s.admissions && !Confirms(s, k)
    ensures (exists steps, t :: Uploads(env, s, steps, t, k, bytes))
            <==> k !in s.tombs && k !in s.data && Matches(env, s.admissions[k], bytes)
  {
    hide Uploads, Storable, Confirms, Matches, Reachable;
    UploadedIff(env, s, k, bytes);
    BoundStorable(env, s, k, bytes);
  }

  // ---- Downloads and receipts ----

  predicate Carries(r: Reply, k: string, bytes: string, receipt: bool) {
    (if receipt then r.Receipt? else r.Served?) && r.k == k && r.bytes == bytes
  }

  /** This run gives a new reply with these bytes. */
  ghost predicate Reads(env: Env, s: Store, steps: seq<Step>, t: Store, k: string, bytes: string, receipt: bool) {
    && Leads(env, s, steps, t) && s.replies <= t.replies
    && exists r :: r in t.replies[|s.replies|..] && Carries(r, k, bytes, receipt)
  }

  lemma {:induction false} ReadNeeds(env: Env, s: Store, steps: seq<Step>, t: Store, k: string, bytes: string, receipt: bool)
    requires Inv(env, s) && AllAnswered(env, s) && Reads(env, s, steps, t, k, bytes, receipt)
    ensures k !in s.tombs && if k in s.data then s.data[k] == bytes else Storable(env, s, k, bytes)
  {
    hide OperationKey, Key, Matches, Leads, Admissible, Inv;
    RunKeeps(env, s, steps, t);
    var r :| r in t.replies[|s.replies|..] && Carries(r, k, bytes, receipt);
    NewReply(s, t, r);
    assert Answered(env, t, r);
    if k !in s.data {
      FilesOf(env, t);
      BoundAdmissible(env, s, t, k);
    }
  }

  lemma {:induction false} ReadsStored(env: Env, s: Store, k: string, receipt: bool) returns (steps: seq<Step>, t: Store)
    requires Idle(s) && k in s.admissions && k in s.data && k !in s.tombs && Matches(env, s.admissions[k], s.data[k])
    ensures Reads(env, s, steps, t, k, s.data[k], receipt)
  {
    hide Matches, Leads;
    steps, t := ReadSession(env, s, k, receipt);
    assert Reading(s, k, receipt) in t.replies[|s.replies|..];
  }

  lemma {:induction false} ReadsAfter(env: Env, s: Store, xs: seq<Step>, m: Store, ys: seq<Step>, t: Store, k: string,
                                     bytes: string, receipt: bool)
    requires Leads(env, s, xs, m) && s.replies <= m.replies && Reads(env, m, ys, t, k, bytes, receipt)
    ensures Reads(env, s, xs + ys, t, k, bytes, receipt)
  {
    hide Leads, Carries;
    Then(env, s, xs, m, ys, t);
    var r :| r in t.replies[|m.replies|..] && Carries(r, k, bytes, receipt);
    assert t.replies[|s.replies|..] == m.replies[|s.replies|..] + t.replies[|m.replies|..];
  }

  lemma {:induction false} Readable(env: Env, s: Store, k: string, bytes: string, receipt: bool)
    returns (steps: seq<Step>, t: Store)
    requires FilesOk(env, s) && k !in s.tombs && if k in s.data then s.data[k] == bytes else Storable(env, s, k, bytes)
    ensures Reads(env, s, steps, t, k, bytes, receipt)
  {
    hide OperationKey, Key, Matches, Leads, Admissible, Reads;
    var first, m: Store;
    if k in s.data {
      first, m := Restart(env, s);
    } else {
      first, m := Stores(env, s, k, bytes);
    }
    var rest: seq<Step>;
    rest, t := ReadsStored(env, m, k, receipt);
    ReadsAfter(env, s, first, m, rest, t, k, bytes, receipt);
    steps := first + rest;
  }

  /** From any reachable state, some continuation serves (or certifies) these bytes for `k` if and only if the object
      is not marked and these are the bytes stored, or can still be stored. */
  lemma {:induction false} ReadIff(env: Env, s: Store, k: string, bytes: string, receipt: bool)
    requires Reachable(env, s)
    ensures (exists steps, t :: Reads(env, s, steps, t, k, bytes, receipt))
            <==> k !in s.tombs && if k in s.data then s.data[k] == bytes else Storable(env, s, k, bytes)
  {
    hide Reads, Storable, Inv, AllAnswered, Reachable;
    ReachableIsGood(env, s);
    FilesOf(env, s);
    if exists steps, t :: Reads(env, s, steps, t, k, bytes, receipt) {
      var steps, t :| Reads(env, s, steps, t, k, bytes, receipt);
      ReadNeeds(env, s, steps, t, k, bytes, receipt);
    }
    if k !in s.tombs && if k in s.data then s.data[k] == bytes else Storable(env, s, k, bytes) {
      var steps, t := Readable(env, s, k, bytes, receipt);
    }
  }

  // ---- Reclaims ----

  /** From any state, some continuation reclaims `k` and says so: it is marked, its bytes are gone, and no other
      published file is touched. */
  lemma {:induction false} ReclaimAlways(env: Env, s: Store, k: string) returns (steps: seq<Step>, t: Store)
    ensures Leads(env, s, steps, t) && t.replies == s.replies + [Reclaimed(k)]
    ensures k in t.tombs && k !in t.data
    ensures SameFiles(s.(tombs := s.tombs + {k}, data := s.data - {k}), t)
  {
    hide Leads;
    var restart, idle := Restart(env, s);
    var reclaim: seq<Step>;
    reclaim, t := ReclaimSession(env, idle, k);
    Then(env, s, restart, idle, reclaim, t);
    steps := restart + reclaim;
  }
}
