/** Every run of the custody store: what is stored is what was admitted, and nothing published ever changes. */
module CustodyRuns {
  import opened Base
  import opened CustodyStore
  import opened CustodyInvariant

  /** Neither a pending removal of a marked object nor a reply touches the invariant. */
  lemma {:induction false} ExtraKeeps(env: Env, s: Store, s': Store)
    requires Inv(env, s) && s' == s.(removals := s'.removals, replies := s'.replies) && s'.removals <= s.tombs
    ensures Inv(env, s')
  {
    hide FilesOk, LocksOk, PartsOk, TaskOk;
    FilesSame(env, s, s');
    ExtraLocks(s, s');
    forall id | id in s'.tasks ensures TaskOk(env, s', s'.tasks[id]) { TaskOkSame(env, s, s', s.tasks[id]); }
    forall p | p in s'.jobs && p in s'.parts ensures JobOk(env, s', p) {
      assert JobOk(env, s, p);
      var id :| Owns(s, id, p) && LockFor(s.jobs[p]) in s.tasks[id].locks;
      assert Owns(s', id, p);
    }
  }

  lemma {:induction false} ExtraLocks(s: Store, s': Store)
    requires LocksOk(s) && PartsOk(s) && s' == s.(removals := s'.removals, replies := s'.replies)
    ensures LocksOk(s') && PartsOk(s')
  {
  }

  lemma {:induction false} PendingAreMarked(env: Env, s: Store)
    requires Inv(env, s)
    ensures s.removals <= s.tombs
  {
  }

  lemma {:induction false} TellKeeps(env: Env, s: Store, id: nat, r: Reply)
    requires Inv(env, s) && id in s.tasks && PartOf(s.tasks[id].pc).None?
    ensures Inv(env, Tell(s, id, r))
  {
    hide Inv;
    MoveKeeps(env, s, id, Unwinding(None));
    PendingAreMarked(env, s);
    ExtraKeeps(env, Move(s, id, Unwinding(None)), Tell(s, id, r));
  }

  lemma {:induction false} AdmitKeeps(env: Env, s: Store, id: nat)
    requires Inv(env, s) && id in s.tasks
    requires var pc := s.tasks[id].pc;
             pc.AdmitRead? || pc.AdmitRecord? || pc.AdmitRecorded? || pc.AdmitUnmarked? || pc.AdmitBind?
    ensures Inv(env, Advanced(env, s, id))
  {
    hide Inv, Move, Publish, Tell, OperationKey, Key;
    TaskOkOf(env, s, id);
    var a := s.tasks[id].pc.a;
    if s.tasks[id].pc.AdmitRecord? {
      PublishKeeps(env, s, id, Record(a), OperationFile(OperationKey(env, a)), ThenAdmission(a));
    } else if s.tasks[id].pc.AdmitBind? {
      PublishKeeps(env, s, id, Record(a), AdmissionFile(Key(env, a)), ThenAdmitted(a));
    } else if s.tasks[id].pc.AdmitRead? {
      MoveKeeps(env, s, id, if OperationKey(env, a) !in s.operations then AdmitRecord(a)
                            else if s.operations[OperationKey(env, a)] == a then AdmitRecorded(a)
                            else Unwinding(None));
    } else if s.tasks[id].pc.AdmitRecorded? {
      MoveKeeps(env, s, id, if Key(env, a) in s.tombs then Unwinding(None) else AdmitUnmarked(a));
    } else if Key(env, a) in s.admissions && s.admissions[Key(env, a)] == a {
      TellKeeps(env, s, id, Admitted(Key(env, a), a));
    } else {
      MoveKeeps(env, s, id, if Key(env, a) in s.admissions then Unwinding(None) else AdmitBind(a));
    }
  }

  lemma {:induction false} PutKeeps(env: Env, s: Store, id: nat)
    requires Inv(env, s) && id in s.tasks
    requires var pc := s.tasks[id].pc; pc.PutCheck? || pc.PutUnmarked? || pc.PutAdmitted? || pc.PutStream?
    ensures Inv(env, Advanced(env, s, id))
  {
    hide Inv, Move, Matches, Publish, Tell;
    TaskOkOf(env, s, id);
    match s.tasks[id].pc {
      case PutCheck(k) => MoveKeeps(env, s, id, if k in s.tombs then Unwinding(None) else PutUnmarked(k));
      case PutUnmarked(k) =>
        MoveKeeps(env, s, id, if k in s.admissions then PutAdmitted(k, s.admissions[k]) else Unwinding(None));
      case PutAdmitted(k, a) =>
        if k in s.data { MoveKeeps(env, s, id, Unwinding(None)); } else { OpenStreamKeeps(env, s, id); }
      case PutStream(k, a, p) =>
        if p in s.parts && s.parts[p].Bytes? && Matches(env, a, s.parts[p].bytes) {
          CloseStreamKeeps(env, s, id);
        } else {
          MoveKeeps(env, s, id, Unwinding(Some(p)));
        }
    }
  }

  lemma {:induction false} ReclaimKeeps(env: Env, s: Store, id: nat)
    requires Inv(env, s) && id in s.tasks
    requires var pc := s.tasks[id].pc; pc.ReclaimCheck? || pc.ReclaimMark? || pc.ReclaimErase? || pc.ReclaimDone?
    ensures Inv(env, Advanced(env, s, id))
  {
    hide Inv, Publish;
    TaskOkOf(env, s, id);
    match s.tasks[id].pc {
      case ReclaimCheck(k) => MoveKeeps(env, s, id, if k in s.tombs then ReclaimErase(k) else ReclaimMark(k));
      case ReclaimMark(k) => PublishKeeps(env, s, id, Mark, TombFile(k), ThenErase(k));
      case ReclaimErase(k) =>
        MoveKeeps(env, s, id, ReclaimDone(k));
        PendingAreMarked(env, s);
        ExtraKeeps(env, Move(s, id, ReclaimDone(k)), Advanced(env, s, id));
      case ReclaimDone(k) => if k !in s.data { TellKeeps(env, s, id, Reclaimed(k)); }
    }
  }

  lemma {:induction false} ReadKeeps(env: Env, s: Store, id: nat)
    requires Inv(env, s) && id in s.tasks
    requires var pc := s.tasks[id].pc; pc.ReadCheck? || pc.ReadUnmarked? || pc.ReadAdmitted?
    ensures Inv(env, Advanced(env, s, id))
  {
    hide Inv, Tell;
    TaskOkOf(env, s, id);
    match s.tasks[id].pc {
      case ReadCheck(k, receipt) =>
        MoveKeeps(env, s, id, if k in s.tombs then Unwinding(None) else ReadUnmarked(k, receipt));
      case ReadUnmarked(k, receipt) =>
        MoveKeeps(env, s, id, if k in s.admissions then ReadAdmitted(k, receipt, s.admissions[k]) else Unwinding(None));
      case ReadAdmitted(k, receipt, a) =>
        MoveKeeps(env, s, id, Unwinding(None));
        if k in s.data {
          TellKeeps(env, s, id, if receipt then Receipt(k, a, s.data[k]) else Served(k, s.data[k]));
        }
    }
  }

  lemma {:induction false} CleanupKeeps(env: Env, s: Store, id: nat)
    requires Inv(env, s) && id in s.tasks
    requires s.tasks[id].pc.Dropping? || s.tasks[id].pc.Unwinding?
    ensures Inv(env, Advanced(env, s, id))
  {
    hide Inv, Advanced;
    match s.tasks[id].pc {
      case Dropping(p, after) => DroppingKeeps(env, s, id);
      case Unwinding(_) => UnwindingKeeps(env, s, id);
    }
  }

  lemma {:induction false} DroppingKeeps(env: Env, s: Store, id: nat)
    requires Inv(env, s) && id in s.tasks && s.tasks[id].pc.Dropping?
    ensures Inv(env, Advanced(env, s, id))
  {
    hide Inv, Publish, Tell, Matches;
    TaskOkOf(env, s, id);
    var p, after := s.tasks[id].pc.p, s.tasks[id].pc.after;
    var t := Move(s, id, Resume(after)).(parts := s.parts - {p});
    DropPartKeeps(env, s, t, id, p, Resume(after));
    PendingAreMarked(env, s);
    ExtraKeeps(env, t, Advanced(env, s, id));
  }

  lemma {:induction false} UnwindingKeeps(env: Env, s: Store, id: nat)
    requires Inv(env, s) && id in s.tasks && s.tasks[id].pc.Unwinding?
    ensures Inv(env, Advanced(env, s, id))
  {
    hide Inv, Publish, Tell, Matches;
    var s' := Advanced(env, s, id);
    match s.tasks[id].pc.left {
      case Some(p) => DropPartKeeps(env, s, s', id, p, Unwinding(None));
      case None => if s.tasks[id].locks == {} { FinishKeeps(env, s, s', id); }
    }
  }

  lemma {:induction false} AdvanceKeeps(env: Env, s: Store, id: nat)
    requires Inv(env, s) && id in s.tasks
    ensures Inv(env, Advanced(env, s, id))
  {
    hide Inv, Move, Publish, Tell;
    match s.tasks[id].pc {
      case AdmitRead(_) => AdmitKeeps(env, s, id);
      case AdmitRecord(_) => AdmitKeeps(env, s, id);
      case AdmitRecorded(_) => AdmitKeeps(env, s, id);
      case AdmitUnmarked(_) => AdmitKeeps(env, s, id);
      case AdmitBind(_) => AdmitKeeps(env, s, id);
      case PutCheck(_) => PutKeeps(env, s, id);
      case PutUnmarked(_) => PutKeeps(env, s, id);
      case PutAdmitted(_, _) => PutKeeps(env, s, id);
      case PutStream(_, _, _) => PutKeeps(env, s, id);
      case ReclaimCheck(_) => ReclaimKeeps(env, s, id);
      case ReclaimMark(_) => ReclaimKeeps(env, s, id);
      case ReclaimErase(_) => ReclaimKeeps(env, s, id);
      case ReclaimDone(_) => ReclaimKeeps(env, s, id);
      case ReadCheck(_, _) => ReadKeeps(env, s, id);
      case ReadUnmarked(_, _) => ReadKeeps(env, s, id);
      case ReadAdmitted(_, _, _) => ReadKeeps(env, s, id);
      case Dropping(_, _) => CleanupKeeps(env, s, id);
      case Unwinding(_) => CleanupKeeps(env, s, id);
      case _ =>
    }
  }

  lemma {:induction false} LinkKeeps(env: Env, s: Store, s': Store, p: nat, synced: bool)
    requires Inv(env, s) && Next(env, s, s', Link(p, synced))
    ensures Inv(env, s')
  {
    hide FilesOk, LocksOk, PartsOk, TasksOk, TaskOk, Notified, Linked, Safe, Absent;
    if p in s.parts && Absent(s, s.jobs[p]) {
      assert JobOk(env, s, p);
      var id :| Owns(s, id, p) && LockFor(s.jobs[p]) in s.tasks[id].locks;
      LinkDoneKeeps(env, s, s', id, p, synced);
    } else if p in s.parts {
      LinkRefusedKeeps(env, s, s', p);
    } else {
      LinkOrphanKeeps(env, s, s', p);
    }
  }

  lemma {:induction false} NextKeeps(env: Env, s: Store, s': Store, step: Step)
    requires Inv(env, s) && Next(env, s, s', step)
    ensures Inv(env, s')
  {
    hide Inv, Advanced, Linked, Notified;
    match step {
      case Arrive(id, pc) => ArriveKeeps(env, s, s', id, pc);
      case Acquire(id) => AcquireKeeps(env, s, s', id);
      case Advance(id) => AdvanceKeeps(env, s, id);
      case Chunk(id, bytes) =>
        var p := s.tasks[id].pc.p;
        if |s.parts[p].bytes| + |bytes| > s.tasks[id].pc.a.byteLength {
          MoveKeeps(env, s, id, Unwinding(Some(p)));
        } else {
          ChunkKeeps(env, s, s', id, s.parts[p].bytes + bytes);
        }
      case Link(p, synced) => LinkKeeps(env, s, s', p, synced);
      case Erase(k) => EraseKeeps(env, s, s', k);
      case Cancel(id) => CancelKeeps(env, s, id);
      case Release(id, k) => ReleaseKeeps(env, s, s', id, k);
      case Debris(content) => DebrisKeeps(env, s, s', content);
      case Crash => DownKeeps(env, s, s', step);
      case Reap(_) => DownKeeps(env, s, s', step);
      case Start => DownKeeps(env, s, s', step);
    }
  }

  lemma {:induction false} CancelKeeps(env: Env, s: Store, id: nat)
    requires Inv(env, s) && id in s.tasks
    ensures Inv(env, Move(s, id, Unwinding(PartOf(s.tasks[id].pc))))
  {
    hide Inv;
    MoveKeeps(env, s, id, Unwinding(PartOf(s.tasks[id].pc)));
  }
}
