/** Laws of the custody store over every run, with any interleaving of requests, cancellations and crashes. */
module CustodyLaws {
  import opened Base
  import opened CustodyStore
  import opened CustodyInvariant
  import opened CustodyRuns

  // ---- What one step, and any number of steps, may change ----

  /** Records, marks and stored bytes never change; only marked objects lose their bytes, for good; what is
      answered about a marked object is that it was reclaimed. */
  ghost predicate Later(s: Store, s': Store) {
    && Grows(s.operations, s'.operations) && Grows(s.admissions, s'.admissions) && s.tombs <= s'.tombs
    && (forall k :: k in s.data && k in s'.data ==> s'.data[k] == s.data[k])
    && (forall k :: k in s.data && k !in s'.data ==> k in s'.tombs)
    && (forall k :: k in s.tombs && k in s'.data ==> k in s.data)
    && s.replies <= s'.replies
    && (forall n :: |s.replies| <= n < |s'.replies| ==> Timely(s, s'.replies[n]))
  }

  /** A reply that may come after state `s`: about a marked object only that it was reclaimed, and of a stored
      object only the bytes stored. */
  predicate Timely(s: Store, r: Reply) {
    && (r.Reclaimed? || r.k !in s.tombs)
    && (Bearing(r) && r.k in s.data ==> r.bytes == s.data[r.k])
  }

  lemma {:induction false} LaterTransitive(s: Store, m: Store, t: Store)
    requires Later(s, m) && Later(m, t)
    ensures Later(s, t)
  {
    forall n | |s.replies| <= n < |t.replies| ensures Timely(s, t.replies[n]) {
      assert n < |m.replies| ==> t.replies[n] == m.replies[n];
      assert n >= |m.replies| ==> Timely(m, t.replies[n]);
    }
  }

  /** What a reply told its client is still true in state `s`. */
  ghost predicate Answered(env: Env, s: Store, r: Reply) {
    match r
    case Admitted(k, a) =>
      k == Key(env, a) && k != OperationKey(env, a) && Bound(s, k, a) && Recorded(env, s, a)
    case Created(k) => k in s.admissions && (k in s.data || k in s.tombs)
    case Served(k, bytes) => k in s.admissions && Matches(env, s.admissions[k], bytes) && Kept(s, k, bytes)
    case Receipt(k, a, bytes) => Bound(s, k, a) && Matches(env, a, bytes) && Kept(s, k, bytes)
    case Reclaimed(k) => k in s.tombs && k !in s.data
  }

  predicate Kept(s: Store, k: string, bytes: string) { if k in s.data then s.data[k] == bytes else k in s.tombs }

  lemma {:induction false} AnsweredStays(env: Env, s: Store, s': Store, r: Reply)
    requires Later(s, s') && Answered(env, s, r)
    ensures Answered(env, s', r)
  {
    hide Matches;
  }

  predicate Bearing(r: Reply) { r.Served? || r.Receipt? }

  /** Every reply so far is true, and all replies that carry an object's bytes carry the same ones. */
  ghost predicate AllAnswered(env: Env, s: Store) {
    && (forall r :: r in s.replies ==> Answered(env, s, r))
    && (forall r, q :: (r in s.replies && q in s.replies && Bearing(r) && Bearing(q) && r.k == q.k) ==> r.bytes == q.bytes)
  }

  /** At most one reply per step: true when it is given, and about an object that is not marked. */
  ghost predicate Replies(env: Env, s: Store, s': Store) {
    || s'.replies == s.replies
    || exists r :: Gives(env, s, s', r)
  }

  ghost predicate Gives(env: Env, s: Store, s': Store, r: Reply) {
    && s'.replies == s.replies + [r] && Answered(env, s', r)
    && (!r.Reclaimed? ==> r.k !in s.tombs)
    && (Bearing(r) ==> r.k in s.data && s.data[r.k] == r.bytes)
  }

  lemma {:induction false} FilesOf(env: Env, s: Store)
    requires Inv(env, s)
    ensures FilesOk(env, s)
  {
  }

  lemma {:induction false} AdvanceReplies(env: Env, s: Store, id: nat)
    requires Inv(env, s) && id in s.tasks
    ensures Replies(env, s, Advanced(env, s, id)) && SameFiles(s, Advanced(env, s, id))
  {
    TaskOkOf(env, s, id);
    FilesOf(env, s);
    hide Inv, FilesOk, TaskOk, Replies, Move, Publish, Tell, OperationKey, Key, Matches;
    var s' := Advanced(env, s, id);
    match s.tasks[id].pc {
      case AdmitUnmarked(_) => AdmitReplies(env, s, id);
      case ReclaimDone(_) => ReclaimReplies(env, s, id);
      case ReadAdmitted(_, _, _) => ReadReplies(env, s, id);
      case Dropping(_, _) => PublishReplies(env, s, id);
      case _ => AdvanceMute(env, s, id); NoReply(env, s, s');
    }
  }

  lemma {:induction false} AdvanceMute(env: Env, s: Store, id: nat)
    requires id in s.tasks
    requires !s.tasks[id].pc.AdmitUnmarked? && !s.tasks[id].pc.ReclaimDone?
    requires !s.tasks[id].pc.ReadAdmitted? && !s.tasks[id].pc.Dropping?
    ensures Mute(s, Advanced(env, s, id))
  {
    hide Move, Publish, OperationKey, Key, Matches;
    match s.tasks[id].pc {
      case AdmitRead(_) => AdmitMute(env, s, id);
      case AdmitRecord(_) => AdmitMute(env, s, id);
      case AdmitRecorded(_) => AdmitMute(env, s, id);
      case AdmitBind(_) => AdmitMute(env, s, id);
      case PutCheck(_) => PutMute(env, s, id);
      case PutUnmarked(_) => PutMute(env, s, id);
      case PutAdmitted(_, _) => PutMute(env, s, id);
      case PutStream(_, _, _) => PutMute(env, s, id);
      case ReclaimCheck(_) => OtherMute(env, s, id);
      case ReclaimMark(_) => OtherMute(env, s, id);
      case ReclaimErase(_) => OtherMute(env, s, id);
      case ReadCheck(_, _) => OtherMute(env, s, id);
      case ReadUnmarked(_, _) => OtherMute(env, s, id);
      case Unwinding(_) => UnwindMute(env, s, id);
      case _ =>
    }
  }

  lemma {:induction false} ReclaimReplies(env: Env, s: Store, id: nat)
    requires id in s.tasks && TaskOk(env, s, s.tasks[id]) && s.tasks[id].pc.ReclaimDone?
    ensures Replies(env, s, Advanced(env, s, id)) && SameFiles(s, Advanced(env, s, id))
  {
    hide Replies;
    var k, s' := s.tasks[id].pc.k, Advanced(env, s, id);
    if k in s.data {
      NoReply(env, s, s');
    } else {
      TellGives(env, s, id, Reclaimed(k));
    }
  }

  lemma {:induction false} NoReply(env: Env, s: Store, s': Store)
    requires s'.replies == s.replies
    ensures Replies(env, s, s')
  {
  }

  lemma {:induction false} OneReply(env: Env, s: Store, s': Store, r: Reply)
    requires Gives(env, s, s', r)
    ensures Replies(env, s, s')
  {
  }

  predicate Mute(s: Store, s': Store) { SameFiles(s, s') && s'.replies == s.replies }

  lemma {:induction false} MoveMute(s: Store, id: nat, pc: Pc)
    requires id in s.tasks
    ensures Mute(s, Move(s, id, pc))
  {
  }

  lemma {:induction false} PublishMute(s: Store, id: nat, content: Content, target: Target, after: After)
    requires id in s.tasks
    ensures Mute(s, Publish(s, id, content, target, after))
  {
  }

  lemma {:induction false} AdmitMute(env: Env, s: Store, id: nat)
    requires id in s.tasks
    requires s.tasks[id].pc.AdmitRead? || s.tasks[id].pc.AdmitRecord? || s.tasks[id].pc.AdmitRecorded? || s.tasks[id].pc.AdmitBind?
    ensures Mute(s, Advanced(env, s, id))
  {
    hide Move, Publish, OperationKey, Key;
    var a := s.tasks[id].pc.a;
    match s.tasks[id].pc {
      case AdmitRead(_) =>
        MoveMute(s, id, AdmitRecord(a));
        MoveMute(s, id, AdmitRecorded(a));
        MoveMute(s, id, Unwinding(None));
      case AdmitRecord(_) =>
        PublishMute(s, id, Record(a), OperationFile(OperationKey(env, a)), ThenAdmission(a));
      case AdmitRecorded(_) =>
        MoveMute(s, id, if Key(env, a) in s.tombs then Unwinding(None) else AdmitUnmarked(a));
      case AdmitBind(_) =>
        PublishMute(s, id, Record(a), AdmissionFile(Key(env, a)), ThenAdmitted(a));
    }
  }

  lemma {:induction false} PutMute(env: Env, s: Store, id: nat)
    requires id in s.tasks
    requires s.tasks[id].pc.PutCheck? || s.tasks[id].pc.PutUnmarked? || s.tasks[id].pc.PutAdmitted? || s.tasks[id].pc.PutStream?
    ensures Mute(s, Advanced(env, s, id))
  {
    hide Move, Matches;
    MoveMute(s, id, Unwinding(None));
    match s.tasks[id].pc {
      case PutCheck(k) => MoveMute(s, id, PutUnmarked(k));
      case PutUnmarked(k) => if k in s.admissions { MoveMute(s, id, PutAdmitted(k, s.admissions[k])); }
      case PutAdmitted(k, a) => MoveMute(s, id, PutStream(k, a, s.nextPart));
      case PutStream(k, a, p) =>
        MoveMute(s, id, Unwinding(Some(p)));
        MoveMute(s, id, Publishing(p, DataFile(k), ThenCreated(k)));
    }
  }

  lemma {:induction false} OtherMute(env: Env, s: Store, id: nat)
    requires id in s.tasks
    requires s.tasks[id].pc.ReclaimCheck? || s.tasks[id].pc.ReclaimMark? || s.tasks[id].pc.ReclaimErase?
             || s.tasks[id].pc.ReadCheck? || s.tasks[id].pc.ReadUnmarked?
    ensures Mute(s, Advanced(env, s, id))
  {
    hide Move, Publish;
    MoveMute(s, id, Unwinding(None));
    match s.tasks[id].pc {
      case ReclaimCheck(k) => MoveMute(s, id, if k in s.tombs then ReclaimErase(k) else ReclaimMark(k));
      case ReclaimMark(k) => PublishMute(s, id, Mark, TombFile(k), ThenErase(k));
      case ReclaimErase(k) => MoveMute(s, id, ReclaimDone(k));
      case ReadCheck(k, receipt) => MoveMute(s, id, ReadUnmarked(k, receipt));
      case ReadUnmarked(k, receipt) => if k in s.admissions { MoveMute(s, id, ReadAdmitted(k, receipt, s.admissions[k])); }
    }
  }

  lemma {:induction false} UnwindMute(env: Env, s: Store, id: nat)
    requires id in s.tasks && s.tasks[id].pc.Unwinding?
    ensures Mute(s, Advanced(env, s, id))
  {
    hide Move, Publish, Tell, Matches, OperationKey, Key;
    match s.tasks[id].pc.left {
      case Some(p) =>
        MoveMute(s, id, Unwinding(None));
        assert Advanced(env, s, id) == Move(s, id, Unwinding(None)).(parts := s.parts - {p});
      case None =>
        assert Advanced(env, s, id) == if s.tasks[id].locks == {} then s.(tasks := s.tasks - {id}) else s;
    }
  }

  lemma {:induction false} AdmitReplies(env: Env, s: Store, id: nat)
    requires id in s.tasks && TaskOk(env, s, s.tasks[id]) && s.tasks[id].pc.AdmitUnmarked?
    ensures Replies(env, s, Advanced(env, s, id)) && SameFiles(s, Advanced(env, s, id))
  {
    hide Replies, Gives, Move, Tell, OperationKey, Key;
    var a, s' := s.tasks[id].pc.a, Advanced(env, s, id);
    if Bound(s, Key(env, a), a) {
      TellGives(env, s, id, Admitted(Key(env, a), a));
    } else {
      MoveMute(s, id, if Key(env, a) in s.admissions then Unwinding(None) else AdmitBind(a));
      NoReply(env, s, s');
    }
  }

  /** A task that answers what holds now gives a true reply. */
  lemma {:induction false} TellGives(env: Env, s: Store, id: nat, r: Reply)
    requires id in s.tasks && Answered(env, s, r)
    requires !r.Reclaimed? ==> r.k !in s.tombs
    requires Bearing(r) ==> r.k in s.data && s.data[r.k] == r.bytes
    ensures Replies(env, s, Tell(s, id, r)) && SameFiles(s, Tell(s, id, r))
  {
    hide Replies, Matches;
    var s' := Tell(s, id, r);
    assert SameFiles(s, s') && s'.replies == s.replies + [r];
    AnsweredSame(env, s, s', r);
    OneReply(env, s, s', r);
  }

  lemma {:induction false} AnsweredSame(env: Env, s: Store, s': Store, r: Reply)
    requires SameFiles(s, s') && Answered(env, s, r)
    ensures Answered(env, s', r)
  {
    hide Matches, OperationKey, Key;
  }

  lemma {:induction false} ReadReplies(env: Env, s: Store, id: nat)
    requires id in s.tasks && FilesOk(env, s) && TaskOk(env, s, s.tasks[id]) && s.tasks[id].pc.ReadAdmitted?
    ensures Replies(env, s, Advanced(env, s, id)) && SameFiles(s, Advanced(env, s, id))
  {
    hide Replies, Move, Tell;
    var pc, s' := s.tasks[id].pc, Advanced(env, s, id);
    MoveMute(s, id, Unwinding(None));
    if s' == Move(s, id, Unwinding(None)) {
      NoReply(env, s, s');
    } else {
      TellGives(env, s, id, if pc.receipt then Receipt(pc.k, pc.a, s.data[pc.k]) else Served(pc.k, s.data[pc.k]));
    }
  }

  lemma {:induction false} PublishReplies(env: Env, s: Store, id: nat)
    requires id in s.tasks && FilesOk(env, s) && TaskOk(env, s, s.tasks[id]) && s.tasks[id].pc.Dropping?
    ensures Replies(env, s, Advanced(env, s, id)) && SameFiles(s, Advanced(env, s, id))
  {
    hide Replies, OperationKey, Key, Matches;
    var after, s' := s.tasks[id].pc.after, Advanced(env, s, id);
    match after {
      case ThenAdmitted(a) =>
        assert Recorded(env, s, s.admissions[Key(env, a)]);
        OneReply(env, s, s', Admitted(Key(env, a), a));
      case ThenCreated(k) => OneReply(env, s, s', Created(k));
      case _ =>
        assert s'.replies == s.replies;
        NoReply(env, s, s');
    }
  }

  /** A marked object loses its bytes. */
  ghost predicate Loses(s: Store, s': Store, k: string) {
    k in s.tombs && SameFiles(s.(data := s.data - {k}), s') && s'.replies == s.replies
  }

  /** An absent name is linked. */
  ghost predicate Gains(s: Store, s': Store, t: Target, content: Content) {
    && Absent(s, t) && (t.DataFile? ==> t.k !in s.tombs)
    && SameFiles(Linked(s, t, content), s') && s'.replies == s.replies
  }

  lemma {:induction false} GainsLater(s: Store, s': Store, t: Target, content: Content)
    requires Gains(s, s', t, content)
    ensures Later(s, s')
  {
    hide Later, Linked;
    match t {
      case OperationFile(o) =>
        LinkedRecord(s, t, content);
        RecordLater(s, s');
      case AdmissionFile(k) =>
        LinkedRecord(s, t, content);
        RecordLater(s, s');
      case DataFile(k) =>
        LinkedData(s, k, content);
        DataLater(s, s', k);
      case TombFile(k) =>
        LinkedMark(s, k, content);
        MarkLater(s, s');
    }
  }

  lemma {:induction false} LinkedRecord(s: Store, t: Target, content: Content)
    requires (t.OperationFile? || t.AdmissionFile?) && Absent(s, t)
    ensures var l := Linked(s, t, content);
            && Grows(s.operations, l.operations) && Grows(s.admissions, l.admissions)
            && l.data == s.data && l.tombs == s.tombs
  {
  }

  lemma {:induction false} LinkedData(s: Store, k: string, content: Content)
    ensures var l := Linked(s, DataFile(k), content);
            && l.operations == s.operations && l.admissions == s.admissions && l.tombs == s.tombs
            && (l.data == s.data || (content.Bytes? && l.data == s.data[k := content.bytes]))
  {
  }

  lemma {:induction false} LinkedMark(s: Store, k: string, content: Content)
    ensures var l := Linked(s, TombFile(k), content);
            l.operations == s.operations && l.admissions == s.admissions && l.data == s.data && s.tombs <= l.tombs
  {
  }

  lemma {:induction false} RecordLater(s: Store, s': Store)
    requires Grows(s.operations, s'.operations) && Grows(s.admissions, s'.admissions)
    requires s'.data == s.data && s'.tombs == s.tombs && s'.replies == s.replies
    ensures Later(s, s')
  {
  }

  lemma {:induction false} DataLater(s: Store, s': Store, k: string)
    requires s'.operations == s.operations && s'.admissions == s.admissions && s'.tombs == s.tombs
    requires s'.replies == s.replies && k !in s.data && k !in s.tombs
    requires s'.data == s.data || (k in s'.data && s'.data == s.data[k := s'.data[k]])
    ensures Later(s, s')
  {
  }

  lemma {:induction false} MarkLater(s: Store, s': Store)
    requires s'.operations == s.operations && s'.admissions == s.admissions && s'.data == s.data
    requires s.tombs <= s'.tombs && s'.replies == s.replies
    ensures Later(s, s')
  {
  }

  lemma {:induction false} RepliesLater(env: Env, s: Store, s': Store)
    requires SameFiles(s, s') && Replies(env, s, s')
    ensures Later(s, s')
  {
    if s'.replies != s.replies {
      var r :| Gives(env, s, s', r);
    }
  }

  lemma {:induction false} LinkLater(env: Env, s: Store, s': Store, p: nat, synced: bool)
    requires Inv(env, s) && Next(env, s, s', Link(p, synced))
    ensures Later(s, s') && s'.replies == s.replies
  {
    hide FilesOk, LocksOk, PartsOk, TasksOk, Notified, Linked, Absent, Later, Replies;
    if p in s.parts && Absent(s, s.jobs[p]) {
      assert JobOk(env, s, p);
      LinkedReplies(s, s.jobs[p], s.parts[p]);
      GainsLater(s, s', s.jobs[p], s.parts[p]);
    } else {
      NoReply(env, s, s');
      RepliesLater(env, s, s');
    }
  }

  lemma {:induction false} LinkedReplies(s: Store, t: Target, content: Content)
    ensures Linked(s, t, content).replies == s.replies
  {
  }

  lemma {:induction false} NextLater(env: Env, s: Store, s': Store, step: Step)
    requires Inv(env, s) && Next(env, s, s', step)
    ensures Later(s, s') && Replies(env, s, s')
  {
    hide Inv, Advanced, Linked, Notified, Later, Replies;
    match step {
      case Advance(id) =>
        AdvanceReplies(env, s, id);
        RepliesLater(env, s, s');
      case Link(p, synced) =>
        LinkLater(env, s, s', p, synced);
        NoReply(env, s, s');
      case Erase(k) =>
        PendingAreMarked(env, s);
        LosesLater(s, s', k);
        NoReply(env, s, s');
      case _ =>
        OtherStepMute(env, s, s', step);
        NoReply(env, s, s');
        RepliesLater(env, s, s');
    }
  }

  lemma {:induction false} OtherStepMute(env: Env, s: Store, s': Store, step: Step)
    requires Next(env, s, s', step) && !step.Advance? && !step.Link? && !step.Erase?
    ensures Mute(s, s')
  {
    hide Next, Mute;
    match step {
      case Arrive(id, pc) => ArriveMute(env, s, s', id, pc);
      case Acquire(id) => AcquireMute(env, s, s', id);
      case Chunk(id, bytes) => ChunkMute(env, s, s', id, bytes);
      case Cancel(id) => CancelMute(env, s, s', id);
      case Release(id, k) => ReleaseMute(env, s, s', id, k);
      case Debris(content) => DebrisMute(env, s, s', content);
      case Crash => CrashMute(env, s, s');
      case Reap(p) => ReapMute(env, s, s', p);
      case Start => StartMute(env, s, s');
    }
  }

  lemma {:induction false} ArriveMute(env: Env, s: Store, s': Store, id: nat, pc: Pc)
    requires Next(env, s, s', Arrive(id, pc))
    ensures Mute(s, s')
  {
    hide Mute, SameFiles, Wanted, Granted, Advanced, Linked, Notified, Absent;
    InsideMute(s, s');
  }

  lemma {:induction false} AcquireMute(env: Env, s: Store, s': Store, id: nat)
    requires Next(env, s, s', Acquire(id))
    ensures Mute(s, s')
  {
    hide Mute, SameFiles, Wanted, Granted, Advanced, Linked, Notified, Absent;
    InsideMute(s, s');
  }

  lemma {:induction false} ChunkMute(env: Env, s: Store, s': Store, id: nat, bytes: string)
    requires Next(env, s, s', Chunk(id, bytes))
    ensures Mute(s, s')
  {
    hide Mute, SameFiles, Wanted, Granted, Advanced, Linked, Notified, Absent;
    hide Move;
    if |s.parts[s.tasks[id].pc.p].bytes| + |bytes| > s.tasks[id].pc.a.byteLength {
      MoveMute(s, id, Unwinding(Some(s.tasks[id].pc.p)));
    } else {
      InsideMute(s, s');
    }
  }

  lemma {:induction false} CancelMute(env: Env, s: Store, s': Store, id: nat)
    requires Next(env, s, s', Cancel(id))
    ensures Mute(s, s')
  {
    hide Mute, SameFiles, Wanted, Granted, Advanced, Linked, Notified, Absent;
    InsideMute(s, s');
  }

  lemma {:induction false} ReleaseMute(env: Env, s: Store, s': Store, id: nat, k: string)
    requires Next(env, s, s', Release(id, k))
    ensures Mute(s, s')
  {
    hide Mute, SameFiles, Wanted, Granted, Advanced, Linked, Notified, Absent;
    InsideMute(s, s');
  }

  lemma {:induction false} DebrisMute(env: Env, s: Store, s': Store, content: Content)
    requires Next(env, s, s', Debris(content))
    ensures Mute(s, s')
  {
    hide Mute, SameFiles, Wanted, Granted, Advanced, Linked, Notified, Absent;
    InsideMute(s, s');
  }

  lemma {:induction false} CrashMute(env: Env, s: Store, s': Store)
    requires Next(env, s, s', Crash)
    ensures Mute(s, s')
  {
    hide Mute, SameFiles, Wanted, Granted, Advanced, Linked, Notified, Absent;
    InsideMute(s, s');
  }

  lemma {:induction false} ReapMute(env: Env, s: Store, s': Store, p: nat)
    requires Next(env, s, s', Reap(p))
    ensures Mute(s, s')
  {
    hide Mute, SameFiles, Wanted, Granted, Advanced, Linked, Notified, Absent;
    InsideMute(s, s');
  }

  lemma {:induction false} StartMute(env: Env, s: Store, s': Store)
    requires Next(env, s, s', Start)
    ensures Mute(s, s')
  {
    hide Mute, SameFiles, Wanted, Granted, Advanced, Linked, Notified, Absent;
    InsideMute(s, s');
  }

  /** Neither published files nor replies are touched. */
  predicate Inside(s: Store, s': Store) {
    s' == s.(parts := s'.parts, jobs := s'.jobs, removals := s'.removals, held := s'.held, tasks := s'.tasks,
             nextPart := s'.nextPart, up := s'.up)
  }

  lemma {:induction false} InsideMute(s: Store, s': Store)
    requires Inside(s, s')
    ensures Mute(s, s')
  {
  }

  lemma {:induction false} LosesLater(s: Store, s': Store, k: string)
    requires Loses(s, s', k)
    ensures Later(s, s')
  {
  }

  lemma {:induction false} NextAnswers(env: Env, s: Store, s': Store)
    requires AllAnswered(env, s) && Later(s, s') && Replies(env, s, s')
    ensures AllAnswered(env, s')
  {
    hide Matches, Answered, Later;
    forall r | r in s.replies ensures Answered(env, s', r) { AnsweredStays(env, s, s', r); }
    if s'.replies != s.replies {
      var r :| Gives(env, s, s', r);
      forall q | q in s.replies && Bearing(q) && Bearing(r) && q.k == r.k ensures q.bytes == r.bytes {
        BytesNow(env, s, q);
      }
    }
  }

  lemma {:induction false} BytesNow(env: Env, s: Store, q: Reply)
    requires Answered(env, s, q) && Bearing(q) && q.k in s.data
    ensures q.bytes == s.data[q.k]
  {
  }

  // ---- Runs ----

  ghost predicate Leads(env: Env, s: Store, steps: seq<Step>, t: Store)
    decreases |steps|
  {
    if steps == [] then t == s else exists m :: Next(env, s, m, steps[0]) && Leads(env, m, steps[1..], t)
  }

  ghost predicate Reachable(env: Env, s: Store) { exists steps :: Leads(env, FRESH, steps, s) }

  lemma {:induction false} RunKeeps(env: Env, s: Store, steps: seq<Step>, t: Store)
    requires Inv(env, s) && AllAnswered(env, s) && Leads(env, s, steps, t)
    ensures Inv(env, t) && AllAnswered(env, t) && Later(s, t)
    decreases |steps|
  {
    hide Inv, AllAnswered, Later, Next, Replies;
    if steps == [] {
      LaterReflexive(s);
    } else {
      var m :| Next(env, s, m, steps[0]) && Leads(env, m, steps[1..], t);
      NextKeeps(env, s, m, steps[0]);
      NextLater(env, s, m, steps[0]);
      NextAnswers(env, s, m);
      RunKeeps(env, m, steps[1..], t);
      LaterTransitive(s, m, t);
    }
  }

  lemma {:induction false} LaterReflexive(s: Store)
    ensures Later(s, s)
  {
  }

  lemma {:induction false} ReachableIsGood(env: Env, s: Store)
    requires Reachable(env, s)
    ensures Inv(env, s) && AllAnswered(env, s)
  {
    var steps :| Leads(env, FRESH, steps, s);
    assert FilesOk(env, FRESH) && LocksOk(FRESH) && PartsOk(FRESH) && JobsOk(env, FRESH) && TasksOk(env, FRESH) && RestOk(FRESH);
    RunKeeps(env, FRESH, steps, s);
  }

  // ---- The laws ----

  /** In every reachable state the bytes stored under a name are the ones admitted under it. */
  lemma {:induction false} StoredIsAdmitted(env: Env, s: Store, k: string)
    requires Reachable(env, s) && k in s.data
    ensures k in s.admissions && Key(env, s.admissions[k]) == k && Recorded(env, s, s.admissions[k])
    ensures |s.data[k]| == s.admissions[k].byteLength && env.digest(s.data[k]) == s.admissions[k].contentHash
  {
    hide Leads, Reachable;
    ReachableIsGood(env, s);
  }

  /** An operation identifier and an object identifier are bound to one admission for ever, and an object's
      bytes never change: they are there, or the object is marked as reclaimed. */
  lemma {:induction false} PublishedIsImmutable(env: Env, s: Store, steps: seq<Step>, t: Store, k: string)
    requires Reachable(env, s) && Leads(env, s, steps, t)
    ensures k in s.operations ==> k in t.operations && t.operations[k] == s.operations[k]
    ensures k in s.admissions ==> k in t.admissions && t.admissions[k] == s.admissions[k]
    ensures k in s.data ==> if k in t.data then t.data[k] == s.data[k] else k in t.tombs
  {
    hide Leads, Reachable;
    ReachableIsGood(env, s);
    RunKeeps(env, s, steps, t);
  }

  /** Once marked as reclaimed, an object stays so: no bytes appear under its name, and no later reply grants
      an upload, confirms one, serves or certifies it. */
  lemma {:induction false} ReclaimIsFinal(env: Env, s: Store, steps: seq<Step>, t: Store, k: string)
    requires Reachable(env, s) && Leads(env, s, steps, t) && k in s.tombs
    ensures k in t.tombs && (k in t.data ==> k in s.data)
    ensures s.replies <= t.replies
    ensures forall n :: |s.replies| <= n < |t.replies| && t.replies[n].k == k ==> t.replies[n].Reclaimed?
  {
    hide Leads, Reachable;
    ReachableIsGood(env, s);
    RunKeeps(env, s, steps, t);
  }

  /** Whatever was answered stays true in every later state. */
  lemma {:induction false} AnswersStayTrue(env: Env, s: Store, steps: seq<Step>, t: Store, r: Reply)
    requires Reachable(env, s) && Leads(env, s, steps, t) && r in s.replies
    ensures r in t.replies && Answered(env, t, r)
  {
    hide Inv, Leads, Reachable, Answered;
    ReachableIsGood(env, s);
    RunKeeps(env, s, steps, t);
    var n :| 0 <= n < |s.replies| && s.replies[n] == r;
    assert t.replies[n] == r;
  }

  /** Any two readers of an object got the same bytes. */
  lemma {:induction false} ReadersAgree(env: Env, s: Store, r: Reply, q: Reply)
    requires Reachable(env, s) && r in s.replies && q in s.replies && Bearing(r) && Bearing(q) && r.k == q.k
    ensures r.bytes == q.bytes
  {
    hide Inv, Leads, Reachable, Answered;
    ReachableIsGood(env, s);
  }
}
