/** When an admission can still be granted: exactly when nothing published stands against it, whatever was
    interrupted before. */
module CustodyAdmission {
  import opened CustodyStore
  import opened CustodyLaws
  import opened CustodySessions

  ghost predicate Grants(env: Env, s: Store, steps: seq<Step>, t: Store, a: Admission) {
    && Leads(env, s, steps, t) && s.replies <= t.replies
    && Admitted(Key(env, a), a) in t.replies[|s.replies|..]
  }

  lemma {:induction false} AdmissibleGranted(env: Env, s: Store, a: Admission) returns (steps: seq<Step>, t: Store)
    requires Admissible(env, s, a)
    ensures Grants(env, s, steps, t, a) && Idle(t) && NowAdmitted(env, s, t, a)
  {
    hide OperationKey, Key, Leads;
    var restart, idle := Restart(env, s);
    var admit: seq<Step>;
    admit, t := AdmitSession(env, idle, a);
    Then(env, s, restart, idle, admit, t);
    steps := restart + admit;
    assert t.replies[|s.replies|..] == [Admitted(Key(env, a), a)];
  }

  lemma {:induction false} GrantedAdmissible(env: Env, s: Store, steps: seq<Step>, t: Store, a: Admission)
    requires Reachable(env, s) && Grants(env, s, steps, t, a)
    ensures Admissible(env, s, a)
  {
    hide OperationKey, Key, Leads;
    ReachableIsGood(env, s);
    RunKeeps(env, s, steps, t);
    var r := Admitted(Key(env, a), a);
    var n :| 0 <= n < |t.replies| - |s.replies| && t.replies[|s.replies|..][n] == r;
    assert t.replies[|s.replies| + n] == r;
    assert r in t.replies;
  }

  /** From any reachable state, however an earlier attempt was interrupted, some continuation grants the
      admission if and only if it is admissible in that state. */
  lemma {:induction false} GrantedIffAdmissible(env: Env, s: Store, a: Admission)
    requires Reachable(env, s)
    ensures (exists steps, t :: Grants(env, s, steps, t, a)) <==> Admissible(env, s, a)
  {
    hide Grants, Admissible;
    if Admissible(env, s, a) {
      var steps, t := AdmissibleGranted(env, s, a);
    }
    if exists steps, t :: Grants(env, s, steps, t, a) {
      var steps, t :| Grants(env, s, steps, t, a);
      GrantedAdmissible(env, s, steps, t, a);
    }
  }

  /** The condition on lock names is not idle: an object identifier can spell an operation's own name, and such
      an admission is accepted by validation and never granted. */
  lemma {:induction false} SelfBlockedAdmission(env: Env, s: Store, a: Admission, steps: seq<Step>, t: Store)
    requires Reachable(env, s) && a.objectId == "operation:" + a.operation
    ensures !Grants(env, s, steps, t, a)
  {
    if Grants(env, s, steps, t, a) {
      GrantedAdmissible(env, s, steps, t, a);
    }
  }
}
