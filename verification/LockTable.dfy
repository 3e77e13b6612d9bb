/** The per-key locks of the custody store: a table of weak references to mutexes, pruned when it grows.

    Every call of `lock` is a ticket. From the moment it has picked its mutex until its guard is dropped,
    or until it gives up waiting, a ticket keeps that mutex alive; a mutex with no ticket is dead and
    upgrading the weak reference to it fails. */
module LockTable {

  datatype Ticket = Ticket(key: string, mutex: nat, holding: bool)

  /** `next` is the identity the next created mutex will get. */
  datatype Table = Table(locks: map<string, nat>, tickets: map<nat, Ticket>, next: nat)

  const EMPTY: Table := Table(map[], map[], 0)

  const PRUNE_ABOVE: nat := 1024

  ghost predicate Alive(tickets: map<nat, Ticket>, mutex: nat) {
    exists id :: id in tickets && tickets[id].mutex == mutex
  }

  /** The table after the optional pruning that precedes a lookup. */
  ghost predicate Pruned(t: Table, locks: map<string, nat>) {
    if |t.locks| > PRUNE_ABOVE then
      && (forall k :: k in locks <==> k in t.locks && Alive(t.tickets, t.locks[k]))
      && forall k :: k in locks ==> locks[k] == t.locks[k]
    else locks == t.locks
  }

  /** The critical section: prune, then reuse a live mutex or create one. */
  ghost predicate Request(t: Table, t': Table, id: nat, key: string) {
    id !in t.tickets &&
    exists locks :: Pruned(t, locks) && Picked(t, t', id, key, locks)
  }

  ghost predicate Picked(t: Table, t': Table, id: nat, key: string, locks: map<string, nat>) {
    if key in locks && Alive(t.tickets, locks[key]) then
      && t'.locks == locks && t'.next == t.next
      && t'.tickets == t.tickets[id := Ticket(key, locks[key], false)]
    else
      && t'.locks == locks[key := t.next] && t'.next == t.next + 1
      && t'.tickets == t.tickets[id := Ticket(key, t.next, false)]
  }

  /** The mutex itself: granted only when nobody holds it. */
  ghost predicate Grant(t: Table, t': Table, id: nat) {
    && id in t.tickets && !t.tickets[id].holding
    && (forall other :: other in t.tickets && t.tickets[other].mutex == t.tickets[id].mutex
                        ==> !t.tickets[other].holding)
    && t'.locks == t.locks && t'.next == t.next
    && t'.tickets == t.tickets[id := Ticket(t.tickets[id].key, t.tickets[id].mutex, true)]
  }

  /** A guard is dropped, or a waiter times out or is cancelled. */
  ghost predicate Drop(t: Table, t': Table, id: nat) {
    && id in t.tickets
    && t'.locks == t.locks && t'.next == t.next
    && t'.tickets == t.tickets - {id}
  }

  ghost predicate Next(t: Table, t': Table) {
    || (exists id, key :: Request(t, t', id, key))
    || (exists id :: Grant(t, t', id))
    || (exists id :: Drop(t, t', id))
  }

  // ---- Invariant ----

  ghost predicate Bounded(t: Table) { forall k :: k in t.locks ==> t.locks[k] < t.next }

  /** Mutexes are not shared between keys. */
  ghost predicate Separate(t: Table) {
    forall j, k :: j in t.locks && k in t.locks && t.locks[j] == t.locks[k] ==> j == k
  }

  /** Every live mutex of a key is the one the table points to. */
  ghost predicate Pointed(tickets: map<nat, Ticket>, locks: map<string, nat>) {
    forall id :: id in tickets ==> tickets[id].key in locks && locks[tickets[id].key] == tickets[id].mutex
  }

  ghost predicate OneHolder(tickets: map<nat, Ticket>) {
    forall i, j ::
      (i in tickets && j in tickets && tickets[i].holding && tickets[j].holding
       && tickets[i].mutex == tickets[j].mutex) ==> i == j
  }

  ghost predicate Inv(t: Table) {
    Bounded(t) && Separate(t) && Pointed(t.tickets, t.locks) && OneHolder(t.tickets)
  }

  /** Pruning removes dead entries only. */
  lemma {:induction false} PruneKeeps(t: Table, locks: map<string, nat>)
    requires Inv(t) && Pruned(t, locks)
    ensures Inv(Table(locks, t.tickets, t.next))
  {
    forall i | i in t.tickets
      ensures t.tickets[i].key in locks && locks[t.tickets[i].key] == t.tickets[i].mutex
    {
      assert Alive(t.tickets, t.tickets[i].mutex);
    }
  }

  lemma {:induction false} NewTicketKeeps(t: Table, t': Table, id: nat, key: string)
    requires Inv(t) && id !in t.tickets && Picked(t, t', id, key, t.locks)
    ensures Inv(t')
  {
    if key in t.locks && Alive(t.tickets, t.locks[key]) {
      assert OneHolder(t'.tickets);
    } else {
      forall i | i in t.tickets ensures t.tickets[i].key != key {
        assert Alive(t.tickets, t.tickets[i].mutex);
      }
      assert Pointed(t'.tickets, t'.locks);
      assert OneHolder(t'.tickets);
    }
  }

  lemma {:induction false} GrantKeeps(t: Table, t': Table, id: nat)
    requires Inv(t) && Grant(t, t', id)
    ensures Inv(t')
  {
    forall i | i in t'.tickets
      ensures i in t.tickets && t'.tickets[i].key == t.tickets[i].key && t'.tickets[i].mutex == t.tickets[i].mutex
      ensures i != id ==> t'.tickets[i] == t.tickets[i]
    {
    }
    assert Pointed(t'.tickets, t'.locks) && OneHolder(t'.tickets);
  }

  lemma {:induction false} NextKeeps(t: Table, t': Table)
    requires Inv(t) && Next(t, t')
    ensures Inv(t')
  {
    hide Inv, Pruned, Picked, Grant;
    if exists id, key :: Request(t, t', id, key) {
      var id, key :| Request(t, t', id, key);
      var locks :| Pruned(t, locks) && Picked(t, t', id, key, locks);
      PruneKeeps(t, locks);
      PickedAfterPruning(t, t', id, key, locks);
      NewTicketKeeps(Table(locks, t.tickets, t.next), t', id, key);
    } else if exists id :: Grant(t, t', id) {
      var id :| Grant(t, t', id);
      GrantKeeps(t, t', id);
    } else {
      var id :| Drop(t, t', id);
      DropKeeps(t, t', id);
    }
  }

  lemma {:induction false} PickedAfterPruning(t: Table, t': Table, id: nat, key: string, locks: map<string, nat>)
    requires Picked(t, t', id, key, locks)
    ensures Picked(Table(locks, t.tickets, t.next), t', id, key, locks)
  {
  }

  lemma {:induction false} DropKeeps(t: Table, t': Table, id: nat)
    requires Inv(t) && Drop(t, t', id)
    ensures Inv(t')
  {
  }

  ghost predicate Run(ts: seq<Table>) {
    ts != [] && ts[0] == EMPTY && forall i :: 0 <= i < |ts| - 1 ==> Next(ts[i], ts[i + 1])
  }

  lemma {:induction false} RunInv(ts: seq<Table>, i: nat)
    requires Run(ts) && i < |ts|
    ensures Inv(ts[i])
  {
    if i > 0 {
      RunInv(ts, i - 1);
      assert Next(ts[i - 1], ts[i - 1 + 1]);
      NextKeeps(ts[i - 1], ts[i]);
    }
  }

  /** In every state of every run, pruning included, two guards for one key never coexist. */
  lemma {:induction false} MutualExclusion(ts: seq<Table>, i: nat, a: nat, b: nat)
    requires Run(ts) && i < |ts|
    requires a in ts[i].tickets && b in ts[i].tickets
    requires ts[i].tickets[a].holding && ts[i].tickets[b].holding
    requires ts[i].tickets[a].key == ts[i].tickets[b].key
    ensures a == b
  {
    RunInv(ts, i);
  }

  // ---- The table refines plain locks ----

  /** Which ticket holds each key, if any: the lock every user of the store relies on. */
  ghost predicate Holder(t: Table, key: string, id: nat) {
    id in t.tickets && t.tickets[id].holding && t.tickets[id].key == key
  }

  ghost predicate Free(t: Table, key: string) { forall id :: !Holder(t, key, id) }

  ghost predicate SameHolders(t: Table, t': Table) {
    forall key, id :: Holder(t', key, id) <==> Holder(t, key, id)
  }

  ghost predicate Takes(t: Table, t': Table, got: string, who: nat) {
    Free(t, got) &&
    forall key, id :: Holder(t', key, id) <==> Holder(t, key, id) || (key == got && id == who)
  }

  ghost predicate LetsGo(t: Table, t': Table, who: nat) {
    forall key, id :: Holder(t', key, id) <==> Holder(t, key, id) && id != who
  }

  /** Seen from outside, a step either takes a free key for one ticket, lets one ticket go, or changes
      no holder at all. */
  lemma {:induction false} RefinesPlainLocks(t: Table, t': Table)
    requires Inv(t) && Next(t, t')
    ensures
      || SameHolders(t, t')
      || (exists got, who :: Takes(t, t', got, who))
      || (exists who :: LetsGo(t, t', who))
  {
    hide Inv, Pruned, Picked, SameHolders, Takes, LetsGo;
    if exists id, key :: Request(t, t', id, key) {
      var id, key :| Request(t, t', id, key);
      var locks :| Pruned(t, locks) && Picked(t, t', id, key, locks);
      PickedHolders(t, t', id, key, locks);
    } else if exists id :: Grant(t, t', id) {
      var who :| Grant(t, t', who);
      GrantTakes(t, t', who);
      assert Takes(t, t', t.tickets[who].key, who);
    } else {
      var who :| Drop(t, t', who);
      DropLetsGo(t, t', who);
    }
  }

  lemma {:induction false} PickedHolders(t: Table, t': Table, id: nat, key: string, locks: map<string, nat>)
    requires id !in t.tickets && Picked(t, t', id, key, locks)
    ensures SameHolders(t, t')
  {
  }

  lemma {:induction false} GrantTakes(t: Table, t': Table, who: nat)
    requires Inv(t) && Grant(t, t', who)
    ensures Takes(t, t', t.tickets[who].key, who)
  {
  }

  lemma {:induction false} DropLetsGo(t: Table, t': Table, who: nat)
    requires Drop(t, t', who)
    ensures LetsGo(t, t', who)
  {
  }

  /** A waiter is blocked by nothing but a holder of its own key: keys never wait for each other. */
  lemma {:induction false} GrantIffFree(ts: seq<Table>, i: nat, id: nat)
    requires Run(ts) && i < |ts|
    requires id in ts[i].tickets && !ts[i].tickets[id].holding
    ensures (exists t' :: Grant(ts[i], t', id)) <==> Free(ts[i], ts[i].tickets[id].key)
  {
    var t := ts[i];
    RunInv(ts, i);
    if Free(t, t.tickets[id].key) {
      var t' := Table(t.locks, t.tickets[id := Ticket(t.tickets[id].key, t.tickets[id].mutex, true)], t.next);
      forall other | other in t.tickets && t.tickets[other].mutex == t.tickets[id].mutex
        ensures !t.tickets[other].holding
      {
        assert !Holder(t, t.tickets[other].key, other);
      }
      assert Grant(t, t', id);
    }
    if exists t' :: Grant(t, t', id) {
      var t' :| Grant(t, t', id);
      forall other ensures !Holder(t, t.tickets[id].key, other) { }
    }
  }

  // ---- The table stays small ----

  ghost function KeysInUse(tickets: map<nat, Ticket>): set<string> { set id | id in tickets :: tickets[id].key }

  lemma {:induction false} FewKeysInUse(tickets: map<nat, Ticket>)
    ensures |KeysInUse(tickets)| <= |tickets|
    decreases |tickets|
  {
    if tickets != map[] {
      var id :| id in tickets;
      var rest := tickets - {id};
      assert rest.Keys == tickets.Keys - {id};
      assert |rest| == |rest.Keys| && |tickets| == |tickets.Keys|;
      FewKeysInUse(rest);
      assert KeysInUse(tickets) == KeysInUse(rest) + {tickets[id].key};
    } else {
      assert KeysInUse(tickets) == {};
    }
  }

  lemma {:induction false} SubsetSmaller(a: set<string>, b: set<string>)
    requires a <= b
    ensures |a| <= |b|
  {
    assert b == a + (b - a);
  }

  /** What pruning leaves is in use. */
  lemma {:induction false} PrunedInUse(t: Table, locks: map<string, nat>)
    requires Inv(t) && Pruned(t, locks)
    ensures |locks| <= PRUNE_ABOVE || |locks| <= |t.tickets|
  {
    hide OneHolder, Bounded;
    if |t.locks| > PRUNE_ABOVE {
      forall k | k in locks ensures k in KeysInUse(t.tickets) {
        var id :| id in t.tickets && t.tickets[id].mutex == t.locks[k];
        assert t.tickets[id].key == k;
      }
      SubsetSmaller(locks.Keys, KeysInUse(t.tickets));
      FewKeysInUse(t.tickets);
      assert |locks| == |locks.Keys|;
    }
  }

  lemma {:induction false} PickedGrows(t: Table, t': Table, id: nat, key: string, locks: map<string, nat>)
    requires Picked(t, t', id, key, locks)
    ensures |t'.locks| <= |locks| + 1
  {
    if t'.locks != locks {
      assert t'.locks.Keys == locks.Keys + {key};
      assert |t'.locks| == |t'.locks.Keys| && |locks| == |locks.Keys|;
    }
  }

  /** As long as at most `n` locks are wanted or held at a time, the table never has more than the larger of
      1024 and `n` entries, and one. */
  lemma {:induction false} TableBounded(ts: seq<Table>, i: nat, n: nat)
    requires Run(ts) && i < |ts| && forall j :: 0 <= j < i ==> |ts[j].tickets| <= n
    ensures |ts[i].locks| <= (if n > PRUNE_ABOVE then n else PRUNE_ABOVE) + 1
  {
    hide Inv, Pruned, Picked, Grant, Drop;
    if i > 0 {
      TableBounded(ts, i - 1, n);
      var t, t' := ts[i - 1], ts[i];
      assert Next(ts[i - 1], ts[i - 1 + 1]);
      RunInv(ts, i - 1);
      if exists id, key :: Request(t, t', id, key) {
        var id, key :| Request(t, t', id, key);
        var locks :| Pruned(t, locks) && Picked(t, t', id, key, locks);
        PrunedInUse(t, locks);
        PickedGrows(t, t', id, key, locks);
      } else {
        SameLocks(t, t');
      }
    }
  }

  lemma {:induction false} SameLocks(t: Table, t': Table)
    requires (exists id :: Grant(t, t', id)) || (exists id :: Drop(t, t', id))
    ensures t'.locks == t.locks
  {
  }

  /** A lock can always be asked for, under any key; the caller gets a ticket for that key, not yet holding. */
  lemma {:induction false} RequestAlways(t: Table, id: nat, key: string) returns (t': Table)
    requires id !in t.tickets
    ensures Request(t, t', id, key) && id in t'.tickets && t'.tickets[id].key == key && !t'.tickets[id].holding
  {
    hide Alive;
    var locks := if |t.locks| > PRUNE_ABOVE
                 then map k | k in t.locks && Alive(t.tickets, t.locks[k]) :: t.locks[k] else t.locks;
    assert Pruned(t, locks);
    if key in locks && Alive(t.tickets, locks[key]) {
      t' := Table(locks, t.tickets[id := Ticket(key, locks[key], false)], t.next);
    } else {
      t' := Table(locks[key := t.next], t.tickets[id := Ticket(key, t.next, false)], t.next + 1);
    }
    assert Picked(t, t', id, key, locks);
  }
}
