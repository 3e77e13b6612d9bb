/** Responses carry no identifier: the client pairs them with its callers by position alone.

    A call is numbered by its place in the queue of waiters. Sends hold the writer for the whole call, so queueing
    and writing one command are not interleaved with another send; everything else interleaves freely. */
module IpcPairing {

  /** What the server puts on the wire; a response is tagged here with the call it answers. */
  datatype Message = Response(call: nat) | Event

  /** A response handed to a waiter, or found without one. */
  datatype Delivery = Delivered(waiter: nat, call: nat) | Orphan(call: nat)

  datatype State = State(
    queued: nat,
    writing: bool,
    commands: seq<nat>,
    served: nat,
    busy: bool,
    messages: seq<Message>,
    seen: nat,
    popped: nat,
    deliveries: seq<Delivery>)

  const START := State(0, false, [], 0, false, [], 0, 0, [])

  datatype Step = Queue | Write | Refuse | Receive | Respond | Emit | Dispatch

  /** `Refuse` is a command too large to write: the call fails and its waiter stays in the queue. */
  ghost predicate Next(s: State, s': State, step: Step) {
    match step
    case Queue => !s.writing && s' == s.(queued := s.queued + 1, writing := true)
    case Write => s.writing && s.queued > 0 && s' == s.(commands := s.commands + [s.queued - 1], writing := false)
    case Refuse => s.writing && s' == s.(writing := false)
    case Receive => !s.busy && s.served < |s.commands| && s' == s.(busy := true)
    case Respond => s.busy && s.served < |s.commands|
                    && s' == s.(busy := false, served := s.served + 1,
                                messages := s.messages + [Response(s.commands[s.served])])
    case Emit => s' == s.(messages := s.messages + [Event])
    case Dispatch =>
      && s.seen < |s.messages|
      && s' == (match s.messages[s.seen]
                case Event => s.(seen := s.seen + 1)
                case Response(call) =>
                  if s.popped < s.queued
                  then s.(seen := s.seen + 1, popped := s.popped + 1,
                          deliveries := s.deliveries + [Delivered(s.popped, call)])
                  else s.(seen := s.seen + 1, deliveries := s.deliveries + [Orphan(call)]))
  }

  function Answers(messages: seq<Message>): seq<nat> {
    if messages == [] then []
    else
      var last := messages[|messages| - 1];
      Answers(messages[..|messages| - 1]) + if last.Response? then [last.call] else []
  }

  predicate Increasing(s: seq<nat>) { forall i, j :: 0 <= i < j < |s| ==> s[i] < s[j] }

  /** Commands are written in the order of their calls, answered in that order, and the k-th answer seen goes to
      the k-th waiter. */
  ghost predicate Inv(s: State) {
    && Increasing(s.commands)
    && (forall k :: 0 <= k < |s.commands| ==> s.commands[k] < s.queued - (if s.writing then 1 else 0))
    && s.served <= |s.commands| && (s.busy ==> s.served < |s.commands|) && (s.writing ==> s.queued > 0)
    && s.seen <= |s.messages|
    && Answers(s.messages) == s.commands[..s.served]
    && |Answers(s.messages[..s.seen])| == |s.deliveries|
    && s.popped == |s.deliveries| <= s.served
    && (forall k :: 0 <= k < |s.deliveries| ==> s.deliveries[k] == Delivered(k, s.commands[k]))
  }

  lemma {:induction false} AnswersSnoc(ms: seq<Message>, m: Message)
    ensures Answers(ms + [m]) == Answers(ms) + if m.Response? then [m.call] else []
  {
    assert (ms + [m])[..|ms|] == ms;
  }

  lemma {:induction false} AnswersPrefix(ms: seq<Message>, n: nat)
    requires n <= |ms|
    ensures Answers(ms[..n]) <= Answers(ms)
    decreases |ms|
  {
    if n < |ms| {
      AnswersPrefix(ms[..|ms| - 1], n);
      assert ms[..|ms| - 1][..n] == ms[..n];
    } else {
      assert ms[..n] == ms;
    }
  }

  /** Seen so far, and one more. */
  lemma {:induction false} AnswersNext(ms: seq<Message>, n: nat)
    requires n < |ms|
    ensures Answers(ms[..n + 1]) == Answers(ms[..n]) + if ms[n].Response? then [ms[n].call] else []
    ensures Answers(ms[..n + 1]) <= Answers(ms)
  {
    assert ms[..n + 1] == ms[..n] + [ms[n]];
    AnswersSnoc(ms[..n], ms[n]);
    AnswersPrefix(ms, n + 1);
  }

  lemma {:induction false} IncreasingAtLeast(s: seq<nat>, k: nat)
    requires Increasing(s) && k < |s|
    ensures s[k] >= k
  {
    if k > 0 { IncreasingAtLeast(s, k - 1); }
  }

  lemma {:induction false} DispatchKeeps(s: State, s': State)
    requires Inv(s) && Next(s, s', Dispatch)
    ensures Inv(s')
  {
    hide Answers, Increasing;
    var n := s.seen;
    AnswersNext(s.messages, n);
    if s.messages[n].Response? {
      var k := |s.deliveries|;
      assert Answers(s.messages[..n + 1])[k] == s.messages[n].call;
      assert Answers(s.messages)[k] == s.messages[n].call;
      assert s.messages[n].call == s.commands[k];
      IncreasingAtLeast(s.commands, k);
    }
  }

  lemma {:induction false} RespondKeeps(s: State, s': State)
    requires Inv(s) && Next(s, s', Respond)
    ensures Inv(s')
  {
    hide Answers, Increasing;
    AnswersSnoc(s.messages, Response(s.commands[s.served]));
    assert s'.messages[..s.seen] == s.messages[..s.seen];
    assert s.commands[..s.served + 1] == s.commands[..s.served] + [s.commands[s.served]];
  }

  lemma {:induction false} EmitKeeps(s: State, s': State)
    requires Inv(s) && Next(s, s', Emit)
    ensures Inv(s')
  {
    hide Answers, Increasing;
    AnswersSnoc(s.messages, Event);
    assert s'.messages[..s.seen] == s.messages[..s.seen];
  }

  lemma {:induction false} WriteKeeps(s: State, s': State)
    requires Inv(s) && Next(s, s', Write)
    ensures Inv(s')
  {
    hide Answers;
    assert s'.commands[..s.served] == s.commands[..s.served];
    assert forall k :: 0 <= k < |s.commands| ==> s'.commands[k] == s.commands[k];
  }

  lemma {:induction false} QuietKeeps(s: State, s': State, step: Step)
    requires Inv(s) && Next(s, s', step) && (step.Queue? || step.Refuse? || step.Receive?)
    ensures Inv(s')
  {
    hide Answers, Increasing;
  }

  lemma {:induction false} NextKeeps(s: State, s': State, step: Step)
    requires Inv(s) && Next(s, s', step)
    ensures Inv(s')
  {
    hide Inv, Next;
    match step {
      case Dispatch => DispatchKeeps(s, s');
      case Respond => RespondKeeps(s, s');
      case Emit => EmitKeeps(s, s');
      case Write => WriteKeeps(s, s');
      case _ => QuietKeeps(s, s', step);
    }
  }

  // ---- Runs ----

  ghost predicate Run(ss: seq<State>) {
    |ss| > 0 && ss[0] == START && forall i :: 0 <= i < |ss| - 1 ==> Steps(ss[i], ss[i + 1])
  }

  ghost predicate Steps(s: State, s': State) { exists step :: Next(s, s', step) }

  lemma {:induction false} RunInv(ss: seq<State>, i: nat)
    requires Run(ss) && i < |ss|
    ensures Inv(ss[i])
  {
    if i > 0 {
      RunInv(ss, i - 1);
      assert Steps(ss[i - 1], ss[i - 1 + 1]);
      var step :| Next(ss[i - 1], ss[i], step);
      NextKeeps(ss[i - 1], ss[i], step);
    }
  }

  /** In every run no response is without a waiter, and the k-th goes to the k-th call. */
  lemma {:induction false} NoOrphans(ss: seq<State>, i: nat, k: nat)
    requires Run(ss) && i < |ss| && k < |ss[i].deliveries|
    ensures ss[i].deliveries[k].Delivered? && ss[i].deliveries[k].waiter == k
    ensures k < |ss[i].commands| && ss[i].deliveries[k].call == ss[i].commands[k]
  {
    RunInv(ss, i);
  }

  /** The next thing the server or the client's dispatcher can do, if anything is left to do. */
  lemma {:induction false} Progress(s: State) returns (s': State)
    requires Inv(s) && (s.served < |s.commands| || s.seen < |s.messages|)
    ensures Steps(s, s') && s'.commands == s.commands && s.served <= s'.served
    ensures Left(s') < Left(s) || (Left(s') == Left(s) && |s'.messages| - s'.seen < |s.messages| - s.seen)
  {
    var step: Step;
    if s.served == |s.commands| {
      step := Dispatch;
      s' := match s.messages[s.seen]
            case Event => s.(seen := s.seen + 1)
            case Response(call) =>
              if s.popped < s.queued
              then s.(seen := s.seen + 1, popped := s.popped + 1, deliveries := s.deliveries + [Delivered(s.popped, call)])
              else s.(seen := s.seen + 1, deliveries := s.deliveries + [Orphan(call)]);
    } else if s.busy {
      step := Respond;
      s' := s.(busy := false, served := s.served + 1, messages := s.messages + [Response(s.commands[s.served])]);
    } else {
      step := Receive;
      s' := s.(busy := true);
    }
    assert Next(s, s', step);
  }

  /** Turns the server still has to take. */
  function Left(s: State): int { 2 * (|s.commands| - s.served) - if s.busy then 1 else 0 }

  /** Whatever has been written can be answered, and the answer handed on: from any state of any run some
      continuation serves every command already written, in order, each to the waiter of its place. */
  lemma {:induction false} EveryCommandServed(ss: seq<State>) returns (more: seq<State>)
    requires Run(ss)
    ensures Run(ss + more)
    ensures var s, t := ss[|ss| - 1], (ss + more)[|ss + more| - 1];
            t.commands == s.commands && |t.deliveries| == |s.commands|
            && forall k :: 0 <= k < |s.commands| ==> t.deliveries[k] == Delivered(k, s.commands[k])
    decreases Left(ss[|ss| - 1]) + 1, |ss[|ss| - 1].messages| - ss[|ss| - 1].seen
  {
    hide Next, Answers, Increasing, Left;
    var s := ss[|ss| - 1];
    RunInv(ss, |ss| - 1);
    if s.served == |s.commands| && s.seen == |s.messages| {
      assert s.messages[..s.seen] == s.messages && s.commands[..s.served] == s.commands;
      more := [];
      assert ss + more == ss;
    } else {
      var s' := Progress(s);
      LeftIsNatural(s);
      RunSnoc(ss, s');
      var rest := EveryCommandServed(ss + [s']);
      more := [s'] + rest;
      assert ss + more == ss + [s'] + rest;
    }
  }

  lemma {:induction false} LeftIsNatural(s: State)
    requires Inv(s)
    ensures Left(s) >= 0
  {
    hide Answers, Increasing;
  }

  lemma {:induction false} RunSnoc(ss: seq<State>, s: State)
    requires Run(ss) && Steps(ss[|ss| - 1], s)
    ensures Run(ss + [s])
  {
    hide Steps;
  }

  /** Calls whose command never went out. */
  predicate Unsent(s: State, call: nat) { call < s.queued && !(s.writing && call == s.queued - 1) && call !in s.commands }

  lemma {:induction false} AllSentInOrder(s: State, k: nat)
    requires Inv(s) && k < |s.commands|
    ensures s.commands[k] == k <==> forall call: nat :: call <= k ==> !Unsent(s, call)
  {
    if s.commands[k] == k {
      forall call: nat | call <= k ensures call in s.commands {
        BelowAreSent(s.commands, k, call);
      }
    } else if forall call: nat :: call <= k ==> !Unsent(s, call) {
      IncreasingAtLeast(s.commands, k);
      assert s.commands[k] > k;
      forall call: nat | call <= k ensures call in s.commands { assert !Unsent(s, call); }
      Crowded(s.commands, k);
    }
  }

  /** The k-th of an increasing sequence being k, everything below is in it. */
  lemma {:induction false} BelowAreSent(s: seq<nat>, k: nat, call: nat)
    requires Increasing(s) && k < |s| && s[k] == k && call <= k
    ensures call in s
  {
    if call < k {
      IncreasingAtLeast(s, k - 1);
      BelowAreSent(s, k - 1, call);
    }
  }

  /** All of 0 to k being in an increasing sequence, its k-th is k. */
  lemma {:induction false} Crowded(s: seq<nat>, k: nat)
    requires Increasing(s) && k < |s| && forall call: nat :: call <= k ==> call in s
    ensures s[k] == k
  {
    if k > 0 { Crowded(s, k - 1); }
    IncreasingAtLeast(s, k);
    assert k in s;
    var j :| 0 <= j < |s| && s[j] == k;
    assert k > 0 ==> forall i :: 0 <= i < k ==> s[i] <= s[k - 1];
  }

  /** The right caller gets the k-th response exactly when none of the calls up to the k-th failed to go out. */
  lemma {:induction false} PairedIff(ss: seq<State>, i: nat, k: nat)
    requires Run(ss) && i < |ss| && k < |ss[i].deliveries|
    ensures ss[i].deliveries[k] == Delivered(k, k) <==> forall call: nat :: call <= k ==> !Unsent(ss[i], call)
  {
    RunInv(ss, i);
    AllSentInOrder(ss[i], k);
  }

  /** Where every queued command is written whole, every response reaches the call it answers. */
  lemma {:induction false} PairedWhenWritten(ss: seq<State>, i: nat, k: nat)
    requires Run(ss) && i < |ss| && k < |ss[i].deliveries|
    requires forall j :: 0 <= j < i ==> !Next(ss[j], ss[j + 1], Refuse)
    ensures ss[i].deliveries[k] == Delivered(k, k)
  {
    RunInv(ss, i);
    AllWritten(ss, i);
    PairedIff(ss, i, k);
  }

  lemma {:induction false} AllWritten(ss: seq<State>, i: nat)
    requires Run(ss) && i < |ss| && forall j :: 0 <= j < i ==> !Next(ss[j], ss[j + 1], Refuse)
    ensures forall call: nat :: !Unsent(ss[i], call)
  {
    if i > 0 {
      AllWritten(ss, i - 1);
      assert Steps(ss[i - 1], ss[i - 1 + 1]);
      var step :| Next(ss[i - 1], ss[i], step);
      assert !Next(ss[i - 1], ss[i - 1 + 1], Refuse);
      forall call: nat ensures !Unsent(ss[i], call) {
        assert !Unsent(ss[i - 1], call);
        if step.Write? { assert ss[i].commands[|ss[i].commands| - 1] == ss[i - 1].queued - 1; }
      }
    }
  }

  const REFUSED := START.(queued := 1)
  const SENT := REFUSED.(queued := 2, commands := [1])
  const ANSWERED := SENT.(served := 1, messages := [Response(1)])
  const SHIFTED := ANSWERED.(seen := 1, popped := 1, deliveries := [Delivered(0, 1)])

  lemma {:induction false} ShiftSteps()
    ensures Next(START, REFUSED.(writing := true), Queue) && Next(REFUSED.(writing := true), REFUSED, Refuse)
    ensures Next(REFUSED, REFUSED.(queued := 2, writing := true), Queue)
    ensures Next(REFUSED.(queued := 2, writing := true), SENT, Write)
    ensures Next(SENT, SENT.(busy := true), Receive) && Next(SENT.(busy := true), ANSWERED, Respond)
    ensures Next(ANSWERED, SHIFTED, Dispatch)
  {
  }

  /** A refused command followed by a good one: the answer to the second call is given to the first. */
  lemma {:induction false} RefusedShifts() returns (ss: seq<State>)
    ensures Run(ss) && ss[|ss| - 1].deliveries == [Delivered(0, 1)]
  {
    ShiftSteps();
    hide Next;
    ss := [START, REFUSED.(writing := true), REFUSED, REFUSED.(queued := 2, writing := true), SENT, SENT.(busy := true),
           ANSWERED, SHIFTED];
    forall i | 0 <= i < |ss| - 1 ensures Steps(ss[i], ss[i + 1]) { }
  }
}
