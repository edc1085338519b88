/** ActiveObject and SharedQueue: any number of senders, one worker and the destructor, as a transition system. A push or
    a pop is one step, since it holds the mutex; notify_one comes after the mutex is released, as a step of its own. */
module ActiveObject {
  /** What the queue holds: callbacks, and the destructor's own message that sets iDone. */
  datatype Message<T> = Callback(f: T) | Finish

  /** run(): at the loop test, about to lock for pop, asleep on the condition, awake again, or inside a callback. */
  datatype Worker<T> = Test | Lock | Waiting | Woken | Calling(m: Message<T>) | Ended

  datatype Destructor = Alive | Joining | Joined

  /** notifies counts the senders that have released the mutex but not yet called notify_one. pushed and ran are
      histories: all messages in the order they entered the queue, and those whose call has returned. */
  datatype State<T> = State(
    queue: seq<Message<T>>, w: Worker<T>, done: bool, notifies: nat, d: Destructor,
    pushed: seq<Message<T>>, ran: seq<Message<T>>)

  /** Wake is the condition's own, possibly spurious, wake-up. */
  datatype Action<T> = Send(f: T) | Notify | Wake | WorkerStep | Destroy | Join

  function Init<T>(): State<T> {
    State([], Test, false, 0, Alive, [], [])
  }

  /** SharedQueue::push, up to the release of the mutex. */
  function Push<T>(s: State<T>, m: Message<T>): State<T> {
    s.(queue := s.queue + [m], notifies := s.notifies + 1, pushed := s.pushed + [m])
  }

  /** SharedQueue::pop with the mutex held: the predicate first, then moveAndPop. */
  function Pop<T>(s: State<T>): State<T> {
    if s.queue == [] then s.(w := Waiting) else s.(queue := s.queue[1..], w := Calling(s.queue[0]))
  }

  function Work<T>(s: State<T>): State<T> {
    match s.w
    case Test => s.(w := if s.done then Ended else Lock)
    case Lock => Pop(s)
    case Woken => Pop(s)
    case Calling(m) => s.(w := Test, done := s.done || m.Finish?, ran := s.ran + [m])
    case _ => s
  }

  /** Actions that are not enabled change nothing. A callback may itself send, so Send is always possible. */
  function Step<T>(s: State<T>, a: Action<T>): State<T> {
    match a
    case Send(f) => Push(s, Callback(f))
    case Notify => if s.notifies == 0 then s else s.(notifies := s.notifies - 1, w := if s.w.Waiting? then Woken else s.w)
    case Wake => if s.w.Waiting? then s.(w := Woken) else s
    case WorkerStep => Work(s)
    case Destroy => if s.d.Alive? then Push(s, Finish).(d := Joining) else s
    case Join => if s.d.Joining? && s.w.Ended? then s.(d := Joined) else s
  }

  function Run<T>(s: State<T>, acts: seq<Action<T>>): State<T> {
    if acts == [] then s else Step(Run(s, acts[..|acts| - 1]), acts[|acts| - 1])
  }

  /** The message in the worker's hands. */
  function InHand<T>(s: State<T>): seq<Message<T>> {
    if s.w.Calling? then [s.w.m] else []
  }

  /** No message of the list is the destructor's. */
  predicate Unfinished<T>(ms: seq<Message<T>>) {
    forall i :: 0 <= i < |ms| ==> ms[i].Callback?
  }

  /** The destructor's message is in the list, behind callbacks only. */
  predicate HasFinish<T>(ms: seq<Message<T>>) {
    exists i :: 0 <= i < |ms| && ms[i].Finish? && Unfinished(ms[..i])
  }

  /** Messages leave the queue in the order they entered, each into one call. */
  predicate Ordered<T(==)>(s: State<T>) {
    s.pushed == s.ran + InHand(s) + s.queue
  }

  predicate Sent<T>(s: State<T>) {
    if s.d.Alive? then Unfinished(s.pushed) else HasFinish(s.pushed)
  }

  /** The destructor's message is the last to run, and ends the loop. */
  predicate Ending<T>(s: State<T>) {
    && (s.d.Joined? ==> s.w.Ended?)
    && (if s.done then (s.w.Test? || s.w.Ended?) && |s.ran| >= 1 && s.ran[|s.ran| - 1].Finish? && Unfinished(s.ran[..|s.ran| - 1])
        else Unfinished(s.ran) && !s.w.Ended?)
  }

  /** A worker asleep beside a non-empty queue has a notification coming, and there is at most one for each message. */
  predicate Alert<T(==)>(s: State<T>) {
    && (s.w.Waiting? && s.queue != [] ==> s.notifies >= 1)
    && s.notifies <= |s.pushed|
  }

  /** The invariant. */
  predicate Good<T(==)>(s: State<T>) {
    Ordered(s) && Sent(s) && Ending(s) && Alert(s)
  }

  lemma PushSent<T>(ms: seq<Message<T>>, m: Message<T>)
    ensures HasFinish(ms) ==> HasFinish(ms + [m])
    ensures Unfinished(ms) ==> if m.Finish? then HasFinish(ms + [m]) else Unfinished(ms + [m])
  {
    if HasFinish(ms) {
      var i :| 0 <= i < |ms| && ms[i].Finish? && Unfinished(ms[..i]);
      assert (ms + [m])[i].Finish? && (ms + [m])[..i] == ms[..i];
    }
    if Unfinished(ms) && m.Finish? {
      assert (ms + [m])[..|ms|] == ms;
    }
  }

  lemma PushGood<T>(s: State<T>, m: Message<T>)
    requires Good(s) && (m.Callback? || s.d.Alive?)
    ensures var s' := Push(s, m); Good(if m.Finish? then s'.(d := Joining) else s')
  {
    hide HasFinish, Unfinished;
    PushSent(s.pushed, m);
    var s' := Push(s, m);
    assert s'.pushed == s'.ran + InHand(s') + s'.queue;
  }

  lemma WorkOrdered<T>(s: State<T>)
    requires Ordered(s)
    ensures Ordered(Work(s)) && Work(s).pushed == s.pushed && Work(s).d == s.d
  {
    var s' := Work(s);
    if s.w.Calling? {
      assert s'.ran + InHand(s') == s.ran + InHand(s);
    } else if s.queue != [] && (s.w.Lock? || s.w.Woken?) {
      assert s.ran + [] == s.ran;
      assert s.queue == [s.queue[0]] + s.queue[1..];
      assert s.ran + ([s.queue[0]] + s.queue[1..]) == s.ran + [s.queue[0]] + s.queue[1..];
    }
  }

  lemma WorkEnding<T>(s: State<T>)
    requires Ending(s)
    ensures Ending(Work(s))
  {
    if s.w.Calling? {
      assert Work(s).ran[..|s.ran|] == s.ran;
    }
  }

  lemma StepGood<T>(s: State<T>, a: Action<T>)
    requires Good(s)
    ensures Good(Step(s, a))
  {
    hide HasFinish, Unfinished;
    match a
    case Send(f) => PushGood(s, Callback(f));
    case Destroy =>
      if s.d.Alive? {
        PushGood(s, Finish);
      }
    case WorkerStep =>
      WorkOrdered(s);
      WorkEnding(s);
      hide Ordered, Ending;
    case _ =>
      hide Unfinished;
  }

  lemma {:induction false} Reachable<T>(acts: seq<Action<T>>)
    ensures Good(Run(Init(), acts))
    decreases |acts|
  {
    if acts != [] {
      Reachable(acts[..|acts| - 1]);
      StepGood(Run(Init(), acts[..|acts| - 1]), acts[|acts| - 1]);
    }
  }

  /** In every interleaving the calls that have returned are the first messages pushed, each once and in order, and
      nothing that was pushed behind the destructor's message is ever called. */
  lemma RunsInOrder<T>(acts: seq<Action<T>>)
    ensures var s := Run(Init<T>(), acts);
            && s.ran + InHand(s) <= s.pushed
            && forall i :: 0 <= i < |s.ran + InHand(s)| - 1 ==> s.pushed[i].Callback?
  {
    Reachable(acts);
    var s := Run(Init<T>(), acts);
    var called := s.ran + InHand(s);
    assert s.pushed == called + s.queue;
    forall i | 0 <= i < |called| - 1 ensures s.pushed[i].Callback? {
      assert s.pushed[i] == called[i] == s.ran[i];
    }
  }

  /** When the destructor's join returns, exactly the callbacks pushed before its message have run, in order. */
  lemma JoinedMeansAllRun<T>(acts: seq<Action<T>>)
    requires Run(Init<T>(), acts).d.Joined?
    ensures var s := Run(Init<T>(), acts);
            exists n :: 0 <= n < |s.pushed| && s.pushed[n].Finish? && Unfinished(s.pushed[..n]) && s.ran == s.pushed[..n] + [Finish]
  {
    Reachable(acts);
    var s := Run(Init<T>(), acts);
    var n := |s.ran| - 1;
    assert s.pushed[..n] == s.ran[..n] && s.pushed[n] == s.ran[n];
    assert s.ran == s.pushed[..n] + [Finish];
  }

  // ---- the join returns ----

  /** Messages in the list up to and including the destructor's. */
  function UpToFinish<T>(ms: seq<Message<T>>): nat {
    if ms == [] then 0 else if ms[0].Finish? then 1 else if UpToFinish(ms[1..]) == 0 then 0 else 1 + UpToFinish(ms[1..])
  }

  /** What the worker still has to do: five steps at most for each message left, and those of the current one. */
  function Remaining<T(==)>(s: State<T>): nat {
    (if s.done || s.w == Calling(Finish) then 0 else 5 * UpToFinish(s.queue)) +
    match s.w
    case Ended => 0
    case Lock => 2
    case Woken => 2
    case Test => 3
    case Waiting => 3
    case Calling(_) => 4
  }

  /** The destructor's message is in the queue, in the worker's hands, or done. */
  predicate Finishing<T(==)>(s: State<T>) {
    Good(s) && !s.d.Alive?
  }

  /** A step that gets the worker on: its own, unless it sleeps, or one that wakes it. */
  predicate Advances<T>(s: State<T>, a: Action<T>) {
    (a.WorkerStep? && !s.w.Waiting? && !s.w.Ended?) || (s.w.Waiting? && (a.Wake? || (a.Notify? && s.notifies >= 1)))
  }

  lemma {:induction false} FinishAhead<T>(ms: seq<Message<T>>, m: Message<T>)
    ensures UpToFinish(ms + [m]) == if UpToFinish(ms) > 0 then UpToFinish(ms) else if m.Finish? then |ms| + 1 else 0
    ensures UpToFinish(ms) == 0 <==> Unfinished(ms)
    decreases |ms|
  {
    if ms == [] {
      assert [m][1..] == [];
    } else {
      FinishAhead(ms[1..], m);
      assert (ms + [m])[1..] == ms[1..] + [m];
      assert Unfinished(ms) <==> ms[0].Callback? && Unfinished(ms[1..]) by {
        assert forall i :: 1 <= i < |ms| ==> ms[i] == ms[1..][i - 1];
      }
    }
  }

  /** While the loop has not ended, the destructor's message is still to come or in hand. */
  lemma FinishComes<T>(s: State<T>)
    requires Finishing(s) && !s.done
    ensures UpToFinish(s.queue) >= 1 || s.w == Calling(Finish)
  {
    var i :| 0 <= i < |s.pushed| && s.pushed[i].Finish? && Unfinished(s.pushed[..i]);
    FinishAhead(s.queue, Finish);
    var called := s.ran + InHand(s);
    if i >= |called| {
      assert s.queue[i - |called|] == s.pushed[i];
    } else {
      assert called[i] == s.pushed[i];
      assert i >= |s.ran|;
    }
  }

  lemma WorkComesNearer<T>(s: State<T>)
    requires !s.done && s.w.Lock? ==> s.queue != []
    requires s.queue != [] && s.w != Calling(Finish) ==> UpToFinish(s.queue) >= 1 || s.done || s.w.Ended?
    requires s.done ==> s.w.Test? || s.w.Ended?
    requires s.w.Woken? ==> s.queue != []
    ensures Remaining(Work(s)) <= Remaining(s)
    ensures !s.w.Waiting? && !s.w.Ended? ==> Remaining(Work(s)) < Remaining(s)
  {}

  /** From the moment the destructor has pushed its message the worker is never stuck: it can step or is about to be
      woken; every step of it brings the end of the loop nearer, and nothing that senders do pushes the end away. */
  lemma EndComesNearer<T>(s: State<T>, a: Action<T>)
    requires Finishing(s)
    ensures Finishing(Step(s, a)) && Remaining(Step(s, a)) <= Remaining(s)
    ensures Advances(s, a) ==> Remaining(Step(s, a)) < Remaining(s)
    ensures Remaining(s) == 0 ==> s.w.Ended?
    ensures !s.w.Ended? ==> Advances(s, WorkerStep) || Advances(s, Notify)
  {
    StepGood(s, a);
    if !s.done {
      FinishComes(s);
    }
    hide Good, HasFinish, Unfinished, UpToFinish;
    EndingFacts(s);
    match a
    case Send(f) => FinishAhead(s.queue, Callback(f));
    case WorkerStep =>
      NoneUpToFinish<T>();
      WorkComesNearer(s);
    case _ =>
  }

  lemma EndingFacts<T>(s: State<T>)
    requires Good(s)
    ensures s.done ==> s.w.Test? || s.w.Ended?
    ensures !s.done ==> !s.w.Ended?
    ensures s.w.Waiting? && s.queue != [] ==> s.notifies >= 1
  {
    hide Ordered, Sent, Unfinished;
  }

  lemma NoneUpToFinish<T>()
    ensures UpToFinish<T>([]) == 0
  {}

  /** How many steps of a run get the worker on. */
  function Advancing<T>(s: State<T>, acts: seq<Action<T>>): nat {
    if acts == [] then 0
    else
      var n := |acts| - 1;
      Advancing(s, acts[..n]) + if Advances(Run(s, acts[..n]), acts[n]) then 1 else 0
  }

  /** So the join completes: in any run from there, after at most Remaining(s) steps that get the worker on, whatever the
      senders do in between, the loop has ended. */
  lemma {:induction false} LoopEnds<T>(s: State<T>, acts: seq<Action<T>>)
    requires Finishing(s)
    ensures Finishing(Run(s, acts)) && Remaining(Run(s, acts)) + Advancing(s, acts) <= Remaining(s)
    ensures Advancing(s, acts) >= Remaining(s) ==> Run(s, acts).w.Ended?
    decreases |acts|
  {
    hide Finishing, Remaining, Step, Advances;
    if acts == [] {
      EndComesNearer(s, WorkerStep);
    } else {
      var n := |acts| - 1;
      LoopEnds(s, acts[..n]);
      EndComesNearer(Run(s, acts[..n]), acts[n]);
      EndComesNearer(Run(s, acts), WorkerStep);
    }
  }

  // ---- callbacks run ----

  /** What the worker still has to do until the first n messages have run. */
  function Before<T>(s: State<T>, n: nat): nat {
    if |s.ran| >= n then 0
    else
      match s.w
      case Lock => 5 * (n - |s.ran|) + 2
      case Woken => 5 * (n - |s.ran|) + 2
      case Test => 5 * (n - |s.ran|) + 3
      case Waiting => 5 * (n - |s.ran|) + 3
      case Calling(_) => 5 * (n - |s.ran|) - 1
      case Ended => 0
  }

  /** The first n messages are callbacks, so the loop cannot end in front of them. */
  lemma NotDoneYet<T>(s: State<T>, n: nat)
    requires Good(s) && n <= |s.pushed| && Unfinished(s.pushed[..n]) && |s.ran| < n
    ensures !s.done && !s.w.Ended? && (s.queue != [] || s.w.Calling?)
  {
    assert s.pushed == s.ran + InHand(s) + s.queue;
    assert forall m :: 0 <= m < |s.ran| ==> s.pushed[..n][m] == s.ran[m];
    assert |s.pushed| == |s.ran| + |InHand(s)| + |s.queue|;
  }

  /** As long as one of the first n messages has not run, the worker is never stuck, every step of it brings the call of the
      last of them nearer, and nothing that anybody else does puts it off. */
  lemma CallComesNearer<T>(s: State<T>, a: Action<T>, n: nat)
    requires Good(s) && n <= |s.pushed| && Unfinished(s.pushed[..n])
    ensures n <= |Step(s, a).pushed| && Step(s, a).pushed[..n] == s.pushed[..n]
    ensures Before(Step(s, a), n) <= Before(s, n)
    ensures |s.ran| < n && Advances(s, a) ==> Before(Step(s, a), n) < Before(s, n)
    ensures |s.ran| < n ==> Before(s, n) > 0 && (Advances(s, WorkerStep) || Advances(s, Notify))
  {
    if |s.ran| < n {
      NotDoneYet(s, n);
    }
    hide Ordered, Sent, Ending, Unfinished, HasFinish;
  }

  /** So every callback sent runs: in any run, once the worker has got on 5 steps for each message in the queue and 4 more,
      all that was pushed before the run has been called. */
  lemma {:induction false} CallbacksRun<T>(s: State<T>, acts: seq<Action<T>>)
    requires Good(s) && s.d.Alive?
    ensures Good(Run(s, acts)) && s.pushed <= Run(s, acts).pushed
    ensures |Run(s, acts).ran| < |s.pushed| ==> Before(Run(s, acts), |s.pushed|) + Advancing(s, acts) <= Before(s, |s.pushed|)
    ensures Advancing(s, acts) >= 5 * |s.queue| + 4 ==> s.pushed <= Run(s, acts).ran
    decreases |acts|
  {
    hide Before, Step, Advances, Sent, Ending, Alert, Unfinished;
    var n, s' := |s.pushed|, Run(s, acts);
    assert s.pushed[..n] == s.pushed;
    AllCallbacks(s);
    if acts != [] {
      var m := |acts| - 1;
      CallbacksRun(s, acts[..m]);
      var r := Run(s, acts[..m]);
      assert r.pushed[..n] == s.pushed;
      StepGood(r, acts[m]);
      CallComesNearer(r, acts[m], n);
      RanGrows(r, acts[m]);
    }
    AtMost(s);
    assert s'.pushed[..n] == s.pushed;
    if |s'.ran| >= n {
      assert s'.ran <= s'.pushed;
    } else {
      CallComesNearer(s', WorkerStep, n);
    }
  }

  lemma AllCallbacks<T>(s: State<T>)
    requires Sent(s) && s.d.Alive?
    ensures Unfinished(s.pushed)
  {}

  lemma RanGrows<T>(s: State<T>, a: Action<T>)
    ensures s.ran <= Step(s, a).ran
  {}

  lemma AtMost<T>(s: State<T>)
    requires Ordered(s)
    ensures Before(s, |s.pushed|) <= 5 * |s.queue| + 4
  {}

  /** A callback sent to a live object is called, in its place. */
  lemma SentIsCalled<T>(before: seq<Action<T>>, f: T, acts: seq<Action<T>>)
    requires Run(Init<T>(), before).d.Alive?
    requires var s := Step(Run(Init(), before), Send(f)); Advancing(s, acts) >= 5 * |s.queue| + 4
    ensures var s := Run(Init(), before); var s' := Run(Step(s, Send(f)), acts);
            |s.pushed| < |s'.ran| && s'.ran[|s.pushed|] == Callback(f)
  {
    Reachable(before);
    var s := Run(Init(), before);
    StepGood(s, Send(f));
    hide Good;
    CallbacksRun(Step(s, Send(f)), acts);
  }

  /** And the destructor gets its join: after it has pushed its message and the worker has got on as often as the measure
      says, all callbacks pushed before have run and the join returns. */
  lemma DestroyJoins<T>(before: seq<Action<T>>, acts: seq<Action<T>>)
    requires Run(Init<T>(), before).d.Alive?
    requires var s := Step(Run(Init<T>(), before), Destroy); Advancing(s, acts) >= Remaining(s)
    ensures var s := Run(Init<T>(), before); var s' := Step(Run(Step(s, Destroy), acts), Join);
            s'.d.Joined? && s'.ran == s.pushed + [Finish]
  {
    hide Good, Remaining, Run, Advancing;
    Reachable(before);
    var s := Run(Init<T>(), before);
    var s1 := Step(s, Destroy);
    StepGood(s, Destroy);
    LoopEnds(s1, acts);
    var s' := Run(s1, acts);
    StaysDestroyed(s1, acts);
    Sequence(s, s');
    JoinedOnce(s');
  }

  lemma JoinedOnce<T>(s: State<T>)
    requires s.w.Ended? && !s.d.Alive?
    ensures Step(s, Join) == s.(d := Joined)
  {}

  lemma {:induction false} StaysDestroyed<T>(s: State<T>, acts: seq<Action<T>>)
    requires !s.d.Alive?
    ensures !Run(s, acts).d.Alive? && s.pushed <= Run(s, acts).pushed
    decreases |acts|
  {
    if acts != [] {
      StaysDestroyed(s, acts[..|acts| - 1]);
    }
  }

  lemma Sequence<T>(s: State<T>, s': State<T>)
    requires Good(s) && s.d.Alive? && Good(s') && s'.w.Ended? && s.pushed + [Finish] <= s'.pushed
    ensures s'.ran == s.pushed + [Finish]
  {
    var n, m := |s.pushed|, |s'.ran| - 1;
    assert s'.ran <= s'.pushed;
    assert s'.pushed[n] == (s.pushed + [Finish])[n];
    assert s'.pushed[m] == s'.ran[m];
    assert forall i :: 0 <= i < m ==> s'.ran[..m][i] == s'.pushed[i];
    assert forall i :: 0 <= i < n ==> (s.pushed + [Finish])[i] == s'.pushed[i];
    assert n == m;
  }
}
