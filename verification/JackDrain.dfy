/** How an RtApiJack stream is stopped: callbackEvent counts the buffers it still has to play, stopStream waits for it. */
module JackDrain {
  datatype StreamState = STOPPED | STOPPING | RUNNING | CLOSED

  /** What an output port is given: the user's buffer as the n-th call of the user callback left it, or zeros. */
  datatype Buffer = Filled(n: nat) | Silence

  /** invoked counts calls of the user callback, emitted lists the output buffers, spawned counts the threads started for
      jackStopStream, waiting and signalled the threads blocked in stopStream and those of them already signalled. */
  datatype Jack = Jack(
    output: bool, state: StreamState, drainCounter: nat, internalDrain: bool,
    invoked: nat, emitted: seq<Buffer>, spawned: nat, waiting: nat, signalled: nat)

  /** callbackEvent, where the user callback would return r; sized says that the buffer size has not changed. */
  function Event(j: Jack, r: int, sized: bool): Jack {
    if !j.state.RUNNING? || !sized then j
    else if j.drainCounter > 3 then
      if j.internalDrain then j.(state := STOPPING, spawned := j.spawned + 1)
      else j.(state := STOPPING, signalled := if j.signalled < j.waiting then j.signalled + 1 else j.signalled)
    else if j.drainCounter == 0 && r == 2 then
      j.(invoked := j.invoked + 1, state := STOPPING, drainCounter := 2, spawned := j.spawned + 1)
    else
      var j1 :=
        if j.drainCounter > 0 then j
        else if r == 1 then j.(invoked := j.invoked + 1, drainCounter := 1, internalDrain := true)
        else j.(invoked := j.invoked + 1);
      var j2 :=
        if j1.output then j1.(emitted := j1.emitted + [if j1.drainCounter > 1 then Silence else Filled(j1.invoked)]) else j1;
      if j2.drainCounter > 0 then j2.(drainCounter := j2.drainCounter + 1) else j2
  }

  /** stopStream up to its wait or its end; a closed stream is an error. */
  function Stop(j: Jack): Jack {
    if j.state.STOPPED? || j.state.CLOSED? then j
    else if j.output && j.drainCounter == 0 then j.(drainCounter := 2, waiting := j.waiting + 1)
    else j.(state := STOPPED)
  }

  /** stopStream after its wait. */
  function Resume(j: Jack): Jack {
    if j.signalled > 0 && j.waiting > 0 then j.(state := STOPPED, waiting := j.waiting - 1, signalled := j.signalled - 1) else j
  }

  function Abort(j: Jack): Jack {
    if j.state.STOPPED? || j.state.CLOSED? then j else Stop(j.(drainCounter := 2))
  }

  function Start(j: Jack): Jack {
    if j.state.RUNNING? || j.state.CLOSED? then j else j.(drainCounter := 0, internalDrain := false, state := RUNNING)
  }

  class RtApiJack {
    const output: bool
    const bufferSize: nat
    var state: StreamState
    var drainCounter: nat
    var internalDrain: bool
    var invoked: nat
    var emitted: seq<Buffer>
    var spawned: nat
    var waiting: nat
    var signalled: nat

    function Abstract(): Jack
      reads this
    {
      Jack(output, state, drainCounter, internalDrain, invoked, emitted, spawned, waiting, signalled)
    }

    constructor (output: bool, bufferSize: nat)
      ensures this.bufferSize == bufferSize
      ensures Abstract() == Jack(output, STOPPED, 0, false, 0, [], 0, 0, 0)
    {
      this.output, this.bufferSize := output, bufferSize;
      state, drainCounter, internalDrain := STOPPED, 0, false;
      invoked, emitted, spawned, waiting, signalled := 0, [], 0, 0, 0;
    }

    /** callbackEvent; cbReturnValue is what the user callback returns, if it is called: once, at a drain counter of 0.
        The stream stops on the value 2, or behind a finished drain, when the counter has passed 3; any other event of a
        running output stream plays one buffer. */
    method CallbackEvent(nframes: nat, cbReturnValue: int) returns (ok: bool)
      modifies this
      ensures ok <==> !old(state).CLOSED? && (old(state).RUNNING? ==> nframes == bufferSize)
      ensures !old(state).RUNNING? || nframes != bufferSize ==> Abstract() == old(Abstract())
      ensures old(state).RUNNING? && nframes == bufferSize ==>
                && invoked == old(invoked) + (if old(drainCounter) == 0 then 1 else 0)
                && state == (if old(drainCounter) > 3 || (old(drainCounter) == 0 && cbReturnValue == 2) then STOPPING else RUNNING)
                && (output && state.RUNNING? ==> exists b :: emitted == old(emitted) + [b] && (b.Silence? <==> old(drainCounter) > 1)
                                                              && (b.Filled? ==> b.n == invoked))
                && (!(output && state.RUNNING?) ==> emitted == old(emitted))
                && (state.STOPPING? ==> drainCounter >= 2)
                && (state.RUNNING? && old(drainCounter) > 0 ==> drainCounter == old(drainCounter) + 1)
                && (state.RUNNING? && old(drainCounter) == 0 ==> drainCounter == if cbReturnValue == 1 then 2 else 0)
                && (old(drainCounter) > 3 && !internalDrain && old(signalled) < waiting ==> signalled == old(signalled) + 1)
                && spawned == old(spawned) + (if state.STOPPING? && (old(drainCounter) == 0 || internalDrain) then 1 else 0)
      ensures Abstract() == Event(old(Abstract()), cbReturnValue, nframes == bufferSize)
    {
      if state.STOPPED? || state.STOPPING? {
        return true;
      }
      if state.CLOSED? {
        return false;
      }
      if bufferSize != nframes {
        return false;
      }
      if drainCounter > 3 {
        state := STOPPING;
        if internalDrain {
          spawned := spawned + 1;
        } else if signalled < waiting {
          signalled := signalled + 1;
        }
        return true;
      }
      if drainCounter == 0 {
        invoked := invoked + 1;
        if cbReturnValue == 2 {
          state := STOPPING;
          drainCounter := 2;
          spawned := spawned + 1;
          return true;
        } else if cbReturnValue == 1 {
          drainCounter := 1;
          internalDrain := true;
        }
      }
      if output {
        emitted := emitted + [if drainCounter > 1 then Silence else Filled(invoked)];
      }
      if drainCounter > 0 {
        drainCounter := drainCounter + 1;
      }
      return true;
    }

    /** startStream, when Jack takes the client and its ports. */
    method StartStream()
      modifies this
      ensures old(state).STOPPED? || old(state).STOPPING? ==> state.RUNNING? && drainCounter == 0 && !internalDrain
      ensures old(state).RUNNING? || old(state).CLOSED? ==> Abstract() == old(Abstract())
      ensures invoked == old(invoked) && emitted == old(emitted) && waiting == old(waiting) && signalled == old(signalled)
      ensures Abstract() == Start(old(Abstract()))
    {
      if state.RUNNING? || state.CLOSED? {
        return;
      }
      drainCounter := 0;
      internalDrain := false;
      state := RUNNING;
    }

    /** stopStream; blocked says that it is left waiting for callbackEvent. */
    method StopStream() returns (blocked: bool)
      modifies this
      ensures blocked <==> output && !old(state).STOPPED? && !old(state).CLOSED? && old(drainCounter) == 0
      ensures !blocked && !old(state).CLOSED? ==> state.STOPPED?
      ensures !blocked ==> waiting == old(waiting)
      ensures old(state).CLOSED? ==> Abstract() == old(Abstract())
      ensures blocked ==> state == old(state) && drainCounter == 2 && waiting == old(waiting) + 1
      ensures invoked == old(invoked) && emitted == old(emitted) && signalled == old(signalled)
      ensures Abstract() == Stop(old(Abstract()))
    {
      if state.STOPPED? || state.CLOSED? {
        return false;
      }
      if output && drainCounter == 0 {
        drainCounter := 2;
        waiting := waiting + 1;
        return true;
      }
      state := STOPPED;
      return false;
    }

    /** abortStream, which never waits: it has set the drain counter by then. */
    method AbortStream()
      modifies this
      ensures if old(state).CLOSED? then Abstract() == old(Abstract()) else state.STOPPED?
      ensures waiting == old(waiting) && signalled == old(signalled)
      ensures invoked == old(invoked) && emitted == old(emitted)
      ensures Abstract() == Abort(old(Abstract()))
    {
      if state.STOPPED? || state.CLOSED? {
        return;
      }
      drainCounter := 2;
      var _ := StopStream();
    }
  }

  // ---- every run ----

  datatype Action = Buffer(r: int, sized: bool) | StopCall | AbortCall | Resumed | Restart

  function Step(j: Jack, a: Action): Jack {
    match a
    case Buffer(r, sized) => Event(j, r, sized)
    case StopCall => Stop(j)
    case AbortCall => Abort(j)
    case Resumed => Resume(j)
    case Restart => Start(j)
  }

  function Run(j: Jack, acts: seq<Action>): Jack {
    if acts == [] then j else Step(Run(j, acts[..|acts| - 1]), acts[|acts| - 1])
  }

  /** What every run keeps. */
  predicate Sound(j: Jack) {
    j.drainCounter <= 4 && (j.drainCounter == 0 ==> !j.internalDrain) && j.signalled <= j.waiting
  }

  lemma {:induction false} RunSound(j: Jack, acts: seq<Action>)
    requires Sound(j)
    ensures Sound(Run(j, acts))
    decreases |acts|
  {
    if acts != [] {
      RunSound(j, acts[..|acts| - 1]);
      StepSound(Run(j, acts[..|acts| - 1]), acts[|acts| - 1]);
      hide Sound, Step;
    }
  }

  lemma StepSound(j: Jack, a: Action)
    requires Sound(j)
    ensures Sound(Step(j, a))
  {}

  predicate NoRestart(acts: seq<Action>) {
    forall i :: 0 <= i < |acts| ==> !acts[i].Restart?
  }

  // ---- draining ----

  function Min(a: nat, b: nat): nat {
    if a < b then a else b
  }

  function Silences(n: nat): seq<Buffer> {
    seq(n, i => Silence)
  }

  /** The threads in stopStream that no signal has reached. */
  function Blocked(j: Jack): int {
    j.waiting - j.signalled
  }

  /** A thread that has been signalled has yet to go on. */
  predicate Resumable(j: Jack) {
    j.signalled > 0 && j.waiting > 0
  }

  /** What stops a draining stream at once: a stop, an abort, or an older stop that goes on. */
  predicate CutsShort(a: Action, resumable: bool) {
    a.StopCall? || a.AbortCall? || (a.Resumed? && resumable)
  }

  predicate Uncut(acts: seq<Action>, resumable: bool) {
    forall i :: 0 <= i < |acts| ==> !CutsShort(acts[i], resumable)
  }

  /** How many events of the right size come before anything cuts the drain short. */
  function EventsBefore(acts: seq<Action>, resumable: bool): nat {
    if acts == [] then 0
    else
      var n := |acts| - 1;
      EventsBefore(acts[..n], resumable) + if Uncut(acts[..n], resumable) && acts[n].Buffer? && acts[n].sized then 1 else 0
  }

  predicate Draining(j: Jack) {
    j.state.RUNNING? && 2 <= j.drainCounter <= 4
  }

  /** What a drain from j has come to in j', n events of the right size having come before anything cut it short: 4 minus the
      counter is the number of silent buffers left to play, and the event behind them finishes the drain. */
  predicate Drained(j: Jack, j': Jack, n: nat, uncut: bool) {
    j.drainCounter <= 4 &&
    var left := 4 - j.drainCounter;
    && j'.output == j.output && j'.invoked == j.invoked && j'.internalDrain == j.internalDrain && j'.waiting <= j.waiting
    && j'.emitted == j.emitted + (if j.output then Silences(Min(n, left)) else []) && j'.drainCounter >= 2
    && (j'.state.RUNNING? <==> uncut && n <= left)
    && (j'.state.RUNNING? ==> j'.drainCounter == j.drainCounter + n && j'.waiting == j.waiting && j'.signalled == j.signalled)
    && (n <= left && !j'.state.RUNNING? ==> j'.state.STOPPED?)
    && !j'.state.CLOSED?
    && j'.spawned == j.spawned + (if n > left && j.internalDrain then 1 else 0)
    && Blocked(j') == Blocked(j) - (if n > left && !j.internalDrain && Blocked(j) > 0 then 1 else 0)
  }

  lemma OneMoreSilence(emitted: seq<Buffer>, n: nat)
    ensures emitted + Silences(0) == emitted && emitted + Silences(n) + [Silence] == emitted + Silences(n + 1)
  {}

  lemma DrainedStep(j: Jack, j': Jack, n: nat, uncut: bool, a: Action)
    requires Draining(j) && Drained(j, j', n, uncut) && !a.Restart?
    ensures Drained(j, Step(j', a), n + (if uncut && a.Buffer? && a.sized then 1 else 0), uncut && !CutsShort(a, Resumable(j)))
  {
    OneMoreSilence(j.emitted, n);
    hide Silences;
  }

  lemma LastAction(acts: seq<Action>, resumable: bool)
    requires acts != [] && NoRestart(acts)
    ensures var n := |acts| - 1;
            && NoRestart(acts[..n]) && !acts[n].Restart?
            && (Uncut(acts, resumable) <==> Uncut(acts[..n], resumable) && !CutsShort(acts[n], resumable))
  {
    hide CutsShort;
  }

  lemma {:induction false} DrainedBy(j: Jack, acts: seq<Action>)
    requires Draining(j) && NoRestart(acts)
    ensures Drained(j, Run(j, acts), EventsBefore(acts, Resumable(j)), Uncut(acts, Resumable(j)))
    decreases |acts|
  {
    if acts == [] {
      OneMoreSilence(j.emitted, 0);
    } else {
      hide Drained, Step, CutsShort, Draining, Resumable, Uncut, NoRestart;
      var n := |acts| - 1;
      LastAction(acts, Resumable(j));
      DrainedBy(j, acts[..n]);
      DrainedStep(j, Run(j, acts[..n]), EventsBefore(acts[..n], Resumable(j)), Uncut(acts[..n], Resumable(j)), acts[n]);
    }
  }

  /** When the user callback returns 1 its last buffer is played once, it is not called again, and two silent buffers follow.
      The third event after it finishes the drain and starts one thread to stop the stream; no other event starts one, and
      a stop or an abort before that starts none and leaves out the silence still due. */
  lemma DrainAfterLastBuffer(j: Jack, acts: seq<Action>)
    requires j.state.RUNNING? && j.drainCounter == 0 && NoRestart(acts)
    ensures var last, n := Event(j, 1, true), EventsBefore(acts, Resumable(j)); var j' := Run(last, acts);
            && last.state.RUNNING? && j'.invoked == j.invoked + 1
            && j'.emitted == j.emitted + (if j.output then [Filled(j.invoked + 1)] + Silences(Min(n, 2)) else [])
            && (j'.state.RUNNING? <==> Uncut(acts, Resumable(j)) && n <= 2)
            && j'.spawned == j.spawned + (if n >= 3 then 1 else 0)
  {
    DrainedBy(Event(j, 1, true), acts);
  }

  /** A stop of a running output plays up to two silent buffers, and then waits for a signal. One thread more gets one if
      three events of the right size come before the next stop or abort, and none if they do not: then nothing releases
      the stop before a restart. */
  lemma StopWaitsForDrain(j: Jack, acts: seq<Action>)
    requires Sound(j) && j.state.RUNNING? && j.output && j.drainCounter == 0 && NoRestart(acts)
    ensures var stop, n := Stop(j), EventsBefore(acts, j.signalled > 0); var j' := Run(stop, acts);
            && Blocked(stop) == Blocked(j) + 1
            && Blocked(j') == Blocked(j) + (if n >= 3 then 0 else 1)
            && j'.invoked == j.invoked && j'.emitted == j.emitted + Silences(Min(n, 2))
  {
    DrainedBy(Stop(j), acts);
  }

  /** In particular of a stop that waits alone: it is signalled or has gone on exactly if at least three events of the right
      size come before the first other stop or abort. */
  lemma StopReleased(j: Jack, acts: seq<Action>)
    requires j.state.RUNNING? && j.output && j.drainCounter == 0 && !j.internalDrain && j.waiting == 0 == j.signalled && NoRestart(acts)
    ensures var j' := Run(Stop(j), acts);
            && (j'.signalled == 1 || j'.waiting == 0 <==> EventsBefore(acts, false) >= 3)
            && (j'.signalled == 1 ==> Resume(j').state.STOPPED? && Resume(j').waiting == 0)
  {
    DrainedBy(Stop(j), acts);
  }

  /** So a second stop or an abort at once strands the first: nothing but a restart lets the counter go on. */
  lemma SecondStopStrands(j: Jack, again: Action, acts: seq<Action>)
    requires j.state.RUNNING? && j.output && j.drainCounter == 0 && !j.internalDrain && j.waiting == 0 == j.signalled
    requires (again.StopCall? || again.AbortCall?) && NoRestart(acts)
    ensures var j' := Run(Stop(j), [again] + acts); j'.state.STOPPED? && j'.waiting == 1 && Resume(j') == j'
  {
    NoneBehindCut([again] + acts, false);
    DrainedBy(Stop(j), [again] + acts);
    assert CutsShort(([again] + acts)[0], false);
  }

  lemma {:induction false} NoneBehindCut(acts: seq<Action>, resumable: bool)
    requires |acts| > 0 && CutsShort(acts[0], resumable)
    ensures EventsBefore(acts, resumable) == 0
    decreases |acts|
  {
    if |acts| > 1 {
      NoneBehindCut(acts[..|acts| - 1], resumable);
      assert acts[..|acts| - 1][0] == acts[0];
    }
  }

  /** The counter never passes 4, and only a restart sets it back to 0: until then the user callback stays quiet, and what
      is played is the last buffer, if it was still due, and then silence, whatever stops, aborts and events come; and a stop
      stops the stream at once. */
  lemma {:induction false} QuietUntilRestart(j: Jack, acts: seq<Action>)
    requires 1 <= j.drainCounter <= 4 && NoRestart(acts)
    ensures var j' := Run(j, acts);
            && 1 <= j'.drainCounter <= 4 && j'.invoked == j.invoked
            && (j'.drainCounter == 1 ==> j.drainCounter == 1 && j'.emitted == j.emitted)
            && j.emitted <= j'.emitted
            && (forall i :: |j.emitted| <= i < |j'.emitted| ==>
                j'.emitted[i] == Silence || (i == |j.emitted| && j.drainCounter == 1 && j'.emitted[i] == Filled(j.invoked)))
            && (!j.state.CLOSED? ==> !j'.state.CLOSED? && Stop(j').state.STOPPED?) && Stop(j').waiting == j'.waiting <= j.waiting
    decreases |acts|
  {
    if acts != [] {
      QuietUntilRestart(j, acts[..|acts| - 1]);
    }
  }

  /** Once the user callback has returned 2 it is not called again, nothing more is played, and a stop, such as that of the
      one thread started for it, stops the stream without waiting. */
  lemma {:induction false} AbortedByCallback(j: Jack, acts: seq<Action>)
    requires j.state.RUNNING? && j.drainCounter == 0 && NoRestart(acts)
    ensures var j' := Run(Event(j, 2, true), acts);
            && j'.invoked == j.invoked + 1 && j'.emitted == j.emitted && j'.spawned == j.spawned + 1
            && (j'.state.STOPPING? || j'.state.STOPPED?) && j'.drainCounter == 2 && j'.waiting <= j.waiting
            && Stop(j').state.STOPPED? && Stop(j').waiting == j'.waiting
    decreases |acts|
  {
    if acts != [] {
      AbortedByCallback(j, acts[..|acts| - 1]);
    }
  }
}
