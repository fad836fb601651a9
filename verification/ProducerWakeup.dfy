/** Producers that wait for credit on an event counter, with locking, unlocking and waiting as
    separate steps. The handlers of the connection run under the lock of the call, so each is one step
    that happens only while no producer holds it. */
module ProducerWakeup {
  import opened ServerCall

  /** Where a producer is in rpc_function_start_stream_impl, rpc_function_yield_impl or
      rpc_function_end_impl: outside, at the lock, at the loop condition with the lock held, at
      notify_wait without it, or, at an end, about to leave the table. */
  datatype Place = Outside | AtLock(r: Request) | Locked(r: Request) | AtWait(r: Request) | Leaving

  /** `signals` is the event counter: a read of it waits for a positive value and takes all of it. */
  datatype State = State(call: Server, signals: nat, places: seq<Place>, out: seq<Frame>)

  datatype Step =
    | Enter(i: nat, r: Request)
    | Lock(i: nat)
    | Check(i: nat)
    | Wake(i: nat)
    | Leave(i: nat)
    | OnContinue(increment: int)
    | OnAbort
    | Kill

  function Start(producers: nat): State {
    State(NEW_CALL, 0, seq(producers, _ => Outside), [])
  }

  predicate LockFree(s: State) {
    forall p :: p in s.places ==> !p.Locked?
  }

  predicate Enabled(s: State, step: Step) {
    match step
    case Enter(i, _) => i < |s.places| && s.places[i].Outside?
    case Lock(i) => i < |s.places| && s.places[i].AtLock? && LockFree(s)
    case Check(i) => i < |s.places| && s.places[i].Locked?
    case Wake(i) => i < |s.places| && s.places[i].AtWait? && s.signals > 0
    case Leave(i) => i < |s.places| && s.places[i].Leaving?
    case OnContinue(increment) => increment >= 1 && LockFree(s)
    case OnAbort => LockFree(s)
    case Kill => LockFree(s)
  }

  /** The handlers signal the calls they find in the table. */
  function Signalled(s: State): nat {
    if s.call.registered then s.signals + 1 else s.signals
  }

  /** Where a producer is once it has let go of the lock for good. */
  function Done(r: Request): Place {
    if r.EndStream? then Leaving else Outside
  }

  function Next(s: State, step: Step): State
    requires Enabled(s, step)
  {
    match step
    case Enter(i, r) => s.(places := s.places[i := AtLock(r)])
    case Lock(i) => s.(places := s.places[i := Locked(s.places[i].r)])
    case Check(i) =>
      var r := s.places[i].r;
      if Blocked(s.call) then s.(places := s.places[i := AtWait(r)])
      else State(Served(s.call, r), s.signals, s.places[i := Done(r)], s.out + Sent(s.call, r))
    case Wake(i) => s.(signals := 0, places := s.places[i := AtLock(s.places[i].r)])
    case Leave(i) => s.(call := Unregistered(s.call), places := s.places[i := Outside])
    case OnContinue(increment) => s.(call := Credited(s.call, increment), signals := Signalled(s))
    case OnAbort => s.(call := AbortedByPeer(s.call), signals := Signalled(s))
    case Kill => s.(call := s.call.(aborted := true), signals := s.signals + 1)
  }

  ghost predicate RunsTo(s: State, steps: seq<Step>, t: State)
    decreases |steps|
  {
    if steps == [] then t == s else Enabled(s, steps[0]) && RunsTo(Next(s, steps[0]), steps[1..], t)
  }

  /** Producer `i` has credit, or an abort to report, and would sleep for ever if nothing else happened. */
  predicate Lost(s: State, i: nat) {
    i < |s.places| && s.places[i].AtWait? && !Blocked(s.call) && s.signals == 0
  }

  ghost predicate Inv(s: State) {
    |s.places| == 1 && s.call.producer <= s.call.consumer && !Lost(s, 0)
  }

  lemma {:induction false} RunInv(s: State, steps: seq<Step>, t: State)
    requires Inv(s) && RunsTo(s, steps, t)
    ensures Inv(t)
    decreases |steps|
  {
    if steps != [] { RunInv(Next(s, steps[0]), steps[1..], t); }
  }

  /** The next step of a producer that is not outside. */
  function OwnStep(s: State, i: nat): Step
    requires i < |s.places| && !s.places[i].Outside?
  {
    match s.places[i]
    case AtLock(_) => Lock(i)
    case Locked(_) => Check(i)
    case AtWait(_) => Wake(i)
    case Leaving => Leave(i)
  }

  /** Steps of its own a producer takes at most until it returns, if it does not wait again. */
  function Distance(place: Place): nat {
    match place
    case Outside => 0
    case Leaving => 1
    case Locked(_) => 2
    case AtLock(_) => 3
    case AtWait(_) => 4
  }

  /** A producer that has returned, is past its loop, or will not find the condition of the loop to hold. */
  predicate Returning(s: State, i: nat) {
    i < |s.places| && (s.places[i].Outside? || s.places[i].Leaving? || !Blocked(s.call))
  }

  /** No lost wake-up: in every reachable state, a single producer with credit or with an abort to
      report can take its next step; that step brings it nearer to its return and does not make it
      wait. So it returns after at most four steps of its own. */
  lemma NoLostWakeup(steps: seq<Step>, t: State)
    requires RunsTo(Start(1), steps, t)
    ensures !Lost(t, 0)
    ensures |t.places| == 1
    ensures Returning(t, 0) && !t.places[0].Outside? ==>
              && Enabled(t, OwnStep(t, 0))
              && var u := Next(t, OwnStep(t, 0)); Distance(u.places[0]) < Distance(t.places[0]) && Returning(u, 0)
  {
    RunInv(Start(1), steps, t);
  }

  lemma {:induction false} RunsAppend(s: State, l: seq<Step>, t: State, r: seq<Step>, u: State)
    requires RunsTo(s, l, t) && RunsTo(t, r, u)
    ensures RunsTo(s, l + r, u)
    decreases |l|
  {
    hide Enabled, Next;
    if l == [] {
      assert l + r == r;
    } else {
      assert (l + r)[1..] == l[1..] + r;
      RunsAppend(Next(s, l[0]), l[1..], t, r, u);
    }
  }

  /** A producer that enters, or wakes, gets the lock and finds the state `s` as it left it. */
  lemma Turn(s: State, first: Step, i: nat, r: Request) returns (steps: seq<Step>, t: State)
    requires i < |s.places| && LockFree(s)
    requires (first == Enter(i, r) || (first == Wake(i) && s.places[i] == AtWait(r))) && Enabled(s, first)
    ensures RunsTo(s, steps, t)
    ensures t == if Blocked(s.call) then s.(places := s.places[i := AtWait(r)], signals := t.signals)
                 else State(Served(s.call, r), t.signals, s.places[i := Done(r)], s.out + Sent(s.call, r))
    ensures t.signals == if first.Wake? then 0 else s.signals
  {
    steps := [first, Lock(i), Check(i)];
    var s1 := Next(s, first);
    var s2 := Next(s1, Lock(i));
    t := Next(s2, Check(i));
    assert steps[1..] == [Lock(i), Check(i)] && steps[1..][1..] == [Check(i)] && [Check(i)][1..] == [];
    assert RunsTo(s2, [Check(i)], t);
    assert RunsTo(s1, [Lock(i), Check(i)], t);
    assert s.places[i := AtLock(r)][i := Locked(r)][i := t.places[i]] == s.places[i := t.places[i]];
  }

  /** With two producers or more, one of them can take the signal meant for both. */
  lemma WakeupLost(n: nat) returns (steps: seq<Step>, t: State)
    requires n >= 2
    ensures RunsTo(Start(n), steps, t) && Lost(t, 1)
  {
    hide RunsTo;
    var (s, y) := (Start(n), YieldFragment(0));
    // the first credit is used up
    var run, u := Turn(s, Enter(0, StartStream), 0, StartStream);
    // both producers wait
    var run1, u1 := Turn(u, Enter(0, y), 0, y);
    RunsAppend(s, run, u, run1, u1);
    var run2, u2 := Turn(u1, Enter(1, y), 1, y);
    RunsAppend(s, run + run1, u1, run2, u2);
    // two credits arrive with one signal, which the first producer takes
    var u3 := Next(u2, OnContinue(2));
    OneStep(u2, OnContinue(2));
    RunsAppend(s, run + run1 + run2, u2, [OnContinue(2)], u3);
    var run4;
    run4, t := Turn(u3, Wake(0), 0, y);
    RunsAppend(s, run + run1 + run2 + [OnContinue(2)], u3, run4, t);
    steps := run + run1 + run2 + [OnContinue(2)] + run4;
  }

  lemma OneStep(s: State, step: Step)
    requires Enabled(s, step)
    ensures RunsTo(s, [step], Next(s, step))
  {
    assert [step][1..] == [];
  }

  /** After an abort, a kill or a close, the requests of all producers send no data, and at most one
      error together; none if it was the client that aborted. */
  lemma {:induction false} AfterAbort(s: State, steps: seq<Step>, t: State)
    requires s.call.aborted && RunsTo(s, steps, t)
    ensures t.out == s.out || (t.out == s.out + [ErrorFrame] && !s.call.ended && t.call.ended)
    ensures t.call.aborted && (s.call.ended ==> t.call.ended) && t.call.producer == s.call.producer
    decreases |steps|
  {
    if steps != [] { AfterAbort(Next(s, steps[0]), steps[1..], t); }
  }
}
