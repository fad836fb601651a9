/** When a caller at the server waits for ever: the client can no longer make itself heard. */
module StreamWaiting {
  import opened ServerCall
  import opened StreamProtocol
  import opened StreamResults
  import C = ClientCall

  /** The client can neither grant credit nor abort any more, and the server has not been told. */
  predicate Silenced(s: System) {
    && (s.freed || s.cut || !C.Running(C.HeadStatus(s.call)))
    && AbortCall !in s.down && !s.server.aborted && s.phase != Finished
  }

  /** Credit that the server has or that is on its way to it. */
  function Budget(s: System): int {
    s.server.consumer + Sum(s.down) - s.server.producer
  }

  /** Steps of the server's side that end a call. */
  predicate Ends(step: Step) {
    step == Kill || step == CloseServer
  }

  function Serves(steps: seq<Step>): nat {
    if steps == [] then 0 else (if steps[0].Serve? then 1 else 0) + Serves(steps[1..])
  }

  lemma {:induction false} FinishedServesNone(s: System, steps: seq<Step>, t: System)
    requires s.phase == Finished && RunsTo(s, steps, t)
    ensures Serves(steps) == 0
    decreases |steps|
  {
    if steps != [] {
      FinishedStays(s, steps[0]);
      FinishedServesNone(Next(s, steps[0]), steps[1..], t);
    }
  }

  lemma FinishedStays(s: System, step: Step)
    requires s.phase == Finished && Enabled(s, step)
    ensures !step.Serve? && Next(s, step).phase == Finished
  {
    hide Next;
  }

  /** A silenced client stays so, and grants nothing. */
  lemma SilencedStep(s: System, step: Step)
    requires Inv(s) && Silenced(s) && Enabled(s, step) && !Ends(step)
    ensures var t := Next(s, step);
            && Budget(t) <= Budget(s) - (if step.Serve? then 1 else 0)
            && (Silenced(t) || (step.Serve? && t.phase == Finished))
  {
    hide Inv, Silenced, Budget;
    hide AfterServe, AfterDeliver, AfterContinue, AfterAbort, AfterReceive, AfterFire, AfterClose;
    match step
    case Serve(r, sent) => SilencedServe(s, r, sent);
    case Deliver => SilencedDeliver(s);
    case Continue(sent) => SilencedContinue(s, sent);
    case Abort(sent) => SilencedAbort(s, sent);
    case Cut => SilencedCut(s);
    case Receive => SilencedReceive(s);
    case Fire => SilencedFire(s);
    case CloseClient => SilencedClose(s);
    case SetPrefetch(_) => SilencedPlain(s, step);
    case Free => SilencedPlain(s, step);
    case Leave => SilencedPlain(s, step);
  }

  lemma SilencedServe(s: System, r: Request, sent: bool)
    requires Silenced(s)
    ensures var t := AfterServe(s, r, sent); Budget(t) == Budget(s) - 1 && (Silenced(t) || t.phase == Finished)
  {
    hide Sent;
  }

  lemma SilencedFire(s: System)
    requires Silenced(s) && !s.freed
    ensures Silenced(AfterFire(s)) && Budget(AfterFire(s)) == Budget(s)
  {
  }

  lemma SilencedClose(s: System)
    requires Silenced(s)
    ensures Silenced(AfterClose(s)) && Budget(AfterClose(s)) == Budget(s)
  {
    hide C.Received;
    if !s.freed { ReceivedFacts(s, C.CLOSED_ITEM); }
  }

  lemma SilencedPlain(s: System, step: Step)
    requires Silenced(s) && Enabled(s, step) && (step.SetPrefetch? || step.Free? || step.Leave?)
    ensures Silenced(Next(s, step)) && Budget(Next(s, step)) == Budget(s)
  {
    hide AfterServe, AfterDeliver, AfterContinue, AfterAbort, AfterReceive, AfterFire, AfterClose;
  }

  lemma SilencedDeliver(s: System)
    requires Silenced(s) && s.up != []
    ensures Silenced(AfterDeliver(s)) && Budget(AfterDeliver(s)) == Budget(s)
  {
    hide Arrived, ItemOf;
    DeliverFields(s);
  }

  lemma SilencedContinue(s: System, sent: bool)
    requires Inv(s) && Silenced(s) && s.call.queue != [] && !s.freed
    ensures Silenced(AfterContinue(s, sent)) && Budget(AfterContinue(s, sent)) == Budget(s)
  {
    hide C.ContinueCalled, C.Grant;
  }

  lemma SilencedAbort(s: System, sent: bool)
    requires Inv(s) && Silenced(s) && !s.freed
    ensures Silenced(AfterAbort(s, sent)) && Budget(AfterAbort(s, sent)) == Budget(s)
  {
    hide C.AbortCalled;
  }

  lemma SilencedCut(s: System)
    requires Inv(s) && Silenced(s)
    ensures var t := s.(cut := true, up := [], down := []); Silenced(t) && Budget(t) <= Budget(s)
  {
    hide ConservedOk, ScriptedOk, ConsumedOk;
    SumPositive(s.down);
  }

  lemma SilencedReceive(s: System)
    requires Inv(s) && Silenced(s) && s.down != []
    ensures Silenced(AfterReceive(s)) && Budget(AfterReceive(s)) == Budget(s)
  {
    hide ConservedOk, ScriptedOk, ConsumedOk;
  }

  /** From there on, in every run, until the server's side ends the call: no more requests are served than
      there is credit for. */
  lemma {:induction false} SilencedServes(s: System, steps: seq<Step>, t: System)
    requires Inv(s) && Silenced(s) && RunsTo(s, steps, t) && forall step :: step in steps ==> !Ends(step)
    ensures Serves(steps) <= Budget(s)
    decreases |steps|
  {
    hide Inv, Silenced, Next, Enabled, Budget;
    if steps == [] {
      BudgetPositive(s);
    } else {
      var u := Next(s, steps[0]);
      StepInv(s, steps[0]);
      SilencedStep(s, steps[0]);
      BudgetPositive(u);
      if Silenced(u) { SilencedServes(u, steps[1..], t); } else { FinishedServesNone(u, steps[1..], t); }
    }
  }

  lemma BudgetPositive(s: System)
    requires Inv(s)
    ensures Budget(s) >= 0
  {
    hide ConservedOk, ScriptedOk, ConsumedOk;
    SumPositive(s.down);
  }

  /** Otherwise some run serves a request, the server's side doing nothing else: with credit under way it arrives,
      and without any the client can abort. */
  lemma {:induction false} CanServe(s: System) returns (steps: seq<Step>, t: System)
    requires Inv(s) && s.phase != Finished && !(Silenced(s) && Budget(s) == 0)
    ensures RunsTo(s, steps, t) && Serves(steps) > 0 && forall step :: step in steps ==> !Ends(step)
    decreases |s.down|
  {
    hide Inv, RunsTo, Budget, AfterReceive, AfterAbort;
    if !Blocked(s.server) {
      steps, t := ServeNow(s);
    } else if s.down != [] {
      var u := AfterReceive(s);
      StepInv(s, Receive);
      ReceiveFacts(s);
      steps, t := CanServe(u);
      RunsToCons(s, Receive, steps, t);
      steps := [Receive] + steps;
    } else {
      NothingLeft(s);
      AbortFacts(s);
      var u := AfterAbort(s, true);
      var v := AfterReceive(u);
      steps, t := ServeNow(v);
      RunsToCons(u, Receive, steps, t);
      RunsToCons(s, Abort(true), [Receive] + steps, t);
      steps := [Abort(true)] + ([Receive] + steps);
    }
  }

  lemma ServeNow(s: System) returns (steps: seq<Step>, t: System)
    requires s.phase != Finished && !Blocked(s.server)
    ensures RunsTo(s, steps, t) && Serves(steps) == 1 && forall step :: step in steps ==> !Ends(step)
  {
    var step := Serve(if s.phase == Fresh then StartStream else EndStream, true);
    t := Next(s, step);
    steps := [step];
    assert steps[1..] == [];
  }

  lemma ReceiveFacts(s: System)
    requires Inv(s) && s.phase != Finished && s.down != []
    ensures var t := AfterReceive(s);
            && t.phase == s.phase && t.down == s.down[1..]
            && (t.server.aborted || (Budget(t) == Budget(s) && (Silenced(t) ==> Silenced(s))))
  {
    hide ConservedOk, ScriptedOk, ConsumedOk;
  }

  lemma NothingLeft(s: System)
    requires Blocked(s.server) && s.down == []
    ensures Budget(s) == 0
  {
  }

  lemma AbortFacts(s: System)
    requires Inv(s) && s.phase != Finished && s.down == [] && Blocked(s.server) && !Silenced(s)
    ensures !s.freed
    ensures var u := AfterAbort(s, true);
            u.down == [AbortCall] && AfterReceive(u).server.aborted && AfterReceive(u).phase == s.phase
  {
    hide CreditsOk, ConservedOk, ScriptedOk, ConsumedOk, C.Received;
  }

  /** Exactly when the server's caller waits for ever unless its own side ends the call: the client is silenced
      and no credit is left. */
  lemma WaitsExactly(before: seq<Step>, s: System)
    requires RunsTo(START, before, s) && s.phase != Finished
    ensures (exists steps, t ::
               RunsTo(s, steps, t) && Serves(steps) > 0 && forall step :: step in steps ==> !Ends(step)) <==>
            !(Silenced(s) && Budget(s) == 0)
  {
    hide RunsTo, Silenced, Inv, Budget;
    StartInv();
    RunInv(START, before, s);
    if Silenced(s) && Budget(s) == 0 {
      forall steps, t | RunsTo(s, steps, t) && forall step :: step in steps ==> !Ends(step)
        ensures Serves(steps) == 0
      {
        SilencedServes(s, steps, t);
      }
    } else {
      var steps, t := CanServe(s);
    }
  }

  // ---- What silences a client ----

  /** A timeout, a close, a failed send and a free at the client. */
  predicate Silences(step: Step) {
    step == Fire || step == CloseClient || step == Continue(false) || step == Free
  }

  /** Each of them may leave the server waiting, with nothing in flight. */
  lemma EachSilences(cause: Step) returns (steps: seq<Step>, t: System)
    requires Silences(cause)
    ensures RunsTo(START, steps, t) && cause in steps && Silenced(t) && Budget(t) == 0
    ensures forall step :: step in steps && Silences(step) ==> step == cause
  {
    hide RunsTo, Next, Silenced;
    RunsToSelf(START);
    var first := Serve(StartStream, true);
    RunsOneMore(START, [], START, first);
    Started();
    steps := [] + [first];
    var s1 := Next(START, first);
    if cause == Continue(false) {
      var s2 := Next(s1, Deliver);
      RunsOneMore(START, steps, s1, Deliver);
      steps := steps + [Deliver];
      FailedSend();
      t := Next(s2, cause);
      RunsOneMore(START, steps, s2, cause);
    } else {
      SilencedNow(cause);
      t := Next(s1, cause);
      RunsOneMore(START, steps, s1, cause);
    }
    steps := steps + [cause];
  }

  const STARTED := START.(
    server := Server(1, 1, true, false, false, false, true), phase := Streaming, up := [StartFrame(0)],
    started := true, kept := [true], sent := [StartFrame(0)])

  lemma Started()
    ensures Next(START, Serve(StartStream, true)) == STARTED
  {
  }

  lemma SilencedNow(cause: Step)
    requires Silences(cause) && cause != Continue(false)
    ensures Enabled(STARTED, cause) && Silenced(Next(STARTED, cause)) && Budget(Next(STARTED, cause)) == 0
  {
  }

  lemma FailedSend()
    ensures var s := Next(STARTED, Deliver);
            && Enabled(s, Continue(false)) && Silenced(Next(s, Continue(false)))
            && Budget(Next(s, Continue(false))) == 0
  {
  }

  /** A client that knows of the end of the call has told the server, or was told by it. */
  predicate Informed(s: System) {
    !s.clientClosed && !s.freed && (Told(s) ==> AbortCall in s.down || s.server.aborted || s.phase == Finished)
  }

  lemma StepInformed(s: System, step: Step)
    requires Inv(s) && Informed(s) && Enabled(s, step) && !Silences(step)
    ensures Informed(Next(s, step))
  {
    hide Inv, Informed, AfterServe, AfterDeliver, AfterContinue, AfterAbort, AfterReceive, AfterFire, AfterClose;
    match step
    case Receive => ReceiveInformed(s);
    case Abort(sent) => AbortInformed(s, sent);
    case Continue(sent) => ContinueInformed(s);
    case _ => PlainInformed(s, step);
  }

  lemma ReceiveInformed(s: System)
    requires Inv(s) && Informed(s) && s.down != []
    ensures Informed(AfterReceive(s))
  {
    hide CreditsOk, ConservedOk, ScriptedOk, ConsumedOk;
  }

  lemma AbortInformed(s: System, sent: bool)
    requires Inv(s) && Informed(s)
    ensures Informed(AfterAbort(s, sent))
  {
    hide CreditsOk, ConservedOk, ScriptedOk, ConsumedOk, C.AbortCalled;
  }

  lemma ContinueInformed(s: System)
    requires Informed(s) && s.call.queue != []
    ensures Informed(AfterContinue(s, true))
  {
    hide C.ContinueCalled, C.Grant;
  }

  lemma PlainInformed(s: System, step: Step)
    requires Inv(s) && Informed(s) && Enabled(s, step) && !Silences(step)
    requires !step.Receive? && !step.Abort? && !step.Continue?
    ensures Informed(Next(s, step))
  {
    hide CreditsOk, ScriptedOk, ConsumedOk, ItemOf, Arrived, Sent, Blocked, AfterContinue, AfterAbort, AfterReceive;
  }

  lemma {:induction false} RunInformed(s: System, steps: seq<Step>, t: System)
    requires Inv(s) && Informed(s) && RunsTo(s, steps, t) && forall step :: step in steps ==> !Silences(step)
    ensures Inv(t) && Informed(t)
    decreases |steps|
  {
    hide Inv, Informed, Next, Enabled;
    if steps != [] {
      StepInv(s, steps[0]);
      StepInformed(s, steps[0]);
      RunInformed(Next(s, steps[0]), steps[1..], t);
    }
  }

  /** And nothing else does: in a run without them, whatever is killed, aborted or lost, the client is not
      silenced. */
  lemma OnlyTheseSilence(steps: seq<Step>, t: System)
    requires RunsTo(START, steps, t) && forall step :: step in steps ==> !Silences(step)
    ensures !Silenced(t)
  {
    hide Next, Enabled;
    StartInv();
    RunInformed(START, steps, t);
    NotSilenced(t);
  }

  lemma NotSilenced(s: System)
    requires Inv(s) && Informed(s)
    ensures !Silenced(s)
  {
    hide CreditsOk, ConservedOk, ScriptedOk, ConsumedOk;
    if !Told(s) && s.call.queue != [] && !C.Running(C.HeadStatus(s.call)) { TerminalFrame(s); }
  }

  /** The item of a frame that is terminal is that of the end or of an error. */
  lemma TerminalFrame(s: System)
    requires Inv(s) && !Told(s) && s.call.queue != [] && !C.Running(C.HeadStatus(s.call))
    ensures s.phase == Finished || s.server.aborted
  {
    hide CreditsOk, ConsumedOk, Kept, Fragments;
    assert s.call.queue[0] == s.pushed[s.call.consumer];
    var n := s.call.consumer;
    KeptOf(Produced(s.started, s.yielded, s.finished, s.server.responded), s.kept);
    assert s.sent[n] in s.sent;
    FragmentsOnly(s.yielded);
  }

  lemma FragmentsOnly(yielded: seq<int>)
    ensures forall f :: f in Fragments(yielded) ==> f.FragmentFrame?
  {
  }
}
