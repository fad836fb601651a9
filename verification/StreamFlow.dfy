/** Flow control over all runs: how much can be in flight and queued. */
module StreamFlow {
  import opened ServerCall
  import opened StreamProtocol
  import C = ClientCall

  /** Frames that carry data, or those that carry an error. */
  predicate CountsFrame(f: Frame, errors: bool) {
    f.ErrorFrame? == errors
  }

  /** Queued items of such frames. */
  predicate CountsItem(i: C.Item, errors: bool) {
    if errors then i == ItemOf(ErrorFrame) else i.status in {C.StreamStart, C.MoreAvailable, C.Ended}
  }

  function Frames(fs: seq<Frame>, errors: bool): nat {
    if fs == [] then 0 else Frames(fs[..|fs| - 1], errors) + if CountsFrame(fs[|fs| - 1], errors) then 1 else 0
  }

  function Items(items: seq<C.Item>, errors: bool): nat {
    if items == [] then 0
    else Items(items[..|items| - 1], errors) + if CountsItem(items[|items| - 1], errors) then 1 else 0
  }

  lemma {:induction false} FramesAppend(a: seq<Frame>, b: seq<Frame>, errors: bool)
    ensures Frames(a + b, errors) == Frames(a, errors) + Frames(b, errors)
    decreases |b|
  {
    if b == [] {
      assert a + b == a;
    } else {
      FramesAppend(a, b[..|b| - 1], errors);
      assert (a + b)[..|a + b| - 1] == a + b[..|b| - 1];
    }
  }

  lemma {:induction false} ItemsAppend(a: seq<C.Item>, b: seq<C.Item>, errors: bool)
    ensures Items(a + b, errors) == Items(a, errors) + Items(b, errors)
    decreases |b|
  {
    if b == [] {
      assert a + b == a;
    } else {
      ItemsAppend(a, b[..|b| - 1], errors);
      assert (a + b)[..|a + b| - 1] == a + b[..|b| - 1];
    }
  }

  /** No more frames were queued than delivered, and every item popped was data. */
  ghost predicate CountOk(pushed: seq<C.Item>, popped: int, sent: seq<Frame>, arrived: nat) {
    && arrived <= |sent| && 0 <= popped <= |pushed| && Items(pushed[..popped], false) == popped
    && forall errors :: Items(pushed, errors) <= Frames(sent[..arrived], errors)
  }

  ghost predicate CountInv(s: System) {
    CountOk(s.pushed, s.call.consumer, s.sent, s.arrived)
  }

  lemma OneItem(i: C.Item, errors: bool)
    ensures Items([i], errors) == if CountsItem(i, errors) then 1 else 0
  {
    assert [i][..0] == [];
  }

  lemma OneFrame(f: Frame, errors: bool)
    ensures Frames([f], errors) == if CountsFrame(f, errors) then 1 else 0
  {
    assert [f][..0] == [];
  }

  /** Items that are not of frames count nothing. */
  lemma TellCount(pushed: seq<C.Item>, popped: int, sent: seq<Frame>, arrived: nat, more: seq<C.Item>)
    requires CountOk(pushed, popped, sent, arrived)
    requires more == [] || (|more| == 1 && !CountsItem(more[0], true) && !CountsItem(more[0], false))
    ensures CountOk(pushed + more, popped, sent, arrived)
  {
    hide CountsItem, CountsFrame;
    assert (pushed + more)[..popped] == pushed[..popped];
    forall errors ensures Items(pushed + more, errors) <= Frames(sent[..arrived], errors) {
      ItemsAppend(pushed, more, errors);
      if more != [] { assert more == [more[0]]; OneItem(more[0], errors); }
    }
  }

  lemma DeliverCount(pushed: seq<C.Item>, popped: int, sent: seq<Frame>, arrived: nat, more: seq<C.Item>)
    requires CountOk(pushed, popped, sent, arrived) && arrived < |sent|
    requires more == [] || more == [ItemOf(sent[arrived])]
    ensures CountOk(pushed + more, popped, sent, arrived + 1)
  {
    assert (pushed + more)[..popped] == pushed[..popped];
    var f := sent[arrived];
    assert sent[..arrived + 1] == sent[..arrived] + [f];
    forall errors ensures Items(pushed + more, errors) <= Frames(sent[..arrived + 1], errors) {
      ItemsAppend(pushed, more, errors);
      FramesAppend(sent[..arrived], [f], errors);
      OneItem(ItemOf(f), errors);
      OneFrame(f, errors);
    }
  }

  lemma SendCount(pushed: seq<C.Item>, popped: int, sent: seq<Frame>, arrived: nat, frames: seq<Frame>)
    requires CountOk(pushed, popped, sent, arrived)
    ensures CountOk(pushed, popped, sent + frames, arrived)
  {
    assert (sent + frames)[..arrived] == sent[..arrived];
  }

  lemma PopCount(pushed: seq<C.Item>, popped: int, sent: seq<Frame>, arrived: nat)
    requires CountOk(pushed, popped, sent, arrived) && popped < |pushed| && CountsItem(pushed[popped], false)
    ensures CountOk(pushed, popped + 1, sent, arrived)
  {
    assert pushed[..popped + 1] == pushed[..popped] + [pushed[popped]];
    ItemsAppend(pushed[..popped], [pushed[popped]], false);
    OneItem(pushed[popped], false);
  }

  lemma StepCount(s: System, step: Step)
    requires Inv(s) && CountInv(s) && Enabled(s, step)
    ensures CountInv(Next(s, step))
  {
    hide CountInv, Credits, Closed, Conserved, Scripted, Consumed;
    hide AfterServe, AfterDeliver, AfterContinue, AfterAbort, AfterReceive, AfterFire, AfterClose;
    match step
    case Serve(r, sent) => ServeCount(s, r, sent);
    case Deliver => DeliverStepCount(s);
    case Continue(sent) => ContinueCount(s, sent);
    case Abort(sent) => AbortCount(s, sent);
    case Fire => FireCount(s);
    case CloseClient => CloseCount(s);
    case Receive => ReceiveCount(s);
    case _ => PlainCount(s, step);
  }

  lemma ServeCount(s: System, r: Request, sent: bool)
    requires CountInv(s)
    ensures CountInv(AfterServe(s, r, sent))
  {
    hide CountOk, Sent, Served;
    SendCount(s.pushed, s.call.consumer, s.sent, s.arrived, Sent(s.server, r));
  }

  lemma FireCount(s: System)
    requires CountInv(s)
    ensures CountInv(AfterFire(s))
  {
    hide CountOk;
    LocalItems();
    TellCount(s.pushed, s.call.consumer, s.sent, s.arrived, if s.call.timer then [C.TIMEOUT_ITEM] else []);
  }

  lemma ReceiveCount(s: System)
    requires CountInv(s) && s.down != []
    ensures CountInv(AfterReceive(s))
  {
    hide CountOk, Credited, AbortedByPeer;
  }

  lemma PlainCount(s: System, step: Step)
    requires CountInv(s) && Enabled(s, step)
    requires step.Kill? || step.Leave? || step.CloseServer? || step.Cut? || step.SetPrefetch? || step.Free?
    ensures CountInv(Next(s, step))
  {
    hide CountOk, AfterServe, AfterDeliver, AfterContinue, AfterAbort, AfterReceive, AfterFire, AfterClose;
  }

  lemma DeliverStepCount(s: System)
    requires Conserved(s) && CountInv(s) && s.up != []
    ensures CountInv(AfterDeliver(s))
  {
    hide CountOk, ConservedOk, ItemOf, Arrived;
    DeliverFields(s);
    NextArrives(s);
    DeliverCount(s.pushed, s.call.consumer, s.sent, s.arrived, Unless(s, ItemOf(s.up[0])));
  }

  lemma CloseCount(s: System)
    requires CountInv(s)
    ensures CountInv(AfterClose(s))
  {
    hide CountOk, C.Received;
    LocalItems();
    if !s.freed { ReceivedFacts(s, C.CLOSED_ITEM); }
    TellCount(s.pushed, s.call.consumer, s.sent, s.arrived, Unless(s, C.CLOSED_ITEM));
  }

  lemma LocalItems()
    ensures forall errors :: !CountsItem(C.TIMEOUT_ITEM, errors) && !CountsItem(C.CLOSED_ITEM, errors)
    ensures forall errors :: !CountsItem(C.Item(C.Aborted, C.NoBody), errors)
    ensures forall errors :: !CountsItem(C.Item(C.Error, C.SendFailed), errors)
  {
  }

  lemma NextArrives(s: System)
    requires Conserved(s) && s.up != []
    ensures s.arrived < |s.sent| && s.up[0] == s.sent[s.arrived]
  {
    hide ItemOf;
  }

  lemma AbortCount(s: System, sent: bool)
    requires CountInv(s) && !s.freed
    ensures CountInv(AfterAbort(s, sent))
  {
    hide CountOk, C.Received;
    if C.Running(C.HeadStatus(s.call)) && sent {
      LocalItems();
      ReceivedFacts(s, C.Item(C.Aborted, C.NoBody));
      TellCount(s.pushed, s.call.consumer, s.sent, s.arrived, Unless(s, C.Item(C.Aborted, C.NoBody)));
    }
  }

  lemma ContinueCount(s: System, sent: bool)
    requires Inv(s) && CountInv(s) && s.call.queue != [] && !s.freed
    ensures CountInv(AfterContinue(s, sent))
  {
    hide CountInv, Credits, Closed, Conserved, Scripted, Consumed;
    if C.Running(C.HeadStatus(s.call)) { RunningCount(s, sent); }
  }

  lemma RunningCount(s: System, sent: bool)
    requires Conserved(s) && CountInv(s) && s.call.queue != [] && !s.freed && C.Running(C.HeadStatus(s.call))
    ensures CountInv(AfterContinue(s, sent))
  {
    hide CountOk, Conserved, AfterContinue, CountsItem;
    var more := if s.call.consumer == s.call.producer && !sent then [C.Item(C.Error, C.SendFailed)] else [];
    ContinueFields(s, sent, more);
    LocalItems();
    HeadCounts(s);
    PopCount(s.pushed, s.call.consumer, s.sent, s.arrived);
    TellCount(s.pushed, s.call.consumer + 1, s.sent, s.arrived, more);
  }

  lemma HeadCounts(s: System)
    requires Conserved(s) && s.call.queue != [] && !s.freed && C.Running(C.HeadStatus(s.call))
    ensures s.call.consumer < |s.pushed| && CountsItem(s.pushed[s.call.consumer], false)
  {
    assert s.call.queue[0] == s.pushed[s.call.consumer];
  }

  lemma {:induction false} RunCount(s: System, steps: seq<Step>, t: System)
    requires Inv(s) && CountInv(s) && RunsTo(s, steps, t)
    ensures Inv(t) && CountInv(t)
    decreases |steps|
  {
    hide Inv, CountInv, Next, Enabled;
    if steps != [] {
      StepInv(s, steps[0]);
      StepCount(s, steps[0]);
      RunCount(Next(s, steps[0]), steps[1..], t);
    }
  }

  lemma StartCount()
    ensures CountInv(START)
  {
  }

  /** Data, or errors, sent and not consumed: in flight or queued. */
  function Outstanding(s: System, errors: bool): nat {
    Frames(s.up, errors) + Items(s.call.queue, errors)
  }

  /** What is produced is all data, but for one error at most; so what is sent. */
  lemma SentCount(s: System)
    requires Scripted(s)
    ensures Frames(s.sent, false) <= s.server.producer && Frames(s.sent, true) <= if s.server.responded then 1 else 0
  {
    hide Script, Frames, Kept;
    SentCountOf(s, false);
    SentCountOf(s, true);
    AllDataScript(s.started, s.yielded, s.finished);
  }

  lemma SentCountOf(s: System, errors: bool)
    requires Scripted(s)
    ensures Frames(s.sent, errors) <= Frames(Script(s.started, s.yielded, s.finished), errors) +
                                      if errors && s.server.responded then 1 else 0
  {
    hide Script, Frames, Kept;
    var error := if s.server.responded then [ErrorFrame] else [];
    KeptCount(Produced(s.started, s.yielded, s.finished, s.server.responded), s.kept, errors);
    FramesAppend(Script(s.started, s.yielded, s.finished), error, errors);
    OneFrame(ErrorFrame, errors);
    NoFrames();
  }

  lemma AllDataScript(started: bool, yielded: seq<int>, finished: bool)
    ensures Frames(Script(started, yielded, finished), false) == |Script(started, yielded, finished)|
    ensures Frames(Script(started, yielded, finished), true) == 0
  {
    AllData(Script(started, yielded, finished));
  }

  lemma {:induction false} KeptCount(fs: seq<Frame>, kept: seq<bool>, errors: bool)
    requires |fs| == |kept|
    ensures Frames(Kept(fs, kept), errors) <= Frames(fs, errors)
  {
    if fs != [] {
      var n := |fs| - 1;
      KeptCount(fs[..n], kept[..n], errors);
      FramesAppend(Kept(fs[..n], kept[..n]), if kept[n] then [fs[n]] else [], errors);
      OneFrame(fs[n], errors);
    }
  }

  lemma {:induction false} AllData(fs: seq<Frame>)
    requires forall k :: 0 <= k < |fs| ==> !fs[k].ErrorFrame?
    ensures Frames(fs, false) == |fs| && Frames(fs, true) == 0
  {
    if fs != [] { AllData(fs[..|fs| - 1]); }
  }

  lemma OutstandingCount(pushed: seq<C.Item>, n: nat, sent: seq<Frame>, a: nat, up: seq<Frame>, errors: bool)
    requires n <= |pushed| && a <= |sent| && (up == [] || up == sent[a..])
    requires Items(pushed, errors) <= Frames(sent[..a], errors)
    ensures Frames(up, errors) + Items(pushed[n..], errors) + Items(pushed[..n], errors) <= Frames(sent, errors)
  {
    hide CountsItem, CountsFrame;
    assert pushed == pushed[..n] + pushed[n..];
    ItemsAppend(pushed[..n], pushed[n..], errors);
    assert sent == sent[..a] + sent[a..];
    FramesAppend(sent[..a], sent[a..], errors);
  }

  lemma OutstandingBounds(s: System)
    requires Inv(s) && CountInv(s)
    ensures Outstanding(s, false) <= s.server.producer - s.call.consumer <= s.widest
    ensures Outstanding(s, true) <= if s.server.responded then 1 else 0
  {
    hide Script, Produced, Kept, ItemOf, Frames, Items, ConsumedOk;
    SentCount(s);
    SumPositive(s.down);
    NoItems();
    OutstandingCount(s.pushed, s.call.consumer, s.sent, s.arrived, s.up, false);
    OutstandingCount(s.pushed, s.call.consumer, s.sent, s.arrived, s.up, true);
  }

  /** Flow control over all runs: data in flight and queued never exceeds the largest prefetch. An error, of
      which there is at most one, needs no credit; ServeExceeds says exactly when it comes on top. */
  lemma FlowIsBounded(steps: seq<Step>, t: System)
    requires RunsTo(START, steps, t)
    ensures Outstanding(t, false) <= t.widest && Outstanding(t, true) <= 1
    ensures Outstanding(t, true) == 1 ==> t.server.responded && t.server.aborted
  {
    hide Next, Enabled, ConservedOk, ConsumedOk, CreditsOk, CountOk, Script, Produced, Kept, Outstanding;
    StartInv();
    StartCount();
    RunCount(START, steps, t);
    OutstandingBounds(t);
  }

  /** Seen from before a request is served: it takes the frames beyond the largest prefetch exactly if the call
      was aborted without having ended, as much data is outstanding as allowed, and the error can be sent. */
  lemma ServeExceeds(s: System, r: Request, sent: bool)
    requires Inv(s) && CountInv(s) && Enabled(s, Serve(r, sent))
    requires Outstanding(s, false) + Outstanding(s, true) <= s.widest
    ensures var t := Next(s, Serve(r, sent));
            Outstanding(t, false) + Outstanding(t, true) > t.widest <==>
              s.server.aborted && !s.server.ended && Outstanding(s, false) == s.widest && sent && !s.cut
  {
    hide Inv, CountInv, Frames, Items;
    var t := Next(s, Serve(r, sent));
    StepInv(s, Serve(r, sent));
    StepCount(s, Serve(r, sent));
    OutstandingBounds(s);
    OutstandingBounds(t);
    RespondedEnded(s);
    RespondedEnded(t);
    var frames := Sent(s.server, r);
    forall errors { FramesAppend(s.up, frames, errors); }
    if frames == [] {
      NoFrames();
    } else {
      OneFrame(frames[0], false);
      OneFrame(frames[0], true);
      assert frames == [frames[0]];
    }
  }

  lemma NoFrames()
    ensures forall errors :: Frames([], errors) == 0
  {
  }

  lemma NoItems()
    ensures forall errors :: Items([], errors) == 0
  {
  }

  /** The run that shows it: one fragment's credit is used by the start, and the killed call reports its error. */
  lemma KilledRun()
    ensures exists t :: RunsTo(START, [Serve(StartStream, true), Kill, Serve(YieldFragment(5), true)], t) &&
              t.up == [StartFrame(0), ErrorFrame] && t.widest == 1 && t.yielded == []
  {
    var steps := [Serve(StartStream, true), Kill, Serve(YieldFragment(5), true)];
    var s1 := Next(START, steps[0]);
    var s2 := Next(s1, steps[1]);
    var s3 := Next(s2, steps[2]);
    RunsToSelf(s3);
    RunsToCons(s2, steps[2], [], s3);
    RunsToCons(s1, steps[1], [steps[2]], s3);
    RunsToCons(START, steps[0], [steps[1], steps[2]], s3);
    assert [steps[0]] + ([steps[1]] + ([steps[2]] + [])) == steps;
  }
}
