/** What the stream protocol promises over all runs, and what a lost frame takes away from it. */
module StreamResults {
  import opened ServerCall
  import opened StreamProtocol
  import C = ClientCall

  /** With nothing in flight and nothing queued, a request waits for credit exactly if as many frames were lost
      as the client has room for; so never if none was. */
  lemma NoDeadlock(steps: seq<Step>, t: System)
    requires RunsTo(START, steps, t) && t.up == [] && t.down == [] && t.call.queue == []
    requires !t.freed && t.phase != Finished
    ensures Blocked(t.server) <==> !t.server.aborted && Lost(t.kept) == 1 + t.call.producer - t.call.consumer
    ensures t.call.producer >= t.call.consumer
  {
    hide Next, Enabled;
    StartInv();
    RunInv(START, steps, t);
    BlockedExactly(t);
  }

  lemma BlockedExactly(s: System)
    requires Inv(s) && s.up == [] && s.down == [] && s.call.queue == [] && !s.freed && s.phase != Finished
    ensures Blocked(s.server) <==> !s.server.aborted && Lost(s.kept) == 1 + s.call.producer - s.call.consumer
    ensures s.call.producer >= s.call.consumer
  {
    hide Script, Kept, Lost, ItemOf, Payloads;
    KeptSize(Produced(s.started, s.yielded, s.finished, s.server.responded), s.kept);
  }

  /** Only a failed send of the server loses a frame. */
  lemma {:induction false} NothingLost(s: System, steps: seq<Step>, t: System)
    requires RunsTo(s, steps, t) && Lost(s.kept) == 0 && forall step :: step in steps && step.Serve? ==> step.sent
    ensures Lost(t.kept) == 0
    decreases |steps|
  {
    hide Next, Enabled;
    if steps != [] {
      StepLost(s, steps[0]);
      NothingLost(Next(s, steps[0]), steps[1..], t);
    }
  }

  lemma StepLost(s: System, step: Step)
    requires Enabled(s, step) && (step.Serve? ==> step.sent)
    ensures Lost(Next(s, step).kept) == Lost(s.kept)
  {
    hide Lost, AfterDeliver, AfterContinue, AfterAbort, AfterReceive, AfterFire, AfterClose, Sent, Served;
    if step.Serve? { LostNone(s.kept); } else { hide Next; }
  }

  lemma LostNone(kept: seq<bool>)
    ensures Lost(kept + [true]) == Lost(kept)
  {
    assert (kept + [true])[..|kept|] == kept;
  }

  // ---- The contents of the stream ----

  lemma {:induction false} KeptConcat<T>(a: seq<T>, ka: seq<bool>, b: seq<T>, kb: seq<bool>)
    requires |a| == |ka| && |b| == |kb|
    ensures Kept(a + b, ka + kb) == Kept(a, ka) + Kept(b, kb)
    decreases |b|
  {
    if b == [] {
      assert a + b == a && ka + kb == ka;
    } else {
      var n := |b| - 1;
      KeptConcat(a, ka, b[..n], kb[..n]);
      assert (a + b)[..|a| + n] == a + b[..n] && (ka + kb)[..|a| + n] == ka + kb[..n];
    }
  }

  lemma {:induction false} PayloadsConcat(a: seq<Frame>, b: seq<Frame>)
    ensures Payloads(a + b) == Payloads(a) + Payloads(b)
    decreases |b|
  {
    if b == [] {
      assert a + b == a;
    } else {
      PayloadsConcat(a, b[..|b| - 1]);
      assert (a + b)[..|a + b| - 1] == a + b[..|b| - 1];
    }
  }

  /** Of the fragments, the payloads of those kept. */
  lemma {:induction false} PayloadsKept(yielded: seq<int>, kept: seq<bool>)
    requires |yielded| == |kept|
    ensures |Fragments(yielded)| == |kept| && Payloads(Kept(Fragments(yielded), kept)) == Kept(yielded, kept)
  {
    if yielded != [] {
      var n := |yielded| - 1;
      PayloadsKept(yielded[..n], kept[..n]);
      assert Fragments(yielded)[..n] == Fragments(yielded[..n]);
      PayloadsConcat(Kept(Fragments(yielded)[..n], kept[..n]), if kept[n] then [Fragments(yielded)[n]] else []);
    }
  }

  /** Which of the fragments yielded were kept. */
  function FragmentsKept(s: System): seq<bool>
    requires s.started ==> 1 + |s.yielded| <= |s.kept|
  {
    if s.started then s.kept[1..1 + |s.yielded|] else []
  }

  /** What was produced before the end: the start and the fragments; and what came after. */
  lemma Parts(s: System)
    requires Scripted(s) && s.started
    ensures 1 + |s.yielded| <= |s.kept| && |Fragments(s.yielded)| == |FragmentsKept(s)|
    ensures var n := 1 + |s.yielded|;
            var rest := (if s.finished then [EndFrame(n)] else []) + if s.server.responded then [ErrorFrame] else [];
            && |rest| == |s.kept[n..]|
            && s.sent == Kept([StartFrame(0)], s.kept[..1]) + Kept(Fragments(s.yielded), FragmentsKept(s)) +
                         Kept(rest, s.kept[n..])
  {
    hide Kept, Fragments;
    FragmentsLength(s.yielded);
    var n := 1 + |s.yielded|;
    var rest := (if s.finished then [EndFrame(n)] else []) + if s.server.responded then [ErrorFrame] else [];
    assert Produced(s.started, s.yielded, s.finished, s.server.responded) ==
           [StartFrame(0)] + Fragments(s.yielded) + rest;
    assert s.kept == s.kept[..1] + FragmentsKept(s) + s.kept[n..];
    KeptConcat([StartFrame(0)] + Fragments(s.yielded), s.kept[..1] + FragmentsKept(s), rest, s.kept[n..]);
    KeptConcat([StartFrame(0)], s.kept[..1], Fragments(s.yielded), FragmentsKept(s));
  }

  lemma StartPayload(kept: seq<bool>)
    requires |kept| == 1
    ensures Payloads(Kept([StartFrame(0)], kept)) == []
  {
    assert Kept([StartFrame(0)][..0], kept[..0]) == [];
    assert kept[0] ==> Kept([StartFrame(0)], kept)[..0] == [];
  }

  lemma RestPayload(finished: bool, error: bool, n: int, kept: seq<bool>)
    requires var rest := (if finished then [EndFrame(n)] else []) + if error then [ErrorFrame] else [];
             |rest| == |kept|
    ensures var rest := (if finished then [EndFrame(n)] else []) + if error then [ErrorFrame] else [];
            && Payloads(Kept(rest, kept)) == []
            && forall f :: f in Kept(rest, kept) ==> f.EndFrame? || f.ErrorFrame?
  {
    hide Payloads;
    var rest := (if finished then [EndFrame(n)] else []) + if error then [ErrorFrame] else [];
    KeptOf(rest, kept);
    NoPayloads(Kept(rest, kept));
  }

  lemma {:induction false} NoPayloads(fs: seq<Frame>)
    requires forall f :: f in fs ==> !f.FragmentFrame?
    ensures Payloads(fs) == []
  {
    if fs != [] { NoPayloads(fs[..|fs| - 1]); }
  }

  lemma {:induction false} KeptOf<T>(xs: seq<T>, kept: seq<bool>)
    requires |xs| == |kept|
    ensures forall x :: x in Kept(xs, kept) ==> x in xs
  {
    if xs != [] { KeptOf(xs[..|xs| - 1], kept[..|xs| - 1]); }
  }

  /** All payloads sent are those of the fragments kept. */
  lemma PayloadsSent(s: System)
    requires Scripted(s) && s.started
    ensures 1 + |s.yielded| <= |s.kept| && Payloads(s.sent) == Kept(s.yielded, FragmentsKept(s))
  {
    hide Kept, Fragments, Payloads;
    Parts(s);
    var n := 1 + |s.yielded|;
    var rest := (if s.finished then [EndFrame(n)] else []) + if s.server.responded then [ErrorFrame] else [];
    var (a, b) := (Kept([StartFrame(0)], s.kept[..1]), Kept(Fragments(s.yielded), FragmentsKept(s)));
    PayloadsConcat(a + b, Kept(rest, s.kept[n..]));
    PayloadsConcat(a, b);
    StartPayload(s.kept[..1]);
    PayloadsKept(s.yielded, FragmentsKept(s));
    RestPayload(s.finished, s.server.responded, n, s.kept[n..]);
  }

  /** What was produced is numbered without gaps, an error only ever the last. What was sent is that but for the
      sends that failed. The client has consumed a prefix of the fragments that were not lost, and all of them
      when it sees the end: all that was yielded exactly if no fragment was lost. */
  lemma StreamIsFaithful(steps: seq<Step>, t: System)
    requires RunsTo(START, steps, t)
    ensures var all := Produced(t.started, t.yielded, t.finished, t.server.responded);
            && |t.kept| == |all| && t.sent == Kept(all, t.kept)
            && forall k :: 0 <= k < |all| ==>
                 if all[k].ErrorFrame? then k == |all| - 1 && t.server.aborted else all[k].seqno == k
    ensures (t.started ==> 1 + |t.yielded| <= |t.kept|) && |t.yielded| == |FragmentsKept(t)|
    ensures t.consumed <= Kept(t.yielded, FragmentsKept(t))
    ensures C.HeadStatus(t.call) == C.Ended ==> t.finished && t.consumed == Kept(t.yielded, FragmentsKept(t))
    ensures Kept(t.yielded, FragmentsKept(t)) == t.yielded <==> Lost(FragmentsKept(t)) == 0
  {
    hide Next, Enabled, Credits, Closed, ConservedOk, ConsumedOk, Kept, Script;
    StartInv();
    RunInv(START, steps, t);
    ProducedNumbered(t.started, t.yielded, t.finished, t.server.responded);
    Faithful(t);
  }

  lemma ProducedNumbered(started: bool, yielded: seq<int>, finished: bool, error: bool)
    ensures var all := Produced(started, yielded, finished, error);
            forall k :: 0 <= k < |all| ==> if all[k].ErrorFrame? then k == |all| - 1 && error else all[k].seqno == k
  {
  }

  lemma Faithful(s: System)
    requires Conserved(s) && Scripted(s) && Consumed(s)
    ensures (s.started ==> 1 + |s.yielded| <= |s.kept|) && |s.yielded| == |FragmentsKept(s)|
    ensures s.consumed <= Kept(s.yielded, FragmentsKept(s))
    ensures C.HeadStatus(s.call) == C.Ended ==> s.finished && s.consumed == Kept(s.yielded, FragmentsKept(s))
    ensures Kept(s.yielded, FragmentsKept(s)) == s.yielded <==> Lost(FragmentsKept(s)) == 0
  {
    hide Kept, Script, Lost, ConservedOk, Payloads, Produced;
    if s.started {
      PayloadsSent(s);
      PayloadsConcat(s.sent[..s.call.consumer], s.sent[s.call.consumer..]);
      assert s.sent == s.sent[..s.call.consumer] + s.sent[s.call.consumer..];
    } else {
      NothingSent(s);
    }
    if C.HeadStatus(s.call) == C.Ended { EndedHead(s); }
    KeptAll(s.yielded, FragmentsKept(s));
  }

  lemma NothingSent(s: System)
    requires Scripted(s) && Consumed(s) && !s.started
    ensures s.consumed == [] && s.yielded == [] && Kept(s.yielded, FragmentsKept(s)) == []
    ensures forall k :: 0 <= k < |s.sent| ==> s.sent[k].ErrorFrame?
  {
    hide Kept, Payloads;
    KeptOf(Produced(s.started, s.yielded, s.finished, s.server.responded), s.kept);
    assert forall k :: 0 <= k < |s.sent| ==> s.sent[k] in s.sent;
    NoPayloads(s.sent[..s.call.consumer]);
    EmptyKept();
  }

  lemma EmptyKept()
    ensures Kept<int>([], []) == []
  {
  }

  lemma {:induction false} KeptAll<T>(xs: seq<T>, kept: seq<bool>)
    requires |xs| == |kept|
    ensures Kept(xs, kept) == xs <==> Lost(kept) == 0
  {
    KeptSize(xs, kept);
    if xs != [] { KeptAll(xs[..|xs| - 1], kept[..|xs| - 1]); }
  }

  /** When the end is at the head, all before it were popped. */
  lemma EndedHead(s: System)
    requires Conserved(s) && Scripted(s) && Consumed(s) && C.HeadStatus(s.call) == C.Ended
    ensures s.finished && s.started && 1 + |s.yielded| <= |s.kept|
    ensures s.consumed == Kept(s.yielded, FragmentsKept(s))
  {
    hide Kept, Script, Payloads, Produced;
    var p := s.call.consumer;
    EndedFrame(s);
    if s.started {
      Parts(s);
      var n := 1 + |s.yielded|;
      var rest := (if s.finished then [EndFrame(n)] else []) + if s.server.responded then [ErrorFrame] else [];
      var (a, b) := (Kept([StartFrame(0)], s.kept[..1]), Kept(Fragments(s.yielded), FragmentsKept(s)));
      RestPayload(s.finished, s.server.responded, n, s.kept[n..]);
      DataOnly(s.yielded, s.kept[..1], FragmentsKept(s));
      BeforeRest(s.sent, a + b, Kept(rest, s.kept[n..]), p);
      PayloadsConcat(a, b);
      StartPayload(s.kept[..1]);
      PayloadsKept(s.yielded, FragmentsKept(s));
      KeptOf(rest, s.kept[n..]);
    } else {
      NothingSent(s);
    }
  }

  /** The first frame that is neither the start nor a fragment comes after all of those. */
  lemma BeforeRest(sent: seq<Frame>, data: seq<Frame>, rest: seq<Frame>, p: int)
    requires sent == data + rest && forall k :: 0 <= k < |data| ==> data[k].StartFrame? || data[k].FragmentFrame?
    requires forall f :: f in rest ==> f.EndFrame? || f.ErrorFrame?
    requires 0 <= p < |sent| && (forall i :: 0 <= i < p ==> sent[i].StartFrame? || sent[i].FragmentFrame?)
    requires sent[p].EndFrame?
    ensures sent[..p] == data && sent[p] in rest
  {
    assert forall k :: 0 <= k < |data| ==> sent[k] == data[k];
    assert |data| < |sent| ==> sent[|data|] == rest[0] && rest[0] in rest;
  }

  lemma DataOnly(yielded: seq<int>, k1: seq<bool>, k2: seq<bool>)
    requires |k1| == 1 && |Fragments(yielded)| == |k2|
    ensures var data := Kept([StartFrame(0)], k1) + Kept(Fragments(yielded), k2);
            forall k :: 0 <= k < |data| ==> data[k].StartFrame? || data[k].FragmentFrame?
  {
    hide Kept;
    KeptOf([StartFrame(0)], k1);
    KeptOf(Fragments(yielded), k2);
    assert forall f :: f in Fragments(yielded) ==> f.FragmentFrame?;
    var data := Kept([StartFrame(0)], k1) + Kept(Fragments(yielded), k2);
    assert forall k :: 0 <= k < |data| ==> data[k] in data;
  }

  lemma EndedFrame(s: System)
    requires Conserved(s) && Consumed(s) && C.HeadStatus(s.call) == C.Ended
    ensures 0 <= s.call.consumer < |s.sent| && s.sent[s.call.consumer].EndFrame?
  {
    hide Payloads;
    assert s.call.queue[0] == s.pushed[s.call.consumer];
  }

  ghost predicate Distinct(xs: seq<int>) {
    forall i, j :: 0 <= i < j < |xs| ==> xs[i] != xs[j]
  }

  /** When payloads differ, what the client has consumed is a prefix of what was yielded exactly if none of the
      first so many fragments was lost. */
  lemma PrefixExactly(steps: seq<Step>, t: System)
    requires RunsTo(START, steps, t) && Distinct(t.yielded)
    ensures (t.started ==> 1 + |t.yielded| <= |t.kept|) && |t.consumed| <= |FragmentsKept(t)|
    ensures t.consumed <= t.yielded <==> forall i :: 0 <= i < |t.consumed| ==> FragmentsKept(t)[i]
  {
    hide RunsTo, Kept, FragmentsKept;
    StreamIsFaithful(steps, t);
    KeptSize(t.yielded, FragmentsKept(t));
    KeptFirst(t.yielded, FragmentsKept(t), |t.consumed|);
  }

  lemma {:induction false} KeptFirst(xs: seq<int>, kept: seq<bool>, n: nat)
    requires |xs| == |kept| && Distinct(xs) && n <= |Kept(xs, kept)|
    ensures n <= |xs| && (Kept(xs, kept)[..n] == xs[..n] <==> forall i :: 0 <= i < n ==> kept[i])
  {
    KeptSize(xs, kept);
    if n > 0 {
      var i := 0;
      while i < n && kept[i]
        invariant i <= n && forall j :: 0 <= j < i ==> kept[j]
      {
        i := i + 1;
      }
      KeptSplit(xs, kept, i);
      if i < n {
        KeptSplit(xs, kept, i + 1);
        KeptOf(xs[i + 1..], kept[i + 1..]);
        SkipsOne(xs, kept, i);
        assert Kept(xs, kept)[i] in xs[i + 1..];
        assert Kept(xs, kept)[..n][i] != xs[..n][i];
      }
    }
  }

  lemma KeptSplit<T>(xs: seq<T>, kept: seq<bool>, i: nat)
    requires |xs| == |kept| && i <= |xs|
    ensures Kept(xs, kept) == Kept(xs[..i], kept[..i]) + Kept(xs[i..], kept[i..])
    ensures (forall j :: 0 <= j < i ==> kept[j]) ==> Kept(xs[..i], kept[..i]) == xs[..i]
  {
    assert xs == xs[..i] + xs[i..] && kept == kept[..i] + kept[i..];
    KeptConcat(xs[..i], kept[..i], xs[i..], kept[i..]);
    KeptAll(xs[..i], kept[..i]);
    if forall j :: 0 <= j < i ==> kept[j] { NoneLost(kept[..i]); }
  }

  lemma {:induction false} NoneLost(kept: seq<bool>)
    requires forall j :: 0 <= j < |kept| ==> kept[j]
    ensures Lost(kept) == 0
  {
    if kept != [] { NoneLost(kept[..|kept| - 1]); }
  }

  /** After a first loss at `i`, what is kept goes on with what comes later. */
  lemma SkipsOne(xs: seq<int>, kept: seq<bool>, i: nat)
    requires |xs| == |kept| && i < |xs| && !kept[i] && forall j :: 0 <= j < i ==> kept[j]
    ensures Kept(xs, kept) == xs[..i] + Kept(xs[i + 1..], kept[i + 1..])
  {
    hide Kept;
    KeptSplit(xs, kept, i);
    assert xs[i..] == [xs[i]] + xs[i + 1..] && kept[i..] == [false] + kept[i + 1..];
    KeptConcat([xs[i]], [false], xs[i + 1..], kept[i + 1..]);
    KeptNone(xs[i]);
  }

  lemma KeptNone(x: int)
    ensures Kept([x], [false]) == []
  {
    assert [x][..0] == [] && [false][..0] == [];
  }

  // ---- Runs with a lost frame ----

  lemma {:induction false} RunsAppend(s: System, l: seq<Step>, t: System, r: seq<Step>, u: System)
    requires RunsTo(s, l, t) && RunsTo(t, r, u)
    ensures RunsTo(s, l + r, u)
    decreases |l|
  {
    hide Enabled, Next;
    if l == [] {
      assert l + r == r;
    } else {
      assert (l + r)[1..] == l[1..] + r;
      RunsAppend(Next(s, l[0]), l[1..], t, r, u);
    }
  }

  lemma RunsOneMore(s: System, l: seq<Step>, t: System, step: Step)
    requires RunsTo(s, l, t) && Enabled(t, step)
    ensures RunsTo(s, l + [step], Next(t, step))
  {
    hide Enabled, Next;
    assert [step][1..] == [];
    assert RunsTo(t, [step], Next(t, step));
    RunsAppend(s, l, t, [step], Next(t, step));
  }

  /** A started stream whose client has granted `n` fragments. */
  function Open(n: int): System {
    START.(server := Server(1, 1 + n, true, false, false, false, true), phase := Streaming,
           call := C.Client(false, false, [], 1, n, n), started := true, kept := [true], sent := [StartFrame(0)],
           arrived := 1, pushed := [C.Item(C.StreamStart, C.NoBody)], plain := 1, widest := n)
  }

  /** The start has been delivered. */
  function HalfOpen(n: int): System {
    START.(server := Server(1, 1, true, false, false, false, true), phase := Streaming,
           call := C.Client(false, false, [C.Item(C.StreamStart, C.NoBody)], 0, 0, n), started := true, kept := [true],
           sent := [StartFrame(0)], arrived := 1, pushed := [C.Item(C.StreamStart, C.NoBody)], plain := 1, widest := n)
  }

  lemma HalfOpening(n: int) returns (steps: seq<Step>)
    requires n >= 1
    ensures RunsTo(START, steps, HalfOpen(n))
  {
    hide RunsTo;
    RunsToSelf(START);
    var (first, second) := (Serve(StartStream, true), SetPrefetch(n));
    var s1 := Next(START, first);
    RunsOneMore(START, [], START, first);
    var s2 := Next(s1, second);
    RunsOneMore(START, [] + [first], s1, second);
    RunsOneMore(START, [] + [first] + [second], s2, Deliver);
    steps := [] + [first] + [second] + [Deliver];
    assert Next(s2, Deliver).pushed == [C.Item(C.StreamStart, C.NoBody)];
    assert Next(s2, Deliver) == HalfOpen(n);
  }

  lemma Opening(n: int) returns (steps: seq<Step>)
    requires n >= 1
    ensures RunsTo(START, steps, Open(n))
  {
    hide RunsTo;
    var s3 := HalfOpen(n);
    steps := HalfOpening(n);
    var s4 := Next(s3, Continue(true));
    RunsOneMore(START, steps, s3, Continue(true));
    RunsOneMore(START, steps + [Continue(true)], s4, Receive);
    steps := steps + [Continue(true)] + [Receive];
    assert s4.down == [Grant(n)] && s4.call.queue == [];
    assert Next(s4, Receive) == Open(n);
  }

  /** A fragment whose sending fails: everybody waits, and nobody has closed, cut or aborted anything. */
  lemma LostFragmentDeadlocks() returns (steps: seq<Step>, t: System)
    ensures RunsTo(START, steps, t) && t.up == [] && t.down == [] && t.call.queue == [] && t.phase == Streaming
    ensures Blocked(t.server) && !Told(t) && !t.clientClosed && !t.serverClosed && !t.cut
  {
    hide RunsTo;
    steps := Opening(1);
    t := Next(Open(1), Serve(YieldFragment(5), false));
    RunsOneMore(START, steps, Open(1), Serve(YieldFragment(5), false));
    steps := steps + [Serve(YieldFragment(5), false)];
  }

  /** With more credit the stream goes on, with a gap. */
  lemma LostFragmentLeavesGap() returns (steps: seq<Step>, t: System)
    ensures RunsTo(START, steps, t) && t.yielded == [5, 6] && t.consumed == [6]
  {
    hide RunsTo;
    steps := Opening(2);
    var s1 := Next(Open(2), Serve(YieldFragment(5), false));
    RunsOneMore(START, steps, Open(2), Serve(YieldFragment(5), false));
    var s2 := Next(s1, Serve(YieldFragment(6), true));
    RunsOneMore(START, steps + [Serve(YieldFragment(5), false)], s1, Serve(YieldFragment(6), true));
    steps := steps + [Serve(YieldFragment(5), false)] + [Serve(YieldFragment(6), true)];
    var s3 := Next(s2, Deliver);
    RunsOneMore(START, steps, s2, Deliver);
    t := Next(s3, Continue(true));
    RunsOneMore(START, steps + [Deliver], s3, Continue(true));
    steps := steps + [Deliver] + [Continue(true)];
  }

  // ---- Draining ----

  /** Steps that need neither the server's caller nor a decision of the client. */
  predicate Draining(step: Step) {
    step == Deliver || step == Receive || step == Continue(true)
  }

  function Work(s: System): nat {
    3 * |s.up| + 2 * |s.call.queue| + |s.down|
  }

  predicate Runs(s: System) {
    s.call.queue != [] && !s.freed && C.Running(C.HeadStatus(s.call))
  }

  /** Draining ends, within a number of steps known beforehand. */
  lemma DrainProgress(s: System, step: Step)
    requires Draining(step) && Enabled(s, step) && (step.Continue? ==> Runs(s))
    ensures Work(Next(s, step)) < Work(s)
  {
    hide AfterDeliver, AfterContinue, AfterReceive;
    match step
    case Deliver => DeliverProgress(s);
    case Continue(_) => ContinueProgress(s);
    case _ => ReceiveProgress(s);
  }

  lemma DeliverProgress(s: System)
    requires s.up != []
    ensures Work(AfterDeliver(s)) < Work(s)
  {
    hide Arrived, ItemOf;
    DeliverFields(s);
  }

  lemma ContinueProgress(s: System)
    requires Runs(s)
    ensures Work(AfterContinue(s, true)) < Work(s)
  {
  }

  lemma ReceiveProgress(s: System)
    requires s.down != []
    ensures Work(AfterReceive(s)) < Work(s)
  {
    hide Credited, AbortedByPeer;
  }

  /** The client has something terminal to report, all data that was not lost if it is the end; or the server can
      go on; or the call was freed or the connection cut. */
  ghost predicate Settled(t: System) {
    || (t.call.queue != [] && !Runs(t) &&
        (C.HeadStatus(t.call) == C.Ended ==>
           && t.started && 1 + |t.yielded| <= |t.kept| && |t.yielded| == |FragmentsKept(t)|
           && t.consumed == Kept(t.yielded, FragmentsKept(t))))
    || (t.phase != Finished && !Blocked(t.server))
    || t.freed || t.cut
  }

  /** Losses took the rest of the credit, or the last frame. */
  predicate Starved(t: System) {
    && t.call.queue == [] && !t.freed && !t.cut
    && if t.phase == Finished then t.kept != [] && !t.kept[|t.kept| - 1]
       else !t.server.aborted && Lost(t.kept) == 1 + t.call.producer - t.call.consumer
  }

  /** Delivering and consuming what there is leads, in that many steps, to a settled state, unless losses
      starve it; and if nothing was lost, always. */
  lemma {:induction false} Drain(s: System) returns (steps: seq<Step>, t: System)
    requires Inv(s)
    ensures RunsTo(s, steps, t) && |steps| <= Work(s) && forall step :: step in steps ==> Draining(step)
    ensures t.phase == s.phase && t.yielded == s.yielded && t.kept == s.kept && t.cut == s.cut && t.freed == s.freed
    ensures t.up == [] && t.down == [] && !Runs(t)
    ensures Settled(t) <==> !Starved(t)
    ensures Lost(s.kept) == 0 ==> Settled(t)
    decreases Work(s)
  {
    hide Inv, Work, RunsTo, Next, Settled, Starved;
    if s.up == [] && s.down == [] && !Runs(s) {
      DrainedState(s);
      RunsToSelf(s);
      return [], s;
    }
    var step := if s.up != [] then Deliver else if s.down != [] then Receive else Continue(true);
    DrainProgress(s, step);
    StepInv(s, step);
    var rest;
    rest, t := Drain(Next(s, step));
    steps := [step] + rest;
    RunsToCons(s, step, rest, t);
  }

  lemma DrainedState(s: System)
    requires Inv(s) && s.up == [] && s.down == [] && !Runs(s)
    ensures Settled(s) <==> !Starved(s)
    ensures Lost(s.kept) == 0 ==> Settled(s)
  {
    hide Kept, Credits, Closed, ConservedOk, ScriptedOk, ConsumedOk;
    Faithful(s);
    if C.HeadStatus(s.call) == C.Ended { EndedHead(s); }
    if s.call.queue == [] && !s.freed && !s.cut {
      if s.phase == Finished { FinishedIsLost(s); } else { BlockedExactly(s); }
    }
  }

  /** A stream that its caller has finished produced an end or an error at last, unless the client aborted it. */
  lemma FinishedIsLost(s: System)
    requires Inv(s) && s.phase == Finished && !s.cut && !s.freed && s.up == [] && s.call.queue == []
    ensures s.kept != [] && !s.kept[|s.kept| - 1] && Lost(s.kept) > 0
  {
    hide Produced, Script, Kept, Lost;
    AllPopped(s);
    FinishedEnds(s);
    var all := Produced(s.started, s.yielded, s.finished, s.server.responded);
    LastProduced(s.started, s.yielded, s.finished, s.server.responded);
    LastKept(all, s.kept);
    LastIsPopped(s.call.consumer, s.sent, s.consumed);
  }

  lemma AllPopped(s: System)
    requires Conserved(s) && !s.cut && !s.freed && s.up == [] && s.call.queue == []
    ensures s.call.consumer == |s.sent| && !Told(s)
  {
    hide ItemOf;
  }

  lemma FinishedEnds(s: System)
    requires Closed(s) && Scripted(s) && s.phase == Finished && !Told(s)
    ensures (s.finished ==> s.started) && (s.finished || s.server.responded)
  {
    hide Produced, Script, Kept;
  }

  lemma LastIsPopped(popped: int, sent: seq<Frame>, consumed: seq<int>)
    requires ConsumedOk(popped, sent, consumed) && popped == |sent|
    ensures sent != [] ==> !sent[|sent| - 1].EndFrame? && !sent[|sent| - 1].ErrorFrame?
  {
  }

  lemma LastProduced(started: bool, yielded: seq<int>, finished: bool, error: bool)
    requires (finished ==> started) && (finished || error)
    ensures var all := Produced(started, yielded, finished, error);
            all != [] && (all[|all| - 1].EndFrame? || all[|all| - 1].ErrorFrame?)
  {
  }

  lemma LastKept(all: seq<Frame>, kept: seq<bool>)
    requires |all| == |kept| && all != []
    ensures kept[|kept| - 1] ==> Kept(all, kept) != [] && Kept(all, kept)[|Kept(all, kept)| - 1] == all[|all| - 1]
    ensures !kept[|kept| - 1] ==> Lost(kept) > 0
  {
  }
}
