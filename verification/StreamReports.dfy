/** What the client is told and what it grants: contents, where the other results of the protocol count. */
module StreamReports {
  import opened ServerCall
  import opened StreamProtocol
  import opened StreamResults
  import C = ClientCall

  // ---- Grants ----

  /** A continue of a running call pops the head; when the counters meet it grants exactly the prefetch then set,
      whether the grant can be sent or not. */
  lemma ContinueGrants(c: C.Client, sent: bool)
    requires c.queue != [] && C.Running(C.HeadStatus(c))
    ensures var d := C.ContinueCalled(c, sent);
            && d.producer - c.producer == (if c.consumer == c.producer then c.prefetch else 0)
            && d.consumer == c.consumer + 1 && d.prefetch == c.prefetch
            && d.queue == c.queue[1..] +
                          if c.consumer == c.producer && !sent then [C.Item(C.Error, C.SendFailed)] else []
  {
  }

  /** In the protocol: that grant, and nothing else, is then on its way to the server, which gets it as credit. */
  lemma GrantIsPrefetch(s: System, sent: bool)
    requires Enabled(s, Continue(sent)) && Runs(s)
    ensures var t := Next(s, Continue(sent));
            && t.down == (if s.call.consumer == s.call.producer && sent && !s.cut then s.down + [Grant(s.call.prefetch)]
                          else s.down)
            && t.call.producer == s.call.producer + if s.call.consumer == s.call.producer then s.call.prefetch else 0
  {
  }

  lemma CreditArrives(s: System, n: int)
    requires s.down != [] && s.down[0] == Grant(n) && s.server.registered
    ensures var t := Next(s, Receive);
            && t.server.consumer == s.server.consumer + n && t.server.producer == s.server.producer
            && t.down == s.down[1..]
  {
  }

  /** With one prefetch throughout, grants come once for so many items: what was granted is a multiple of the
      prefetch, the least that covers what was popped. */
  ghost predicate Granted(s: System, p: int, k: int) {
    s.call.prefetch == p && s.call.producer == k * p && s.call.consumer <= k * p < s.call.consumer + p
  }

  lemma GrantedStep(s: System, step: Step, p: int, k: int) returns (j: int)
    requires Enabled(s, step) && !step.SetPrefetch? && Granted(s, p, k) && p >= 1
    ensures Granted(Next(s, step), p, j)
  {
    if step.Continue? && Runs(s) && s.call.consumer == s.call.producer {
      j := k + 1;
      ContinueGrants(s.call, step.sent);
      Increased(k, p);
    } else {
      j := k;
      KeepsCounters(s, step);
    }
  }

  lemma Increased(k: int, p: int)
    ensures (k + 1) * p == k * p + p
  {
  }

  lemma KeepsCounters(s: System, step: Step)
    requires Enabled(s, step) && !step.SetPrefetch?
    requires !(step.Continue? && Runs(s) && s.call.consumer == s.call.producer)
    ensures var t := Next(s, step);
            && t.call.prefetch == s.call.prefetch && t.call.producer == s.call.producer
            && t.call.consumer == s.call.consumer + if step.Continue? && Runs(s) then 1 else 0
  {
    match step
    case Deliver => DeliverFields(s);
    case CloseClient => if !s.freed { ReceivedFacts(s, C.CLOSED_ITEM); }
    case Abort(sent) => if C.Running(C.HeadStatus(s.call)) && sent { ReceivedFacts(s, C.Item(C.Aborted, C.NoBody)); }
    case _ =>
  }

  lemma {:induction false} GrantsEvery(s: System, steps: seq<Step>, t: System, p: int, k: int) returns (j: int)
    requires RunsTo(s, steps, t) && Granted(s, p, k) && p >= 1 && forall step :: step in steps ==> !step.SetPrefetch?
    ensures Granted(t, p, j)
    decreases |steps|
  {
    hide Next, Enabled, Granted;
    if steps == [] { return k; }
    var i := GrantedStep(s, steps[0], p, k);
    j := GrantsEvery(Next(s, steps[0]), steps[1..], t, p, i);
  }

  /** From the start of a call whose prefetch is set first. */
  lemma GrantsOnTime(p: int, steps: seq<Step>, t: System) returns (k: int)
    requires p >= 1 && RunsTo(START, [SetPrefetch(p)] + steps, t) && forall step :: step in steps ==> !step.SetPrefetch?
    ensures t.call.producer == k * p && t.call.consumer <= t.call.producer < t.call.consumer + p
  {
    var s := Next(START, SetPrefetch(p));
    assert ([SetPrefetch(p)] + steps)[1..] == steps;
    assert Granted(s, p, 0);
    k := GrantsEvery(s, steps, t, p, 0);
  }

  // ---- Reasons ----

  /** The steps that can have queued an item. */
  ghost predicate Explained(i: C.Item, steps: seq<Step>) {
    match i.body
    case TimedOut => i.status == C.Error && Fire in steps
    case ConnectionClosed => i.status == C.Error && CloseClient in steps
    case SendFailed => i.status == C.Error && Continue(false) in steps
    case Payload(p) =>
      i.status == C.MoreAvailable && exists f :: f in steps && f.Serve? && f.request == YieldFragment(p)
    case NoBody =>
      || (i.status == C.Aborted && Abort(true) in steps)
      || (i.status in {C.StreamStart, C.Ended, C.Error} && exists f :: f in steps && f.Serve?)
  }

  ghost predicate FrameExplained(f: Frame, steps: seq<Step>) {
    exists g :: g in steps && g.Serve? && (f.FragmentFrame? ==> g.request == YieldFragment(f.payload))
  }

  /** Everything queued or in flight comes from a step of the run. */
  ghost predicate Accounted(s: System, steps: seq<Step>) {
    && (forall i :: i in s.pushed ==> Explained(i, steps))
    && (forall f :: f in s.up ==> FrameExplained(f, steps))
  }

  lemma ExplainedMore(s: System, steps: seq<Step>, step: Step)
    requires Accounted(s, steps)
    ensures Accounted(s, steps + [step])
  {
    assert forall g :: g in steps ==> g in steps + [step];
    forall i | i in s.pushed ensures Explained(i, steps + [step]) { assert Explained(i, steps); }
    forall f | f in s.up ensures FrameExplained(f, steps + [step]) { assert FrameExplained(f, steps); }
  }

  lemma FrameItemExplained(f: Frame, steps: seq<Step>)
    requires FrameExplained(f, steps)
    ensures Explained(ItemOf(f), steps)
  {
  }

  lemma AccountedStep(s: System, steps: seq<Step>, step: Step)
    requires Accounted(s, steps) && Enabled(s, step)
    ensures Accounted(Next(s, step), steps + [step])
  {
    ExplainedMore(s, steps, step);
    var all := steps + [step];
    assert step in all;
    hide Explained, FrameExplained;
    match step
    case Serve(r, sent) => ServeExplained(s, r, sent, all);
    case Deliver =>
      DeliverFields(s);
      assert s.up[0] in s.up;
      FrameItemExplained(s.up[0], all);
    case Continue(sent) =>
      if Runs(s) { LocalExplained(all); ContinueGrantsPushed(s, sent); }
    case Abort(sent) => LocalExplained(all);
    case Fire => LocalExplained(all);
    case CloseClient => LocalExplained(all);
    case _ =>
  }

  lemma ContinueGrantsPushed(s: System, sent: bool)
    requires s.call.queue != []
    ensures var t := AfterContinue(s, sent);
            t.up == s.up && (t.pushed == s.pushed || (!sent && t.pushed == s.pushed + [C.Item(C.Error, C.SendFailed)]))
  {
    hide C.ContinueCalled;
  }

  lemma LocalExplained(steps: seq<Step>)
    ensures Fire in steps ==> Explained(C.TIMEOUT_ITEM, steps)
    ensures CloseClient in steps ==> Explained(C.CLOSED_ITEM, steps)
    ensures Continue(false) in steps ==> Explained(C.Item(C.Error, C.SendFailed), steps)
    ensures Abort(true) in steps ==> Explained(C.Item(C.Aborted, C.NoBody), steps)
  {
  }

  lemma ServeExplained(s: System, r: Request, sent: bool, steps: seq<Step>)
    requires Serve(r, sent) in steps && forall f :: f in s.up ==> FrameExplained(f, steps)
    ensures forall f :: f in AfterServe(s, r, sent).up ==> FrameExplained(f, steps)
    ensures AfterServe(s, r, sent).pushed == s.pushed
  {
    hide FrameExplained, Sent, Served;
    forall f | f in Sent(s.server, r) ensures FrameExplained(f, steps) { SentExplained(s.server, r, sent, f, steps); }
    UpAfter(s, r, sent);
  }

  lemma UpAfter(s: System, r: Request, sent: bool)
    ensures var t := AfterServe(s, r, sent); t.up == s.up || t.up == s.up + Sent(s.server, r)
  {
    hide Sent, Served;
  }

  lemma SentExplained(server: Server, r: Request, sent: bool, f: Frame, steps: seq<Step>)
    requires f in Sent(server, r) && Serve(r, sent) in steps
    ensures FrameExplained(f, steps)
  {
    assert Serve(r, sent).request == r;
  }

  lemma {:induction false} AccountedRun(s: System, before: seq<Step>, steps: seq<Step>, t: System)
    requires Accounted(s, before) && RunsTo(s, steps, t)
    ensures Accounted(t, before + steps)
    decreases |steps|
  {
    hide Accounted, Next, Enabled;
    if steps == [] {
      assert before + steps == before;
    } else {
      AccountedStep(s, before, steps[0]);
      AccountedRun(Next(s, steps[0]), before + [steps[0]], steps[1..], t);
      assert before + [steps[0]] + steps[1..] == before + steps;
    }
  }

  /** What the client is told is true: a timeout was a timeout, an abort an abort, a payload was yielded. */
  lemma ReasonsAreTrue(steps: seq<Step>, t: System)
    requires RunsTo(START, steps, t)
    ensures forall i :: i in t.pushed ==> Explained(i, steps)
  {
    hide Explained, FrameExplained, RunsTo;
    assert Accounted(START, []);
    AccountedRun(START, [], steps, t);
    assert [] + steps == steps;
  }

  // ---- The end ----

  /** A stream that ended or failed at the server is reported as such: once everything is delivered and consumed,
      an end that was sent is at the client's head, and so is an error, unless the client learned of something
      else first. */
  lemma EndIsReported(steps: seq<Step>, t: System)
    requires RunsTo(START, steps, t) && t.up == [] && !Runs(t) && !Told(t) && !t.cut
    requires (t.finished || t.server.responded) && t.kept != [] && t.kept[|t.kept| - 1]
    ensures C.HeadStatus(t.call) == if t.server.responded then C.Error else C.Ended
  {
    hide Next, Enabled;
    StartInv();
    RunInv(START, steps, t);
    hide Credits, Closed;
    LastFrame(t);
    LastIsHead(t);
  }

  lemma LastFrame(s: System)
    requires Scripted(s) && (s.finished || s.server.responded) && s.kept != [] && s.kept[|s.kept| - 1]
    ensures s.sent != []
    ensures var last := s.sent[|s.sent| - 1]; if s.server.responded then last.ErrorFrame? else last.EndFrame?
    ensures forall k :: 0 <= k < |s.sent| - 1 ==> s.sent[k].StartFrame? || s.sent[k].FragmentFrame?
  {
    hide Kept, Fragments;
    var all := Produced(s.started, s.yielded, s.finished, s.server.responded);
    LastKept(all, s.kept);
    var n := |all| - 1;
    assert all[..n] == Script(s.started, s.yielded, false);
    BeforeLast(all, s.kept);
    KeptOf(all[..n], s.kept[..n]);
    assert forall k :: 0 <= k < |s.sent| - 1 ==> s.sent[k] in Kept(all[..n], s.kept[..n]);
    OpenScript(s.started, s.yielded);
  }

  lemma BeforeLast(all: seq<Frame>, kept: seq<bool>)
    requires |all| == |kept| && all != [] && kept[|kept| - 1]
    ensures var n := |all| - 1; Kept(all, kept) == Kept(all[..n], kept[..n]) + [all[n]]
  {
  }

  lemma OpenScript(started: bool, yielded: seq<int>)
    ensures forall f :: f in Script(started, yielded, false) ==> f.StartFrame? || f.FragmentFrame?
  {
  }

  lemma LastIsHead(s: System)
    requires Conserved(s) && s.up == [] && !Runs(s) && !Told(s) && !s.cut && s.sent != [] && Consumed(s)
    requires forall k :: 0 <= k < |s.sent| - 1 ==> s.sent[k].StartFrame? || s.sent[k].FragmentFrame?
    requires var last := s.sent[|s.sent| - 1]; last.ErrorFrame? || last.EndFrame?
    ensures C.HeadStatus(s.call) == ItemOf(s.sent[|s.sent| - 1]).status
  {
    hide Payloads;
    var (n, p) := (|s.sent|, s.call.consumer);
    assert s.plain == |s.pushed| == n && p < n;
    assert s.call.queue[0] == s.pushed[p] == ItemOf(s.sent[p]);
  }
}
