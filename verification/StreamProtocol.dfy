/** A stream between a server and a client: frames one way, credits and aborts the other, both in order.
    The call may be killed, aborted, timed out or freed, any send of either side may fail, and either end may see
    the connection close, after which what is in flight may be lost. */
module StreamProtocol {
  import opened Wrappers
  import opened ServerCall
  import C = ClientCall

  datatype Phase = Fresh | Streaming | Finished

  datatype Message = Grant(n: int) | AbortCall

  /** `up` and `down` are in flight. `fired`: the timer ran; `freed`: the client freed the call. `started`,
      `yielded` and `finished` record the data of the requests that returned success, `kept` for each frame
      produced whether sending it succeeded. `sent`, `pushed` and `consumed` record the frames sent, the items
      ever queued and the payloads popped; `arrived` counts the frames delivered, `plain` the items queued before
      the first one that is not a frame's. `widest` is the largest prefetch ever set. */
  datatype System = System(
    server: Server, phase: Phase, up: seq<Frame>, down: seq<Message>, call: C.Client,
    fired: bool, freed: bool, clientClosed: bool, serverClosed: bool, cut: bool,
    started: bool, yielded: seq<int>, finished: bool, kept: seq<bool>,
    sent: seq<Frame>, arrived: nat, pushed: seq<C.Item>, plain: nat, consumed: seq<int>, widest: int)

  const START := System(
    NEW_CALL, Fresh, [], [], C.NEW_CALL, false, false, false, false, false,
    false, [], false, [], [], 0, [], 0, [], 1)

  datatype Step =
    | Serve(request: Request, sent: bool) | Leave | Kill
    | Deliver | Receive
    | Continue(sent: bool) | Abort(sent: bool) | Fire | SetPrefetch(n: int) | Free
    | CloseClient | CloseServer | Cut

  /** The caller starts, yields any number of times and ends, whatever the requests return. */
  predicate InTurn(phase: Phase, r: Request) {
    match r
    case StartStream => phase == Fresh
    case YieldFragment(_) => phase == Streaming
    case EndStream => phase == Streaming
  }

  /** The client uses the call until it frees it. */
  predicate Enabled(s: System, step: Step) {
    match step
    case Serve(r, _) => InTurn(s.phase, r) && !Blocked(s.server)
    case Leave => s.phase == Finished && s.server.registered
    case Kill => true
    case Deliver => s.up != []
    case Receive => s.down != []
    case Continue(_) => s.call.queue != [] && !s.freed
    case Abort(_) => !s.freed
    case Fire => !s.fired && !s.freed
    case SetPrefetch(n) => n >= 1 && !s.freed
    case Free => !s.freed
    case CloseClient => !s.clientClosed
    case CloseServer => !s.serverClosed
    case Cut => s.clientClosed || s.serverClosed
  }

  function ItemOf(f: Frame): C.Item {
    match f
    case StartFrame(_) => C.Item(C.StreamStart, C.NoBody)
    case FragmentFrame(_, p) => C.Item(C.MoreAvailable, C.Payload(p))
    case EndFrame(_) => C.Item(C.Ended, C.NoBody)
    case ErrorFrame => C.Item(C.Error, C.NoBody)
  }

  function Arrived(c: C.Client, f: Frame): C.Client {
    if f.FragmentFrame? then C.FragmentReceived(c, Some(f.payload)) else C.Received(c, ItemOf(f))
  }

  /** What an event queues: nothing if the timer fired first, or if the call was freed. */
  function Unless(s: System, item: C.Item): seq<C.Item> {
    if C.Cancelled(s.call).Some? && !s.freed then [item] else []
  }

  /** A request: whether its frame could be sent or not, the call goes on as if it was. */
  function AfterServe(s: System, r: Request, sent: bool): System {
    var (frames, data) := (Sent(s.server, r), !s.server.aborted);
    s.(server := Served(s.server, r), phase := if r.EndStream? then Finished else Streaming,
       up := if sent && !s.cut then s.up + frames else s.up,
       sent := if sent then s.sent + frames else s.sent,
       kept := if frames == [] then s.kept else s.kept + [sent],
       started := s.started || (data && r.StartStream?),
       yielded := if data && r.YieldFragment? then s.yielded + [r.payload] else s.yielded,
       finished := s.finished || (data && r.EndStream?))
  }

  function AfterDeliver(s: System): System
    requires s.up != []
  {
    var items := Unless(s, ItemOf(s.up[0]));
    s.(up := s.up[1..], arrived := s.arrived + 1,
       call := if s.freed then s.call else Arrived(s.call, s.up[0]), pushed := s.pushed + items,
       plain := if items != [] && s.plain == |s.pushed| then s.plain + 1 else s.plain)
  }

  function AfterContinue(s: System, sent: bool): System
    requires s.call.queue != []
  {
    if !C.Running(C.HeadStatus(s.call)) then s
    else
      var (meet, head) := (s.call.consumer == s.call.producer, s.call.queue[0]);
      s.(call := C.ContinueCalled(s.call, sent),
         pushed := if meet && !sent then s.pushed + [C.Item(C.Error, C.SendFailed)] else s.pushed,
         down := if meet && sent && !s.cut then s.down + [Grant(C.Grant(s.call))] else s.down,
         consumed := if head.body.Payload? then s.consumed + [head.body.id] else s.consumed)
  }

  function AfterAbort(s: System, sent: bool): System {
    if !C.Running(C.HeadStatus(s.call)) || !sent then s
    else
      s.(call := C.AbortCalled(s.call, sent), pushed := s.pushed + Unless(s, C.Item(C.Aborted, C.NoBody)),
         down := if s.cut then s.down else s.down + [AbortCall])
  }

  function AfterFire(s: System): System {
    s.(fired := true, call := C.TimerFired(s.call),
       pushed := if s.call.timer then s.pushed + [C.TIMEOUT_ITEM] else s.pushed)
  }

  /** A close seen by the client: the sweep finds the calls in the table. */
  function AfterClose(s: System): System {
    s.(clientClosed := true, call := if s.freed then s.call else C.Received(s.call, C.CLOSED_ITEM),
       pushed := s.pushed + Unless(s, C.CLOSED_ITEM))
  }

  function AfterReceive(s: System): System
    requires s.down != []
  {
    s.(down := s.down[1..],
       server := if s.down[0].Grant? then Credited(s.server, s.down[0].n) else AbortedByPeer(s.server))
  }

  /** Only a request produces frames. */
  function Next(s: System, step: Step): (t: System)
    requires Enabled(s, step)
    ensures !step.Serve? ==> t.phase == s.phase && t.yielded == s.yielded && t.kept == s.kept && t.sent == s.sent
    ensures step != Free ==> t.freed == s.freed
    ensures step != Cut ==> t.cut == s.cut
  {
    match step
    case Serve(r, sent) => AfterServe(s, r, sent)
    case Leave => s.(server := Unregistered(s.server))
    case Kill => s.(server := s.server.(aborted := true))
    case Deliver => AfterDeliver(s)
    case Receive => AfterReceive(s)
    case Continue(sent) => AfterContinue(s, sent)
    case Abort(sent) => AfterAbort(s, sent)
    case Fire => AfterFire(s)
    case SetPrefetch(n) => s.(call := s.call.(prefetch := n), widest := if n > s.widest then n else s.widest)
    case Free => s.(freed := true, call := C.Freed(s.call))
    case CloseClient => AfterClose(s)
    case CloseServer => s.(serverClosed := true, server := s.server.(aborted := true))
    case Cut => s.(cut := true, up := [], down := [])
  }

  ghost predicate RunsTo(s: System, steps: seq<Step>, t: System)
    decreases |steps|
  {
    if steps == [] then t == s else Enabled(s, steps[0]) && RunsTo(Next(s, steps[0]), steps[1..], t)
  }

  function Sum(ms: seq<Message>): int {
    if ms == [] then 0 else (if ms[0].Grant? then ms[0].n else 0) + Sum(ms[1..])
  }

  lemma {:induction false} SumAppend(ms: seq<Message>, m: Message)
    ensures Sum(ms + [m]) == Sum(ms) + if m.Grant? then m.n else 0
    decreases |ms|
  {
    if ms == [] {
      assert ms + [m] == [m];
    } else {
      assert (ms + [m])[1..] == ms[1..] + [m];
      SumAppend(ms[1..], m);
    }
  }

  ghost predicate Positive(ms: seq<Message>) {
    forall i :: 0 <= i < |ms| && ms[i].Grant? ==> ms[i].n >= 1
  }

  lemma {:induction false} SumPositive(ms: seq<Message>)
    requires Positive(ms)
    ensures Sum(ms) >= 0
  {
    if ms != [] { SumPositive(ms[1..]); }
  }

  /** Something other than a frame was queued, or the call freed: the client knows that the call is over. */
  predicate Told(s: System) {
    s.plain < |s.pushed| || s.freed
  }

  /** Credits: the server has at most what the client granted, and `exact`ly that but for what is in flight. */
  ghost predicate CreditsOk(
    sent: int, credit: int, exact: bool, down: seq<Message>, popped: int, granted: int, prefetch: int, widest: int)
  {
    && 0 <= sent <= credit && Positive(down)
    && credit + Sum(down) <= 1 + granted && (exact ==> credit + Sum(down) == 1 + granted)
    && 0 <= popped <= granted && 1 + granted - popped <= widest && 1 <= prefetch <= widest
  }

  /** Exact unless the client knows that the call is over, the call left the table, or the connection was cut. */
  ghost predicate Credits(s: System) {
    CreditsOk(s.server.producer, s.server.consumer, s.server.registered && !Told(s) && !s.cut, s.down,
              s.call.consumer, s.call.producer, s.call.prefetch, s.widest)
  }

  /** A close is known where it happened, and only a close loses what is in flight. A call that ended without
      an end or an error was aborted by the client. */
  ghost predicate Closed(s: System) {
    && (s.phase == Finished ==> s.server.ended)
    && (AbortCall in s.down || (s.server.ended && !s.finished && !s.server.responded) ==> Told(s))
    && (s.cut ==> s.clientClosed || s.serverClosed)
    && (s.serverClosed ==> s.server.aborted)
    && (s.clientClosed ==> Told(s))
    && (s.phase != Finished ==> s.server.registered)
  }

  /** The queue is what was queued and not popped, until the call is freed. Before the first other item it is the
      frames delivered, in order; frames are dropped only once the timer has fired or the call is freed. */
  ghost predicate ConservedOk(
    pushed: seq<C.Item>, plain: nat, queue: seq<C.Item>, popped: int, sent: seq<Frame>, arrived: nat,
    up: seq<Frame>, cut: bool, freed: bool, dropping: bool)
  {
    && 0 <= popped <= plain <= |pushed| && queue == (if freed then [] else pushed[popped..])
    && plain <= arrived <= |sent| && up == (if cut then [] else sent[arrived..])
    && (forall i :: 0 <= i < plain ==> pushed[i] == ItemOf(sent[i]))
    && (plain < |pushed| ==> pushed[plain].status in {C.Aborted, C.Error})
    && (plain == |pushed| && !freed ==> plain == arrived && !dropping)
  }

  ghost predicate Conserved(s: System) {
    ConservedOk(s.pushed, s.plain, s.call.queue, s.call.consumer, s.sent, s.arrived, s.up, s.cut, s.freed,
                s.call.timer && s.call.timedout)
  }

  function Fragments(yielded: seq<int>): seq<Frame> {
    seq(|yielded|, i requires 0 <= i < |yielded| => FragmentFrame(1 + i, yielded[i]))
  }

  /** The data frames of a start, yields and an end, numbered from zero. */
  function Script(started: bool, yielded: seq<int>, finished: bool): seq<Frame> {
    if !started then []
    else if !finished then [StartFrame(0)] + Fragments(yielded)
    else [StartFrame(0)] + Fragments(yielded) + [EndFrame(1 + |yielded|)]
  }

  /** Those of a sequence that were kept. */
  function Kept<T>(xs: seq<T>, kept: seq<bool>): seq<T>
    requires |xs| == |kept|
  {
    if xs == [] then []
    else
      var n := |xs| - 1;
      Kept(xs[..n], kept[..n]) + if kept[n] then [xs[n]] else []
  }

  /** How many were not. */
  function Lost(kept: seq<bool>): nat {
    if kept == [] then 0 else Lost(kept[..|kept| - 1]) + if kept[|kept| - 1] then 0 else 1
  }

  lemma KeptOneMore<T>(xs: seq<T>, kept: seq<bool>, x: T, k: bool)
    requires |xs| == |kept|
    ensures Kept(xs + [x], kept + [k]) == Kept(xs, kept) + if k then [x] else []
  {
    assert (xs + [x])[..|xs|] == xs && (kept + [k])[..|kept|] == kept;
  }

  lemma {:induction false} KeptSize<T>(xs: seq<T>, kept: seq<bool>)
    requires |xs| == |kept|
    ensures |Kept(xs, kept)| + Lost(kept) == |xs|
  {
    if xs != [] { KeptSize(xs[..|xs| - 1], kept[..|xs| - 1]); }
  }

  /** The frames produced: the script, and after it an error if the call was aborted without having ended. */
  function Produced(started: bool, yielded: seq<int>, finished: bool, error: bool): seq<Frame> {
    Script(started, yielded, finished) + if error then [ErrorFrame] else []
  }

  /** What was sent is what was produced, but for the sends that failed. */
  ghost predicate ScriptedOk(
    sent: seq<Frame>, kept: seq<bool>, started: bool, yielded: seq<int>, finished: bool, phase: Phase,
    producer: int, ended: bool, responded: bool, aborted: bool)
  {
    && |kept| == |Produced(started, yielded, finished, responded)|
    && sent == Kept(Produced(started, yielded, finished, responded), kept)
    && producer == |Script(started, yielded, finished)|
    && (!started ==> yielded == [] && !finished)
    && (responded ==> aborted && ended && !finished)
    && (!aborted ==> (phase == Fresh <==> !started) && (finished <==> phase == Finished) && (ended <==> finished))
    && (finished ==> ended)
  }

  ghost predicate Scripted(s: System) {
    ScriptedOk(s.sent, s.kept, s.started, s.yielded, s.finished, s.phase,
               s.server.producer, s.server.ended, s.server.responded, s.server.aborted)
  }

  function Payloads(fs: seq<Frame>): seq<int> {
    if fs == [] then []
    else Payloads(fs[..|fs| - 1]) + if fs[|fs| - 1].FragmentFrame? then [fs[|fs| - 1].payload] else []
  }

  /** The items popped are of a start or of fragments; their payloads were consumed. */
  ghost predicate ConsumedOk(popped: int, sent: seq<Frame>, consumed: seq<int>) {
    && 0 <= popped <= |sent| && (forall i :: 0 <= i < popped ==> sent[i].StartFrame? || sent[i].FragmentFrame?)
    && consumed == Payloads(sent[..popped])
  }

  ghost predicate Consumed(s: System) {
    ConsumedOk(s.call.consumer, s.sent, s.consumed)
  }

  ghost predicate Inv(s: System) {
    Credits(s) && Closed(s) && Conserved(s) && Scripted(s) && Consumed(s)
  }

  lemma ReceivedFacts(s: System, item: C.Item)
    requires !s.freed
    ensures var (c, d) := (s.call, C.Received(s.call, item));
            && d.consumer == c.consumer && d.producer == c.producer && d.prefetch == c.prefetch
            && d.queue == c.queue + Unless(s, item) && d.timedout == c.timedout
            && (d.timer <==> c.timer && c.timedout)
  {
  }

  lemma ArrivedIsReceived(c: C.Client, f: Frame)
    ensures Arrived(c, f) == C.Received(c, ItemOf(f))
  {
  }

  /** Queueing an item that is not a frame's, or dropping it because the timer fired first, and with it
      a message or none. */
  lemma TellInv(s: System, t: System, item: C.Item)
    requires Inv(s) && item.status in {C.Aborted, C.Error} && !s.freed
    requires t == s.(call := C.Received(s.call, item), pushed := s.pushed + Unless(s, item),
                     clientClosed := t.clientClosed, down := t.down)
    requires s.clientClosed ==> t.clientClosed
    requires t.down == s.down || (t.down == s.down + [AbortCall])
    ensures Inv(t)
  {
    hide ItemOf, ScriptedOk, ConsumedOk, C.Received;
    ReceivedFacts(s, item);
    SumAppend(s.down, AbortCall);
  }

  lemma AbortInv(s: System, sent: bool)
    requires Inv(s) && !s.freed
    ensures Inv(AfterAbort(s, sent))
  {
    hide Inv, C.Received;
    if C.Running(C.HeadStatus(s.call)) && sent { TellInv(s, AfterAbort(s, sent), C.Item(C.Aborted, C.NoBody)); }
  }

  lemma FireInv(s: System)
    requires Inv(s) && !s.fired && !s.freed
    ensures Inv(AfterFire(s))
  {
    hide CreditsOk, ConservedOk, ScriptedOk, ConsumedOk;
    FireConserved(s.pushed, s.plain, s.call.queue, s.call.consumer, s.sent, s.arrived, s.up, s.cut,
                  s.call.timer && s.call.timedout);
    FireCredits(s);
  }

  lemma FireConserved(
    pushed: seq<C.Item>, plain: nat, queue: seq<C.Item>, popped: int, sent: seq<Frame>, arrived: nat,
    up: seq<Frame>, cut: bool, dropping: bool)
    requires ConservedOk(pushed, plain, queue, popped, sent, arrived, up, cut, false, dropping)
    ensures ConservedOk(pushed, plain, queue, popped, sent, arrived, up, cut, false, false)
    ensures ConservedOk(pushed + [C.TIMEOUT_ITEM], plain, queue + [C.TIMEOUT_ITEM], popped, sent, arrived, up, cut,
                        false, true)
  {
    hide ItemOf;
  }

  lemma FireCredits(s: System)
    requires Credits(s)
    ensures Credits(AfterFire(s))
  {
  }

  lemma CloseClientInv(s: System)
    requires Inv(s) && !s.clientClosed
    ensures Inv(AfterClose(s))
  {
    hide CreditsOk, ConservedOk, ScriptedOk, ConsumedOk, C.Received;
    if s.freed {
      assert s.pushed + [] == s.pushed;
    } else {
      TellInv(s, AfterClose(s), C.CLOSED_ITEM);
    }
  }

  /** A frame delivered, queued or dropped. */
  lemma DeliverConserved(
    pushed: seq<C.Item>, plain: nat, queue: seq<C.Item>, popped: int, sent: seq<Frame>, arrived: nat,
    up: seq<Frame>, cut: bool, freed: bool, dropping: bool)
    requires ConservedOk(pushed, plain, queue, popped, sent, arrived, up, cut, freed, dropping) && up != []
    ensures dropping || freed ==>
              ConservedOk(pushed, plain, queue, popped, sent, arrived + 1, up[1..], cut, freed, dropping)
    ensures var more := [ItemOf(up[0])];
            !dropping && !freed ==>
              ConservedOk(pushed + more, if plain == |pushed| then plain + 1 else plain, queue + more,
                          popped, sent, arrived + 1, up[1..], cut, freed, dropping)
  {
    hide ItemOf;
    assert up[0] == sent[arrived] && up[1..] == sent[arrived + 1..];
  }

  /** What a delivery does to the client. */
  lemma DeliverFields(s: System)
    requires s.up != []
    ensures var (t, more) := (AfterDeliver(s), Unless(s, ItemOf(s.up[0])));
            && t.call.queue == s.call.queue + more && t.pushed == s.pushed + more
            && t.call.consumer == s.call.consumer && t.call.producer == s.call.producer
            && t.call.prefetch == s.call.prefetch
            && (t.call.timer && t.call.timedout <==> s.call.timer && s.call.timedout)
  {
    hide ItemOf, Arrived, C.Received;
    ArrivedIsReceived(s.call, s.up[0]);
    if !s.freed { ReceivedFacts(s, ItemOf(s.up[0])); }
    assert s.call.queue + [] == s.call.queue;
  }

  lemma DeliverInv(s: System)
    requires Inv(s) && s.up != []
    ensures Inv(AfterDeliver(s))
  {
    hide Credits, Closed, Conserved, Scripted, Consumed;
    DeliverConservedStep(s);
    DeliverRest(s);
  }

  lemma DeliverConservedStep(s: System)
    requires Conserved(s) && s.up != []
    ensures Conserved(AfterDeliver(s))
  {
    hide ItemOf, ConservedOk, Arrived;
    DeliverFields(s);
    DeliverConserved(s.pushed, s.plain, s.call.queue, s.call.consumer, s.sent, s.arrived, s.up, s.cut, s.freed,
                     s.call.timer && s.call.timedout);
    assert s.pushed + [] == s.pushed && s.call.queue + [] == s.call.queue;
  }

  lemma DeliverRest(s: System)
    requires Inv(s) && s.up != []
    ensures var t := AfterDeliver(s); Credits(t) && Closed(t) && Scripted(t) && Consumed(t)
  {
    hide ItemOf, ConservedOk, ScriptedOk, ConsumedOk, Arrived;
    DeliverFields(s);
    PlainBound(s);
  }

  lemma PlainBound(s: System)
    requires Conserved(s)
    ensures s.plain <= |s.pushed|
  {
  }

  lemma ReceiveInv(s: System)
    requires Inv(s) && s.down != []
    ensures Inv(AfterReceive(s))
  {
    hide ConservedOk, ConsumedOk, Produced, Script, Kept;
    assert Positive(s.down[1..]);
    SumPositive(s.down[1..]);
  }

  /** Kill, a call that leaves the table, and a close at the server. */
  lemma ServerSideInv(s: System, step: Step)
    requires Inv(s) && Enabled(s, step) && (step.Kill? || step.Leave? || step.CloseServer?)
    ensures Inv(Next(s, step))
  {
    hide ConservedOk, ConsumedOk, Produced, Script, Kept;
  }

  /** Cut, free and a change of the prefetch. */
  lemma ClientSideInv(s: System, step: Step)
    requires Inv(s) && Enabled(s, step) && (step.Cut? || step.SetPrefetch? || step.Free?)
    ensures Inv(Next(s, step))
  {
    hide ItemOf, ScriptedOk, ConsumedOk;
    SumPositive(s.down);
  }

  /** A running head is the item of the next frame; popping it, and queueing an error, keeps the rest. */
  lemma PopConserved(
    pushed: seq<C.Item>, plain: nat, queue: seq<C.Item>, popped: int, sent: seq<Frame>, arrived: nat,
    up: seq<Frame>, cut: bool, dropping: bool, more: seq<C.Item>)
    requires ConservedOk(pushed, plain, queue, popped, sent, arrived, up, cut, false, dropping)
    requires queue != [] && C.Running(queue[0].status)
    requires more == [] || more == [C.Item(C.Error, C.SendFailed)]
    ensures 0 <= popped < |sent| && queue[0] == ItemOf(sent[popped])
    ensures ConservedOk(pushed + more, plain, (queue + more)[1..], popped + 1, sent, arrived, up, cut, false, dropping)
  {
    hide ItemOf;
    assert queue[0] == pushed[popped];
    assert (queue + more)[1..] == (pushed + more)[popped + 1..];
  }

  lemma ContinueInv(s: System, sent: bool)
    requires Inv(s) && s.call.queue != [] && !s.freed
    ensures Inv(AfterContinue(s, sent))
  {
    if C.Running(C.HeadStatus(s.call)) {
      hide AfterContinue, Credits, Conserved, Scripted, Consumed, Closed;
      ContinueCredits(s, sent);
      ContinueConserved(s, sent);
      ContinueConsumed(s, sent);
      ContinueRest(s, sent);
    }
  }

  /** What a continue does to the queue and the records of frames. */
  lemma ContinueFields(s: System, sent: bool, more: seq<C.Item>)
    requires s.call.queue != [] && C.Running(C.HeadStatus(s.call))
    requires more == if s.call.consumer == s.call.producer && !sent then [C.Item(C.Error, C.SendFailed)] else []
    ensures var t := AfterContinue(s, sent);
            && t.pushed == s.pushed + more && t.plain == s.plain && t.call.queue == (s.call.queue + more)[1..]
            && t.call.consumer == s.call.consumer + 1 && t.sent == s.sent && t.arrived == s.arrived && t.up == s.up
            && t.cut == s.cut && t.freed == s.freed && t.call.timer == s.call.timer
            && t.call.timedout == s.call.timedout
  {
    assert s.call.queue + [] == s.call.queue && s.pushed + [] == s.pushed;
  }

  lemma ContinueConserved(s: System, sent: bool)
    requires Inv(s) && s.call.queue != [] && !s.freed && C.Running(C.HeadStatus(s.call))
    ensures Conserved(AfterContinue(s, sent))
  {
    hide AfterContinue, ConservedOk, Credits, Scripted, Consumed, Closed;
    var more := if s.call.consumer == s.call.producer && !sent then [C.Item(C.Error, C.SendFailed)] else [];
    ContinueFields(s, sent, more);
    PopConserved(s.pushed, s.plain, s.call.queue, s.call.consumer, s.sent, s.arrived, s.up, s.cut,
                 s.call.timer && s.call.timedout, more);
  }

  lemma ContinueConsumed(s: System, sent: bool)
    requires Inv(s) && s.call.queue != [] && !s.freed && C.Running(C.HeadStatus(s.call))
    ensures Consumed(AfterContinue(s, sent))
  {
    hide ConservedOk, ScriptedOk, ConsumedOk, ItemOf, Credits, Closed;
    PopConserved(s.pushed, s.plain, s.call.queue, s.call.consumer, s.sent, s.arrived, s.up, s.cut,
                 s.call.timer && s.call.timedout, []);
    PopConsumed(s.call.consumer, s.sent, s.consumed);
  }

  lemma ContinueRest(s: System, sent: bool)
    requires Inv(s) && s.call.queue != [] && C.Running(C.HeadStatus(s.call))
    ensures Closed(AfterContinue(s, sent)) && Scripted(AfterContinue(s, sent))
  {
    hide ConservedOk, ScriptedOk, Credits, Consumed;
    PlainBound(s);
  }

  lemma ContinueCredits(s: System, sent: bool)
    requires Inv(s) && s.call.queue != [] && C.Running(C.HeadStatus(s.call))
    ensures Credits(AfterContinue(s, sent))
  {
    hide ConservedOk, ScriptedOk, ConsumedOk;
    PlainBound(s);
    SumAppend(s.down, Grant(C.Grant(s.call)));
  }

  lemma PopConsumed(n: int, sent: seq<Frame>, consumed: seq<int>)
    requires ConsumedOk(n, sent, consumed) && 0 <= n < |sent| && C.Running(ItemOf(sent[n]).status)
    ensures var body := ItemOf(sent[n]).body;
            ConsumedOk(n + 1, sent, if body.Payload? then consumed + [body.id] else consumed)
  {
    assert sent[..n + 1][..n] == sent[..n];
  }

  lemma FragmentsLength(yielded: seq<int>)
    ensures |Fragments(yielded)| == |yielded|
  {
  }

  lemma FragmentsAppend(yielded: seq<int>, p: int)
    ensures Fragments(yielded + [p]) == Fragments(yielded) + [FragmentFrame(1 + |yielded|, p)]
  {
  }

  lemma Assoc(a: seq<Frame>, b: seq<Frame>, c: seq<Frame>)
    ensures a + b + c == a + (b + c)
  {
  }

  /** A request in its turn, of a call that is not aborted, produces the next frame of the script. */
  lemma ScriptGrows(s: System, r: Request, sent: bool)
    requires Scripted(s) && InTurn(s.phase, r) && !s.server.aborted
    ensures var t := AfterServe(s, r, sent);
            && Script(t.started, t.yielded, t.finished) == Script(s.started, s.yielded, s.finished) + Sent(s.server, r)
            && |Sent(s.server, r)| == 1
  {
    hide Fragments, Produced, Kept;
    FragmentsLength(s.yielded);
    match r
    case StartStream => FragmentsLength([]);
    case YieldFragment(p) =>
      FragmentsAppend(s.yielded, p);
      Assoc([StartFrame(0)], Fragments(s.yielded), [FragmentFrame(1 + |s.yielded|, p)]);
    case EndStream =>
  }

  /** So what is produced grows by what the request sends. */
  lemma ProducedGrows(s: System, r: Request, sent: bool)
    requires Scripted(s) && InTurn(s.phase, r)
    ensures var t := AfterServe(s, r, sent);
            Produced(t.started, t.yielded, t.finished, t.server.responded) ==
            Produced(s.started, s.yielded, s.finished, s.server.responded) + Sent(s.server, r)
    ensures |Sent(s.server, r)| <= 1
  {
    hide Script, Kept;
    if !s.server.aborted { ScriptGrows(s, r, sent); }
  }

  lemma ServeScripted(s: System, r: Request, sent: bool)
    requires Scripted(s) && InTurn(s.phase, r)
    ensures Scripted(AfterServe(s, r, sent))
  {
    hide Script, Produced, Kept;
    ProducedGrows(s, r, sent);
    var frames := Sent(s.server, r);
    if frames != [] {
      assert frames == [frames[0]];
      KeptOneMore(Produced(s.started, s.yielded, s.finished, s.server.responded), s.kept, frames[0], sent);
    }
    ServeFlags(s, r, sent);
  }

  lemma ServeFlags(s: System, r: Request, sent: bool)
    requires Scripted(s) && InTurn(s.phase, r)
    ensures var t := AfterServe(s, r, sent);
            && t.server.producer == |Script(t.started, t.yielded, t.finished)|
            && (!t.started ==> t.yielded == [] && !t.finished)
            && (t.server.responded ==> t.server.aborted && t.server.ended && !t.finished)
            && (!t.server.aborted ==> (t.phase == Fresh <==> !t.started) && (t.finished <==> t.phase == Finished) &&
                                      (t.server.ended <==> t.finished))
            && (t.finished ==> t.server.ended)
  {
    hide Script, Produced, Kept;
    if !s.server.aborted { ScriptGrows(s, r, sent); }
  }

  lemma SendConserved(
    pushed: seq<C.Item>, plain: nat, queue: seq<C.Item>, popped: int, sent: seq<Frame>, arrived: nat,
    up: seq<Frame>, cut: bool, freed: bool, dropping: bool, frames: seq<Frame>)
    requires ConservedOk(pushed, plain, queue, popped, sent, arrived, up, cut, freed, dropping)
    ensures ConservedOk(pushed, plain, queue, popped, sent + frames, arrived, if cut then up else up + frames,
                        cut, freed, dropping)
  {
    hide ItemOf;
    assert (sent + frames)[arrived..] == sent[arrived..] + frames;
  }

  lemma SendConsumed(popped: int, sent: seq<Frame>, consumed: seq<int>, frames: seq<Frame>)
    requires ConsumedOk(popped, sent, consumed)
    ensures ConsumedOk(popped, sent + frames, consumed)
  {
    assert (sent + frames)[..popped] == sent[..popped];
  }

  lemma ServeInv(s: System, r: Request, sent: bool)
    requires Inv(s) && InTurn(s.phase, r) && !Blocked(s.server)
    ensures Inv(AfterServe(s, r, sent))
  {
    hide Scripted, ConservedOk, ConsumedOk, Sent;
    ServeScripted(s, r, sent);
    RespondedEnded(s);
    SentFacts(s.server, r);
    SendConserved(s.pushed, s.plain, s.call.queue, s.call.consumer, s.sent, s.arrived, s.up, s.cut, s.freed,
                  s.call.timer && s.call.timedout, Sent(s.server, r));
    SendConsumed(s.call.consumer, s.sent, s.consumed, Sent(s.server, r));
  }

  lemma RespondedEnded(s: System)
    requires Inv(s)
    ensures s.server.responded ==> s.server.aborted && s.server.ended
  {
    hide Produced, Kept, Script;
  }

  lemma SentFacts(s: Server, r: Request)
    ensures s.aborted ==> (Sent(s, r) == [] <==> s.ended || (r.EndStream? && s.responded))
  {
  }

  lemma StepInv(s: System, step: Step)
    requires Inv(s) && Enabled(s, step)
    ensures Inv(Next(s, step))
  {
    hide Inv;
    match step
    case Serve(r, sent) => ServeInv(s, r, sent);
    case Deliver => DeliverInv(s);
    case Receive => ReceiveInv(s);
    case Continue(sent) => ContinueInv(s, sent);
    case Abort(sent) => AbortInv(s, sent);
    case Fire => FireInv(s);
    case CloseClient => CloseClientInv(s);
    case Cut => ClientSideInv(s, step);
    case SetPrefetch(_) => ClientSideInv(s, step);
    case Free => ClientSideInv(s, step);
    case _ => ServerSideInv(s, step);
  }

  lemma {:induction false} RunInv(s: System, steps: seq<Step>, t: System)
    requires Inv(s) && RunsTo(s, steps, t)
    ensures Inv(t)
    decreases |steps|
  {
    hide Inv, Next, Enabled;
    if steps != [] {
      StepInv(s, steps[0]);
      RunInv(Next(s, steps[0]), steps[1..], t);
    }
  }

  lemma RunsToSelf(s: System)
    ensures RunsTo(s, [], s)
  {
  }

  lemma RunsToCons(s: System, step: Step, rest: seq<Step>, t: System)
    requires Enabled(s, step) && RunsTo(Next(s, step), rest, t)
    ensures RunsTo(s, [step] + rest, t)
  {
    hide Enabled, Next;
    assert ([step] + rest)[1..] == rest;
  }

  lemma StartInv()
    ensures Inv(START)
  {
  }
}
