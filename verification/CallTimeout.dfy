/** The race between the timer of a call, its replies, its abort and the close of its connection. */
module CallTimeout {
  import opened ClientCall
  import opened Wrappers

  /** Everything that can happen to a registered call. */
  datatype Event =
    | Reply(item: Item)
    | Fragment(payload: Option<int>)
    | Fire
    | Abort(sent: bool)
    | Continue(sent: bool)
    | SetPrefetch(n: int)
    | Sweep

  /** `pushed`: every item the queue was ever given; `fired`: the timer ran, which it does once;
      `acted`: a reply, abort or sweep cancelled the timer; `swept`: rpc_close went over the call. */
  datatype State = State(call: Client, pushed: seq<Item>, fired: bool, acted: bool, swept: bool)

  const START := State(NEW_CALL, [], false, false, false)

  /** Replies carry no timeout. The timer runs at most once. A continue needs an item. */
  predicate Possible(s: State, e: Event) {
    match e
    case Reply(item) => item.status != InProgress && item != TIMEOUT_ITEM
    case Fire => !s.fired
    case Continue(_) => s.call.queue != []
    case _ => true
  }

  function Apply(c: Client, e: Event): Client
    requires e.Continue? ==> c.queue != []
  {
    match e
    case Reply(item) => Received(c, item)
    case Fragment(p) => FragmentReceived(c, p)
    case Fire => TimerFired(c)
    case Abort(sent) => AbortCalled(c, sent)
    case Continue(sent) => ContinueCalled(c, sent)
    case SetPrefetch(n) => c.(prefetch := n)
    case Sweep => Received(c, CLOSED_ITEM)
  }

  /** The items an event appended: the queue grows at its tail, and continue pops its head. */
  function Added(c: Client, d: Client, e: Event): seq<Item>
    requires e.Continue? ==> c.queue != []
  {
    var kept := if e.Continue? && Running(HeadStatus(c)) then |c.queue| - 1 else |c.queue|;
    if kept <= |d.queue| then d.queue[kept..] else []
  }

  function Next(s: State, e: Event): State
    requires Possible(s, e)
  {
    var d := Apply(s.call, e);
    State(d, s.pushed + Added(s.call, d, e), s.fired || e.Fire?, s.acted || (s.call.timer && !d.timer),
          s.swept || e.Sweep?)
  }

  ghost predicate RunsTo(s: State, events: seq<Event>, t: State)
    decreases |events|
  {
    if events == [] then t == s else Possible(s, events[0]) && RunsTo(Next(s, events[0]), events[1..], t)
  }

  predicate HasTerminal(queue: seq<Item>) {
    exists i :: 0 <= i < |queue| && !Running(queue[i].status)
  }

  /** The queue was given the error of a closed connection, or the timeout came first. */
  predicate Reported(pushed: seq<Item>) {
    CLOSED_ITEM in pushed || pushed == [TIMEOUT_ITEM]
  }

  ghost predicate Inv(s: State) {
    TimerInv(s) && (s.swept ==> HasTerminal(s.call.queue) && Reported(s.pushed))
  }

  /** A terminal item stays in the queue: only running heads are popped. */
  lemma TerminalStays(c: Client, e: Event)
    requires (e.Continue? ==> c.queue != []) && HasTerminal(c.queue)
    ensures HasTerminal(Apply(c, e).queue)
  {
    var (q, r) := (c.queue, Apply(c, e).queue);
    var i :| 0 <= i < |q| && !Running(q[i].status);
    if e.Continue? && Running(HeadStatus(c)) {
      assert r[i - 1] == q[i];
    } else {
      assert r[i] == q[i];
    }
  }

  lemma SweepTerminates(c: Client)
    requires c.timer && c.timedout ==> c.queue == [TIMEOUT_ITEM]
    ensures HasTerminal(Received(c, CLOSED_ITEM).queue)
    ensures var d := Received(c, CLOSED_ITEM);
            Added(c, d, Sweep) == if c.timer && c.timedout then [] else [CLOSED_ITEM]
  {
    var r := Received(c, CLOSED_ITEM).queue;
    assert !Running(r[|r| - 1].status);
  }

  lemma StartInv()
    ensures Inv(START)
  {
  }

  lemma StepInv(s: State, e: Event)
    requires Inv(s) && Possible(s, e)
    ensures Inv(Next(s, e))
  {
    hide HasTerminal;
    if s.swept { TerminalStays(s.call, e); ReportStays(s, e); }
    if e.Sweep? { SweepTerminates(s.call); }
    StepTimer(s, e);
  }

  lemma ReportStays(s: State, e: Event)
    requires TimerInv(s) && Possible(s, e) && Reported(s.pushed)
    ensures Reported(Next(s, e).pushed)
  {
    hide Apply, Added;
    if CLOSED_ITEM !in s.pushed { StepTimedOut(s.call, e); }
  }

  /** The part of the invariant that is about the timer. */
  ghost predicate TimerInv(s: State) {
    && (s.call.timer ==> !s.acted && s.call.timedout == s.fired)
    && (s.call.timer && !s.fired ==> s.pushed == [] && s.call.queue == [])
    && (s.call.timer && s.fired ==> s.pushed == [TIMEOUT_ITEM] && s.call.queue == [TIMEOUT_ITEM])
    && (!s.call.timer ==> s.acted && TIMEOUT_ITEM !in s.pushed)
  }

  lemma StepTimer(s: State, e: Event)
    requires TimerInv(s) && Possible(s, e)
    ensures TimerInv(Next(s, e))
  {
    hide Apply, Added;
    if !s.call.timer {
      StepCancelled(s.call, e);
    } else if s.fired {
      StepTimedOut(s.call, e);
    } else {
      StepWaiting(s.call, e);
    }
  }

  /** Once the timer has fired, nothing changes the queue. */
  lemma StepTimedOut(c: Client, e: Event)
    requires c.timer && c.timedout && c.queue == [TIMEOUT_ITEM] && !e.Fire?
    ensures var d := Apply(c, e); d.timer && d.timedout && d.queue == c.queue && Added(c, d, e) == []
  {
  }

  /** While the timer waits, the first item goes with cancelling it, unless the timer brings it. */
  lemma StepWaiting(c: Client, e: Event)
    requires c.timer && !c.timedout && c.queue == [] && !e.Continue? && (e.Reply? ==> e.item != TIMEOUT_ITEM)
    ensures var d := Apply(c, e);
            && Added(c, d, e) == d.queue
            && (if e.Fire? then d.timer && d.timedout && d.queue == [TIMEOUT_ITEM]
                else !d.timedout && (if d.timer then d.queue == [] else TIMEOUT_ITEM !in d.queue))
  {
  }

  /** Without the timer, no event brings the timeout error. */
  lemma StepCancelled(c: Client, e: Event)
    requires !c.timer && (e.Continue? ==> c.queue != []) && (e.Reply? ==> e.item != TIMEOUT_ITEM)
    ensures !Apply(c, e).timer && TIMEOUT_ITEM !in Added(c, Apply(c, e), e)
  {
  }

  lemma {:induction false} RunInv(s: State, events: seq<Event>, t: State)
    requires Inv(s) && RunsTo(s, events, t)
    ensures Inv(t)
    decreases |events|
  {
    if events != [] {
      StepInv(s, events[0]);
      RunInv(Next(s, events[0]), events[1..], t);
    }
  }

  /** If the timeout error is ever enqueued, it is the only item the queue is ever given, and it stays;
      if something cancelled the timer first, it is never enqueued. */
  lemma TimeoutIsAlone(events: seq<Event>, t: State)
    requires RunsTo(START, events, t)
    ensures TIMEOUT_ITEM in t.pushed ==> t.pushed == [TIMEOUT_ITEM] && t.call.queue == [TIMEOUT_ITEM]
    ensures t.acted ==> TIMEOUT_ITEM !in t.pushed
    ensures t.fired && !t.acted ==> t.pushed == [TIMEOUT_ITEM]
  {
    RunInv(START, events, t);
  }

  /** A fragment frame without a payload queues nothing, but the timer can no longer fire. */
  lemma EmptyFragmentCancels(c: Client)
    requires !(c.timer && c.timedout)
    ensures var d := FragmentReceived(c, None); d.queue == c.queue && TimerFired(d).queue == c.queue
    ensures forall p :: FragmentReceived(c, Some(p)).queue == c.queue + [Item(MoreAvailable, Payload(p))]
  {
  }

  /** A terminal head stays the head, whatever happens. */
  lemma {:induction false} TerminalHeadStays(s: State, events: seq<Event>, t: State)
    requires RunsTo(s, events, t) && s.call.queue != [] && !Running(s.call.queue[0].status)
    ensures t.call.queue != [] && t.call.queue[0] == s.call.queue[0]
    decreases |events|
  {
    if events != [] {
      TerminalHeadStays(Next(s, events[0]), events[1..], t);
    }
  }

  /** The outbound calls of a connection; `early` are those registered before rpc_close. */
  datatype Table = Table(calls: map<int, State>, early: set<int>, closed: bool)

  datatype TableEvent = Register(id: int) | At(id: int, event: Event) | Close

  predicate TablePossible(t: Table, e: TableEvent) {
    match e
    case Register(id) => id !in t.calls
    case At(id, event) => id in t.calls && !event.Sweep? && Possible(t.calls[id], event)
    case Close => !t.closed
  }

  /** rpc_connection_call, an event at a call, and rpc_close, which sweeps the registered calls. */
  function TableNext(t: Table, e: TableEvent): Table
    requires TablePossible(t, e)
  {
    match e
    case Register(id) => t.(calls := t.calls[id := START], early := if t.closed then t.early else t.early + {id})
    case At(id, event) => t.(calls := t.calls[id := Next(t.calls[id], event)])
    case Close => t.(calls := map id | id in t.calls :: Next(t.calls[id], Sweep), closed := true)
  }

  ghost predicate TableRuns(s: Table, events: seq<TableEvent>, t: Table)
    decreases |events|
  {
    if events == [] then t == s else TablePossible(s, events[0]) && TableRuns(TableNext(s, events[0]), events[1..], t)
  }

  ghost predicate TableInv(t: Table) {
    && t.early <= t.calls.Keys
    && (!t.closed ==> t.early == t.calls.Keys)
    && forall id :: id in t.calls ==> Inv(t.calls[id]) && (t.closed && id in t.early ==> t.calls[id].swept)
  }

  lemma {:induction false} TableRunInv(s: Table, events: seq<TableEvent>, t: Table)
    requires TableInv(s) && TableRuns(s, events, t)
    ensures TableInv(t)
    decreases |events|
  {
    hide Inv, Next;
    if events != [] {
      TableStepInv(s, events[0]);
      TableRunInv(TableNext(s, events[0]), events[1..], t);
    }
  }

  lemma TableStepInv(s: Table, e: TableEvent)
    requires TableInv(s) && TablePossible(s, e)
    ensures TableInv(TableNext(s, e))
  {
    hide TimerInv, Apply, Added;
    match e
    case Register(id) => StartInv();
    case At(id, event) => StepInv(s.calls[id], event);
    case Close => forall id | id in s.calls ensures Inv(Next(s.calls[id], Sweep)) { StepInv(s.calls[id], Sweep); }
  }

  /** After rpc_close, every call registered before it has a non-empty queue, then and ever after, and was told
      that the connection is closed, unless it had timed out. */
  lemma ClosedCallsReport(events: seq<TableEvent>, t: Table, id: int)
    requires TableRuns(Table(map[], {}, false), events, t) && t.closed && id in t.early
    ensures id in t.calls && t.calls[id].call.queue != []
    ensures CLOSED_ITEM in t.calls[id].pushed || t.calls[id].pushed == [TIMEOUT_ITEM]
  {
    StartInv();
    TableRunInv(Table(map[], {}, false), events, t);
  }

  /** A call that passed the check for an open connection but was registered after the sweep is not
      told: its queue may be empty. */
  lemma LateCallIsNotTold()
    ensures var t := Table(map[7 := START], {}, true);
            TableRuns(Table(map[], {}, false), [Close, Register(7)], t) && t.calls[7].call.queue == []
  {
    var s := Table(map[], {}, false);
    var events := [Close, Register(7)];
    var s1 := TableNext(s, Close);
    assert s1 == Table(map[], {}, true);
    assert events[1..] == [Register(7)] && events[1..][1..] == [];
    assert TableRuns(TableNext(s1, Register(7)), [], TableNext(s1, Register(7)));
  }

  /** The loop of rpc_close over the table of outbound calls. */
  method SweepCalls(calls: seq<Call>)
    requires forall i, j :: 0 <= i < j < |calls| ==> calls[i] != calls[j]
    modifies calls
    ensures forall i :: 0 <= i < |calls| ==> calls[i].View() == Received(old(calls[i].View()), CLOSED_ITEM)
  {
    for k := 0 to |calls|
      invariant forall i :: 0 <= i < k ==> calls[i].View() == Received(old(calls[i].View()), CLOSED_ITEM)
      invariant forall i :: k <= i < |calls| ==> calls[i].View() == old(calls[i].View())
    {
      calls[k].Receive(CLOSED_ITEM);
    }
  }
}
