/** What stays open: a connection lives until somebody closes it, and a server admits until it is closed. */
module ConnectionOpen {
  import C = Connection
  import opened ServerLife

  /** Steps that no agent takes: they leave the flags and the two references alone. */
  predicate Aside(step: C.Step) {
    step.Hold? || step.LetGo? || step.AllocCall? || step.Register? || step.Unregister? || step.ReleaseCall?
  }

  /** What such a step leaves alone. */
  ghost predicate Alike(c: C.Conn, d: C.Conn) {
    && d.user == c.user && d.loop == c.loop && d.transport == c.transport
    && d.closed == c.closed && d.aborted == c.aborted && d.released == c.released
    && d.listed == c.listed && d.listRef == c.listRef && d.initial == c.initial && d.initialDrops == c.initialDrops
    && d.ofServer == c.ofServer && d.admitted == c.admitted
  }

  lemma AsideKeeps(c: C.Conn, down: bool, step: C.Step)
    requires Aside(step) && C.Enabled(c, down, step)
    ensures Alike(c, C.Next(c, down, step))
    ensures Shut(c) ==> C.Next(c, down, step).callRefs <= c.callRefs
  {
    match step
    case Hold =>
    case LetGo =>
    case AllocCall =>
    case Register =>
    case Unregister =>
    case ReleaseCall =>
  }

  /** The agent of any other step. */
  function Actor(step: C.Step): C.Agent {
    match step
    case Close(a) => a
    case Retain(a) => a
    case LeaveAbort(a) => a
    case Disconnect(a) => a
    case DropList(a) => a
    case DropInitial(a) => a
    case LoopRelease => C.Loop
    case _ => C.Transport
  }

  /** It has begun, and the other agents stay where they are. */
  ghost predicate Begun(c: C.Conn, d: C.Conn, a: C.Agent) {
    && (if a.User? then d.user != C.NotYet else d.user == c.user)
    && (if a.Loop? then d.loop != C.NotYet else d.loop == c.loop)
    && (if a.Transport? then d.transport != C.NotYet else d.transport == c.transport)
    && d.callRefs == c.callRefs && (c.closed ==> d.closed) && (c.aborted ==> d.aborted)
    && d.ofServer == c.ofServer && d.admitted == c.admitted && (!c.listed ==> !d.listed)
  }

  lemma ActorBegins(c: C.Conn, down: bool, step: C.Step)
    requires !Aside(step) && C.Enabled(c, down, step)
    ensures Begun(c, C.Next(c, down, step), Actor(step))
  {
    hide C.Next, C.Enabled;
    match step
    case Close(a) => CloseBegins(c, down, a);
    case Proceed => ProceedBegins(c, down);
    case DropList(a) => DropBegins(c, down, a);
    case DropInitial(a) => DropBegins(c, down, a);
    case Retain(a) => RetainBegins(c, down, a);
    case LeaveAbort(a) => LeaveBegins(c, down, a);
    case Disconnect(a) => DisconnectBegins(c, down, a);
    case _ => RestBegins(c, down, step);
  }

  lemma DropBegins(c: C.Conn, down: bool, a: C.Agent)
    ensures C.Enabled(c, down, C.DropList(a)) ==> Begun(c, C.Next(c, down, C.DropList(a)), a)
    ensures C.Enabled(c, down, C.DropInitial(a)) ==> Begun(c, C.Next(c, down, C.DropInitial(a)), a)
  {
    hide C.DroppedList, C.DroppedInitial;
    ListDropped(c, a);
    InitialDropped(c, a);
  }

  lemma ListDropped(c: C.Conn, a: C.Agent)
    ensures Begun(c, C.DroppedList(c, a), a)
  {
  }

  lemma InitialDropped(c: C.Conn, a: C.Agent)
    ensures Begun(c, C.DroppedInitial(c, a), a)
  {
  }

  lemma RetainBegins(c: C.Conn, down: bool, a: C.Agent)
    requires C.Enabled(c, down, C.Retain(a))
    ensures Begun(c, C.Next(c, down, C.Retain(a)), a)
  {
    hide C.DoClose;
  }

  lemma LeaveBegins(c: C.Conn, down: bool, a: C.Agent)
    requires C.Enabled(c, down, C.LeaveAbort(a))
    ensures Begun(c, C.Next(c, down, C.LeaveAbort(a)), a)
  {
    hide C.DoClose;
  }

  lemma DisconnectBegins(c: C.Conn, down: bool, a: C.Agent)
    requires C.Enabled(c, down, C.Disconnect(a))
    ensures Begun(c, C.Next(c, down, C.Disconnect(a)), a)
  {
    hide C.Disconnected;
    Disconnecting(c, down, a);
  }

  lemma Disconnecting(c: C.Conn, down: bool, a: C.Agent)
    ensures Begun(c, C.Disconnected(c, down, a), a)
  {
  }

  lemma RestBegins(c: C.Conn, down: bool, step: C.Step)
    requires C.Enabled(c, down, step) && (step.Enter? || step.DropHold? || step.LoopRelease?)
    ensures Begun(c, C.Next(c, down, step), Actor(step))
  {
    hide C.DoClose;
    match step
    case Enter =>
    case DropHold =>
    case LoopRelease =>
  }

  lemma CloseBegins(c: C.Conn, down: bool, a: C.Agent)
    requires C.Enabled(c, down, C.Close(a))
    ensures Begun(c, C.Next(c, down, C.Close(a)), a)
  {
    hide C.DoClose;
    Closing(c, a);
  }

  lemma ProceedBegins(c: C.Conn, down: bool)
    requires C.Enabled(c, down, C.Proceed)
    ensures Begun(c, C.Next(c, down, C.Proceed), C.Transport)
  {
    hide C.DoClose;
    Closing(c, C.Transport);
  }

  lemma Closing(c: C.Conn, a: C.Agent)
    ensures Begun(c, C.DoClose(c, a), a)
  {
  }

  /** Closed, aborted or released: no call is made any more. */
  predicate Shut(c: C.Conn) {
    c.closed || c.aborted || c.released
  }

  /** A client's connection that its user has not closed, whether its peer is there or not. */
  ghost predicate ClientOpen(c: C.Conn) {
    && !c.ofServer && c.admitted && !c.listed && c.loop == C.NotYet
    && (c.user == C.NotYet ==>
          && !c.closed && !c.released && c.initial && c.initialDrops == 0
          && c.transport in {C.NotYet, C.Entered, C.ToDropHold, C.Over})
  }

  lemma ClientStep(c: C.Conn, down: bool, step: C.Step)
    requires ClientOpen(c) && C.Enabled(c, down, step)
    ensures ClientOpen(C.Next(c, down, step))
  {
    hide C.Next, C.Enabled;
    if Aside(step) {
      AsideKeeps(c, down, step);
    } else {
      ClientActor(c, down, step);
      ActorBegins(c, down, step);
      if c.user == C.NotYet && Actor(step) == C.Transport { PeerLeaves(c, down, step); }
    }
  }

  /** No loop closes a client's connection, and until the user does, the transport only leaves. */
  lemma ClientActor(c: C.Conn, down: bool, step: C.Step)
    requires ClientOpen(c) && C.Enabled(c, down, step) && !Aside(step)
    ensures Actor(step) != C.Loop
    ensures c.user == C.NotYet && Actor(step) == C.Transport ==> step.Enter? || step.Proceed? || step.DropHold?
  {
  }

  lemma PeerLeaves(c: C.Conn, down: bool, step: C.Step)
    requires ClientOpen(c) && c.user == C.NotYet && C.Enabled(c, down, step)
    requires step.Enter? || step.Proceed? || step.DropHold?
    ensures ClientOpen(C.Next(c, down, step))
  {
    hide C.DoClose, C.At;
  }

  /** In every run of a client's connection: until its user closes it, it is neither closed nor released, and it is
      not freed, even if the peer has gone. */
  lemma {:induction false} ClientRun(c: C.Conn, down: bool, steps: seq<C.Step>, d: C.Conn)
    requires C.Inv(c, down) && ClientOpen(c) && C.RunsTo(c, down, steps, d)
    ensures C.Inv(d, down) && ClientOpen(d)
    decreases |steps|
  {
    hide C.Inv, ClientOpen, C.Next, C.Enabled;
    if steps != [] {
      C.StepInv(c, down, steps[0]);
      ClientStep(c, down, steps[0]);
      ClientRun(C.Next(c, down, steps[0]), down, steps[1..], d);
    }
  }

  lemma ClientKeepsConnection(careful: bool, down: bool, steps: seq<C.Step>, d: C.Conn)
    requires C.RunsTo(C.Connected(careful), down, steps, d) && d.user == C.NotYet
    ensures !d.closed && !d.released && d.initial && d.initialDrops == 0 && d.refcnt > 0
  {
    hide C.Next, C.Enabled;
    ConnectedInv(careful, down);
    ClientRun(C.Connected(careful), down, steps, d);
    Alive(d, down);
  }

  lemma ConnectedInv(careful: bool, down: bool)
    ensures C.Inv(C.Connected(careful), down) && ClientOpen(C.Connected(careful))
  {
  }

  lemma Alive(c: C.Conn, down: bool)
    requires C.Inv(c, down) && c.initial
    ensures c.refcnt > 0
  {
  }

  /** A server's connection that nobody has begun to close is open, listed, and holds both references. */
  ghost predicate ServerOpen(c: C.Conn) {
    c.admitted && c.ofServer &&
    (c.user == C.NotYet && c.loop == C.NotYet && c.transport == C.NotYet ==>
       !c.closed && !c.aborted && !c.released && c.listed && c.listRef && c.initial)
  }

  lemma ServerStep(c: C.Conn, down: bool, step: C.Step)
    requires ServerOpen(c) && C.Enabled(c, down, step)
    ensures ServerOpen(C.Next(c, down, step))
  {
    hide C.Next, C.Enabled;
    if Aside(step) { AsideKeeps(c, down, step); } else { ActorBegins(c, down, step); }
  }

  lemma {:induction false} ServerRun(c: C.Conn, down: bool, steps: seq<C.Step>, d: C.Conn)
    requires C.Inv(c, down) && ServerOpen(c) && C.RunsTo(c, down, steps, d)
    ensures C.Inv(d, down) && ServerOpen(d)
    decreases |steps|
  {
    hide C.Inv, ServerOpen, C.Next, C.Enabled;
    if steps != [] {
      C.StepInv(c, down, steps[0]);
      ServerStep(c, down, steps[0]);
      ServerRun(C.Next(c, down, steps[0]), down, steps[1..], d);
    }
  }

  lemma ServerKeepsConnection(careful: bool, down: bool, steps: seq<C.Step>, d: C.Conn)
    requires C.RunsTo(C.Accepted(careful), down, steps, d)
    requires d.user == C.NotYet && d.loop == C.NotYet && d.transport == C.NotYet
    ensures !d.closed && !d.aborted && !d.released && d.listed && d.initial && d.refcnt >= 2
  {
    hide C.Next, C.Enabled;
    AcceptedInv(careful, down);
    ServerRun(C.Accepted(careful), down, steps, d);
    TwoReferences(d, down);
  }

  lemma AcceptedInv(careful: bool, down: bool)
    ensures C.Inv(C.Accepted(careful), down) && ServerOpen(C.Accepted(careful))
  {
    hide C.Counted, C.Agents, C.InitialOwed, C.ListOwed;
    AcceptedAgents(careful, down);
    AcceptedOwes(C.Accepted(careful), down);
  }

  lemma AcceptedAgents(careful: bool, down: bool)
    ensures C.Counted(C.Accepted(careful)) && C.Agents(C.Accepted(careful), down)
  {
  }

  lemma AcceptedOwes(c: C.Conn, down: bool)
    requires c == C.Accepted(c.careful)
    ensures C.InitialOwed(c, down) && C.ListOwed(c, down)
  {
    hide C.InitialOwed, C.ListOwed;
    AcceptedOwesInitial(c, down);
    AcceptedOwesList(c, down);
  }

  lemma AcceptedOwesInitial(c: C.Conn, down: bool)
    requires c == C.Accepted(c.careful)
    ensures C.InitialOwed(c, down)
  {
    assert !C.Dropping(c.user) && !C.Dropping(c.loop) && !C.Dropping(c.transport);
    hide C.Dropping;
  }

  lemma AcceptedOwesList(c: C.Conn, down: bool)
    requires c == C.Accepted(c.careful)
    ensures C.ListOwed(c, down)
  {
  }

  lemma TwoReferences(c: C.Conn, down: bool)
    requires C.Inv(c, down) && c.initial && c.listRef
    ensures c.refcnt >= 2
  {
  }

  lemma ShutStep(c: C.Conn, down: bool, step: C.Step)
    requires C.Enabled(c, down, step)
    ensures var d := C.Next(c, down, step);
            && (Shut(c) ==> Shut(d) && d.callRefs <= c.callRefs)
            && (c.aborted ==> d.aborted) && (c.closed ==> d.closed)
  {
    hide C.Next, C.Enabled;
    if Aside(step) { AsideKeeps(c, down, step); } else { ActorBegins(c, down, step); }
  }

  lemma {:induction false} NoNewCalls(c: C.Conn, down: bool, steps: seq<C.Step>, d: C.Conn)
    requires Shut(c) && C.RunsTo(c, down, steps, d)
    ensures Shut(d) && d.callRefs <= c.callRefs && (c.aborted ==> d.aborted) && (c.closed ==> d.closed)
    decreases |steps|
  {
    hide C.Next, C.Enabled, Shut;
    if steps != [] {
      ShutStep(c, down, steps[0]);
      NoNewCalls(C.Next(c, down, steps[0]), down, steps[1..], d);
    }
  }

  /** Who began to close has closed or aborted it: a close by the user or by the loop sets the closed flag, one by the
      transport the aborted flag, and a close that has returned, with the transport done, has released it. */
  lemma CloseTakesEffect(c: C.Conn, down: bool)
    requires C.Inv(c, down) && c.admitted
    ensures c.user != C.NotYet || c.loop != C.NotYet ==> c.closed
    ensures c.transport != C.NotYet ==> c.aborted && (c.ofServer ==> c.closed)
    ensures c.closed && c.transport == C.Over ==> c.released
  {
  }

  // ---- The server ----

  /** Accepting: an open server admits and lists the connection, a closed one refuses it. */
  lemma AcceptMeans(s: System, id: int)
    requires Possible(s, Accept(id))
    ensures var t := Next(s, Accept(id));
            && id in t.conns && t.conns[id].ofServer
            && (t.conns[id].admitted <==> !s.server.closed) && (t.conns[id].listed <==> !s.server.closed)
            && t.server.made == s.server.made + (if s.server.closed then 0 else 1)
            && t.server.refused == s.server.refused + (if s.server.closed then 1 else 0)
            && t.server.refcnt == s.server.refcnt + (if s.server.closed then 0 else 1)
            && forall i :: i in s.conns ==> i in t.conns && t.conns[i] == s.conns[i]
  {
  }

  lemma ClosedStep(s: System, e: Event)
    requires s.server.closed && Possible(s, e)
    ensures var t := Next(s, e);
            && t.server.closed && t.server.made == s.server.made && s.conns.Keys <= t.conns.Keys
            && (forall i :: i in t.conns && i !in s.conns ==> !t.conns[i].admitted)
            && (forall i :: i in s.conns ==> t.conns[i].admitted == s.conns[i].admitted)
  {
    if e.At? {
      ClosedAt(s, e.id, e.step);
    } else {
      hide C.Next, C.Enabled;
    }
  }

  lemma ClosedAt(s: System, id: int, step: C.Step)
    requires s.server.closed && Possible(s, At(id, step))
    ensures var t := Next(s, At(id, step));
            && t.server.closed && t.server.made == s.server.made && t.conns.Keys == s.conns.Keys
            && forall i :: i in s.conns ==> t.conns[i].admitted == s.conns[i].admitted
  {
    hide C.Next, C.Enabled, UsesServer, C.Asserted;
  }

  /** A closed server stays closed and admits nothing any more, in every run. */
  lemma {:induction false} ClosedServerRefuses(s: System, events: seq<Event>, t: System)
    requires s.server.closed && RunsTo(s, events, t)
    ensures t.server.closed && t.server.made == s.server.made && s.conns.Keys <= t.conns.Keys
    ensures forall i :: i in t.conns && i !in s.conns ==> !t.conns[i].admitted
    ensures forall i :: i in s.conns ==> t.conns[i].admitted == s.conns[i].admitted
    decreases |events|
  {
    hide Next, Possible;
    if events != [] {
      ClosedStep(s, events[0]);
      ClosedServerRefuses(Next(s, events[0]), events[1..], t);
    }
  }
}
