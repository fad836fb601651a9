/** The life of one connection: flag bits, reference count, call tables, and the agents that may close
    it at the same time. */
module Connection {

  /** Who may be closing a connection: its user, the loop of rpc_server_close, and the transport, which
      runs rpc_close when the peer goes away or when it is aborted. */
  datatype Agent = User | Loop | Transport

  /** What an agent does next. `ToRetain`: it has taken the transport's abort function and let go of the
      lock. `Aborting`: inside that function, with a reference of its own. `Entered`: in rpc_close after it set
      the aborted flag, with a reference of its own. The rest are the remaining actions of
      rpc_connection_do_close, of rpc_close and of the loop. */
  datatype Pc =
    | NotYet | ToRetain | Aborting | Entered | ToDisconnect | ToDropList | ToDropInitial | ToDropHold
    | ToLoopRelease | Over

  /** `ofServer`: accepted or refused by a server, as opposed to made by a client. `admitted`: not refused.
      `careful`: its user closes it only while holding a reference of its own, `userRef`, until the close has
      returned. `initial` and `listRef`: the initial reference and that of the server's list are still held;
      `listed`: still in the list. `registered`: calls in the two tables; `callRefs`: calls that hold the
      connection. The last two fields count how often the two references were dropped. */
  datatype Conn = Conn(
    ofServer: bool, admitted: bool, careful: bool,
    closed: bool, aborted: bool, released: bool, hasAbort: bool,
    refcnt: int, initial: bool, listed: bool, listRef: bool, userRef: bool,
    registered: nat, callRefs: nat,
    user: Pc, loop: Pc, transport: Pc,
    initialDrops: nat, listDrops: nat)

  /** A connection that a server accepts, one that it refuses, and one that a client makes. */
  function Accepted(careful: bool): Conn {
    Conn(true, true, careful, false, false, false, true, 2, true, true, true, false, 0, 0,
         NotYet, NotYet, NotYet, 0, 0)
  }

  function Refused(careful: bool): Conn {
    Conn(true, false, careful, false, false, true, true, 1, true, false, false, false, 0, 0,
         NotYet, NotYet, NotYet, 0, 0)
  }

  function Connected(careful: bool): Conn {
    Conn(false, true, careful, false, false, false, true, 1, true, false, false, false, 0, 0,
         NotYet, NotYet, NotYet, 0, 0)
  }

  function PcOf(c: Conn, a: Agent): Pc {
    match a
    case User => c.user
    case Loop => c.loop
    case Transport => c.transport
  }

  function At(c: Conn, a: Agent, pc: Pc): Conn {
    c.(user := if a.User? then pc else c.user,
       loop := if a.Loop? then pc else c.loop,
       transport := if a.Transport? then pc else c.transport)
  }

  /** What an agent does when rpc_connection_do_close has returned. */
  function Return(a: Agent): Pc {
    match a
    case User => Over
    case Loop => ToLoopRelease
    case Transport => ToDropHold
  }

  /** The locked part of rpc_connection_do_close: the abort function is taken if there is one and the connection
      is not aborted; else nothing happens to one that is released, or to a client's that is not closed; else it
      becomes released. */
  function DoClose(c: Conn, a: Agent): Conn {
    var closed := c.closed || !a.Transport?;
    var takes := c.hasAbort && !c.aborted;
    var stops := !takes && (c.released || (!c.ofServer && !closed));
    At(c.(closed := closed, hasAbort := c.hasAbort && !takes, released := c.released || (!takes && !stops)), a,
       if takes then ToRetain else if stops then Return(a) else if c.ofServer then ToDisconnect else ToDropInitial)
  }

  datatype Step =
    | Hold | LetGo
    | Close(a: Agent)
    | Retain(a: Agent)
    | LeaveAbort(a: Agent)
    | Enter
    | Proceed
    | Disconnect(a: Agent)
    | DropList(a: Agent)
    | DropInitial(a: Agent)
    | DropHold
    | LoopRelease
    | AllocCall
    | Register
    | Unregister
    | ReleaseCall

  /** `down`: the server is closed. The user closes at most once, a connection that is valid then; the loop
      closes what is in the list; an abort returns only after the transport has entered rpc_close. What an agent
      has begun it goes on with, whether the connection is still valid or not. */
  predicate Enabled(c: Conn, down: bool, step: Step) {
    match step
    case Hold => c.refcnt > 0 && !c.userRef
    case LetGo => c.userRef && (c.user == NotYet || c.user == Over)
    case Close(a) =>
      || (a.User? && c.user == NotYet && c.refcnt > 0 && (c.careful ==> c.userRef))
      || (a.Loop? && c.loop == NotYet && down && c.listed)
    case Retain(a) => PcOf(c, a) == ToRetain
    case LeaveAbort(a) => PcOf(c, a) == Aborting && c.aborted
    case Enter => c.transport == NotYet && c.refcnt > 0
    case Proceed => c.transport == Entered
    case Disconnect(a) => PcOf(c, a) == ToDisconnect
    case DropList(a) => PcOf(c, a) == ToDropList
    case DropInitial(a) => PcOf(c, a) == ToDropInitial
    case DropHold => c.transport == ToDropHold
    case LoopRelease => c.loop == ToLoopRelease
    case AllocCall => c.refcnt > 0 && !c.closed && !c.aborted && !c.released
    case Register => c.registered < c.callRefs
    case Unregister => c.registered > 0
    case ReleaseCall => c.registered < c.callRefs
  }

  function Proceeded(c: Conn): Conn {
    if c.closed then DoClose(c, Transport) else c.(transport := ToDropHold)
  }

  function Disconnected(c: Conn, down: bool, a: Agent): Conn {
    At(c, a, if down then ToDropInitial else ToDropList).(listed := c.listed && down)
  }

  function DroppedList(c: Conn, a: Agent): Conn {
    At(c, a, ToDropInitial).(refcnt := c.refcnt - 1, listRef := false, listDrops := c.listDrops + 1)
  }

  function DroppedInitial(c: Conn, a: Agent): Conn {
    At(c, a, Return(a)).(refcnt := c.refcnt - 1, initial := false, initialDrops := c.initialDrops + 1)
  }

  function Next(c: Conn, down: bool, step: Step): (d: Conn)
    requires Enabled(c, down, step)
    ensures d.admitted == c.admitted && d.ofServer == c.ofServer && d.careful == c.careful
    ensures c.released ==> d.released
  {
    match step
    case Hold => c.(refcnt := c.refcnt + 1, userRef := true)
    case LetGo => c.(refcnt := c.refcnt - 1, userRef := false)
    case Close(a) => DoClose(c, a)
    case Retain(a) => At(c, a, Aborting).(refcnt := c.refcnt + 1)
    case LeaveAbort(a) => At(c, a, Return(a)).(refcnt := c.refcnt - 1)
    case Enter => c.(aborted := true, closed := c.closed || c.ofServer, refcnt := c.refcnt + 1, transport := Entered)
    case Proceed => Proceeded(c)
    case Disconnect(a) => Disconnected(c, down, a)
    case DropList(a) => DroppedList(c, a)
    case DropInitial(a) => DroppedInitial(c, a)
    case DropHold => c.(refcnt := c.refcnt - 1, transport := Over)
    case LoopRelease =>
      c.(refcnt := c.refcnt - 1, listRef := false, listed := false, loop := Over, listDrops := c.listDrops + 1)
    case AllocCall => c.(refcnt := c.refcnt + 1, callRefs := c.callRefs + 1)
    case Register => c.(registered := c.registered + 1)
    case Unregister => c.(registered := c.registered - 1)
    case ReleaseCall => c.(refcnt := c.refcnt - 1, callRefs := c.callRefs - 1)
  }

  /** The assertions of the source, and that no step touches a freed connection: a retain and a release find
      the count positive; a disconnect finds the connection aborted; a connection is freed closed and with empty
      call tables. */
  predicate Asserted(c: Conn, down: bool, step: Step)
    requires Enabled(c, down, step)
  {
    && c.refcnt > 0
    && (step.Disconnect? && !down ==> c.aborted)
    && (Next(c, down, step).refcnt == 0 ==> Next(c, down, step).closed && Next(c, down, step).registered == 0)
  }

  function One(b: bool): int {
    if b then 1 else 0
  }

  function Holds(a: Agent, pc: Pc): int {
    One(if a.Transport? then pc != NotYet && pc != Over else pc == Aborting)
  }

  predicate Dropping(pc: Pc) {
    pc == ToDisconnect || pc == ToDropList || pc == ToDropInitial
  }

  /** The count is what the holders hold. */
  ghost predicate Counted(c: Conn) {
    && c.refcnt == One(c.initial) + One(c.listRef) + One(c.userRef) + c.callRefs +
                   Holds(User, c.user) + Holds(Loop, c.loop) + Holds(Transport, c.transport)
    && c.registered <= c.callRefs
  }

  /** In or on the way into the abort function. */
  predicate Taking(pc: Pc) {
    pc == ToRetain || pc == Aborting
  }

  /** Which agents there are in which state of the flags. */
  ghost predicate Agents(c: Conn, down: bool) {
    && (c.transport == NotYet <==> !c.aborted)
    && !Taking(c.transport) && c.transport != ToLoopRelease
    && c.user != Entered && c.user != ToDropHold && c.user != ToLoopRelease
    && c.loop != Entered && c.loop != ToDropHold && c.loop != ToDropList
    && (c.loop != NotYet ==> down)
    && (c.loop != NotYet && c.loop != Over ==> c.listed)
    && (c.careful && c.user != NotYet && c.user != Over ==> c.userRef)
    && (!c.hasAbort ==> c.user != NotYet || c.loop != NotYet)
    && (c.hasAbort ==> !Taking(c.user) && !Taking(c.loop))
    && (!c.hasAbort && !c.aborted ==> Taking(c.user) || Taking(c.loop))
    && (c.admitted && c.released && !c.aborted ==> !c.hasAbort)
    && (c.admitted && c.closed && (c.transport == ToDropHold || c.transport == Over) ==> c.released)
    && (c.user != NotYet || c.loop != NotYet || (c.aborted && c.ofServer) ==> c.closed)
  }

  /** The initial reference goes with the released flag: one agent then has it to drop. */
  ghost predicate InitialOwed(c: Conn, down: bool) {
    && One(Dropping(c.user)) + One(Dropping(c.loop)) + One(Dropping(c.transport)) ==
         One(c.admitted && c.released && c.initial)
    && (!c.released ==> c.initial && c.admitted) && (!c.admitted ==> c.initial)
    && (c.admitted && c.released ==> c.closed)
    && (c.user == ToDisconnect || c.loop == ToDisconnect || c.transport == ToDisconnect ==>
          c.ofServer && (c.aborted || down))
    && c.initialDrops == One(!c.initial)
  }

  /** The list reference is dropped by the one that took the connection off the list, or by the loop. */
  ghost predicate ListOwed(c: Conn, down: bool) {
    && (c.listed ==> c.listRef && c.ofServer && c.admitted && c.loop != Over)
    && (c.listed && c.released && !down ==> c.user == ToDisconnect || c.transport == ToDisconnect)
    && (c.listRef && !c.listed ==> c.user == ToDropList || c.transport == ToDropList)
    && (c.user == ToDropList || c.transport == ToDropList ==> c.listRef && !c.listed)
    && c.listDrops == One(c.ofServer && c.admitted && !c.listRef)
    && (!(c.ofServer && c.admitted) ==> !c.listRef)
    && (c.ofServer && c.admitted && !down ==>
          (!c.released || c.user == ToDisconnect || c.transport == ToDisconnect ==> c.listed))
  }

  ghost predicate Inv(c: Conn, down: bool) {
    Counted(c) && Agents(c, down) && InitialOwed(c, down) && ListOwed(c, down)
  }

  /** The transport takes no abort function, and the loop never has the list reference to drop. */
  lemma OnlyAgents(c: Conn, down: bool, a: Agent)
    requires Inv(c, down)
    ensures Enabled(c, down, Close(a)) || Enabled(c, down, Retain(a)) || Enabled(c, down, LeaveAbort(a)) ==>
              !a.Transport?
    ensures Enabled(c, down, DropList(a)) ==> !a.Loop?
  {
  }

  lemma CloseUser(c: Conn, down: bool)
    requires Inv(c, down) && Enabled(c, down, Close(User))
    ensures Inv(Next(c, down, Close(User)), down)
  {
  }

  lemma CloseLoop(c: Conn, down: bool)
    requires Inv(c, down) && Enabled(c, down, Close(Loop))
    ensures Inv(Next(c, down, Close(Loop)), down)
  {
  }

  lemma CloseInv(c: Conn, down: bool, a: Agent)
    requires Inv(c, down) && Enabled(c, down, Close(a))
    ensures Inv(Next(c, down, Close(a)), down)
  {
    OnlyAgents(c, down, a);
    hide Inv, Next;
    if a == User { CloseUser(c, down); } else { CloseLoop(c, down); }
  }

  lemma RetainUser(c: Conn, down: bool)
    requires Inv(c, down) && Enabled(c, down, Retain(User))
    ensures Inv(Next(c, down, Retain(User)), down)
  {
  }

  lemma RetainLoop(c: Conn, down: bool)
    requires Inv(c, down) && Enabled(c, down, Retain(Loop))
    ensures Inv(Next(c, down, Retain(Loop)), down)
  {
  }

  lemma RetainInv(c: Conn, down: bool, a: Agent)
    requires Inv(c, down) && Enabled(c, down, Retain(a))
    ensures Inv(Next(c, down, Retain(a)), down)
  {
    OnlyAgents(c, down, a);
    hide Inv, Next;
    if a == User { RetainUser(c, down); } else { RetainLoop(c, down); }
  }

  lemma EnterInv(c: Conn, down: bool)
    requires Inv(c, down) && Enabled(c, down, Enter)
    ensures Inv(Next(c, down, Enter), down)
  {
  }

  lemma ProceededInv(c: Conn, down: bool)
    requires Inv(c, down) && c.transport == Entered
    ensures Inv(Proceeded(c), down)
  {
  }

  lemma ProceedInv(c: Conn, down: bool)
    requires Inv(c, down) && Enabled(c, down, Proceed)
    ensures Inv(Next(c, down, Proceed), down)
  {
    hide Inv, Proceeded;
    ProceededInv(c, down);
  }

  lemma LeaveAbortUser(c: Conn, down: bool)
    requires Inv(c, down) && Enabled(c, down, LeaveAbort(User))
    ensures Inv(Next(c, down, LeaveAbort(User)), down)
  {
  }

  lemma LeaveAbortLoop(c: Conn, down: bool)
    requires Inv(c, down) && Enabled(c, down, LeaveAbort(Loop))
    ensures Inv(Next(c, down, LeaveAbort(Loop)), down)
  {
  }

  lemma LeaveAbortInv(c: Conn, down: bool, a: Agent)
    requires Inv(c, down) && Enabled(c, down, LeaveAbort(a))
    ensures Inv(Next(c, down, LeaveAbort(a)), down)
  {
    OnlyAgents(c, down, a);
    hide Inv, Next;
    if a == User { LeaveAbortUser(c, down); } else { LeaveAbortLoop(c, down); }
  }

  lemma DisconnectUser(c: Conn, down: bool)
    requires Inv(c, down) && Enabled(c, down, Disconnect(User))
    ensures Inv(Next(c, down, Disconnect(User)), down)
  {
  }

  lemma DisconnectLoop(c: Conn, down: bool)
    requires Inv(c, down) && Enabled(c, down, Disconnect(Loop))
    ensures Inv(Next(c, down, Disconnect(Loop)), down)
  {
  }

  lemma DisconnectTransport(c: Conn, down: bool)
    requires Inv(c, down) && Enabled(c, down, Disconnect(Transport))
    ensures Inv(Next(c, down, Disconnect(Transport)), down)
  {
  }

  lemma DisconnectInv(c: Conn, down: bool, a: Agent)
    requires Inv(c, down) && Enabled(c, down, Disconnect(a))
    ensures Inv(Next(c, down, Disconnect(a)), down)
  {
    hide Inv, Next, Enabled;
    match a
    case User => DisconnectUser(c, down);
    case Loop => DisconnectLoop(c, down);
    case Transport => DisconnectTransport(c, down);
  }

  lemma DropListUser(c: Conn, down: bool)
    requires Inv(c, down) && Enabled(c, down, DropList(User))
    ensures Inv(Next(c, down, DropList(User)), down)
  {
  }

  lemma DropListTransport(c: Conn, down: bool)
    requires Inv(c, down) && Enabled(c, down, DropList(Transport))
    ensures Inv(Next(c, down, DropList(Transport)), down)
  {
  }

  lemma DropListInv(c: Conn, down: bool, a: Agent)
    requires Inv(c, down) && Enabled(c, down, DropList(a))
    ensures Inv(Next(c, down, DropList(a)), down)
  {
    OnlyAgents(c, down, a);
    hide Inv, Next;
    if a == User { DropListUser(c, down); } else { DropListTransport(c, down); }
  }

  lemma DropInitialUser(c: Conn, down: bool)
    requires Inv(c, down) && Enabled(c, down, DropInitial(User))
    ensures Inv(Next(c, down, DropInitial(User)), down)
  {
  }

  lemma DropInitialLoop(c: Conn, down: bool)
    requires Inv(c, down) && Enabled(c, down, DropInitial(Loop))
    ensures Inv(Next(c, down, DropInitial(Loop)), down)
  {
  }

  lemma DropInitialTransport(c: Conn, down: bool)
    requires Inv(c, down) && Enabled(c, down, DropInitial(Transport))
    ensures Inv(Next(c, down, DropInitial(Transport)), down)
  {
  }

  lemma DropInitialInv(c: Conn, down: bool, a: Agent)
    requires Inv(c, down) && Enabled(c, down, DropInitial(a))
    ensures Inv(Next(c, down, DropInitial(a)), down)
  {
    hide Inv, Next, Enabled;
    match a
    case User => DropInitialUser(c, down);
    case Loop => DropInitialLoop(c, down);
    case Transport => DropInitialTransport(c, down);
  }

  lemma LastDropsInv(c: Conn, down: bool, step: Step)
    requires step.DropHold? || step.LoopRelease?
    requires Inv(c, down) && Enabled(c, down, step)
    ensures Inv(Next(c, down, step), down)
  {
  }

  lemma AllocCallInv(c: Conn, down: bool)
    requires Inv(c, down) && Enabled(c, down, AllocCall)
    ensures Inv(Next(c, down, AllocCall), down)
  {
  }

  lemma ReleaseCallInv(c: Conn, down: bool)
    requires Inv(c, down) && Enabled(c, down, ReleaseCall)
    ensures Inv(Next(c, down, ReleaseCall), down)
  {
  }

  lemma TableInv(c: Conn, down: bool, step: Step)
    requires step.Register? || step.Unregister?
    requires Inv(c, down) && Enabled(c, down, step)
    ensures Inv(Next(c, down, step), down)
  {
  }

  lemma OwnInv(c: Conn, down: bool, step: Step)
    requires step.Hold? || step.LetGo?
    requires Inv(c, down) && Enabled(c, down, step)
    ensures Inv(Next(c, down, step), down)
  {
  }

  lemma StepInv(c: Conn, down: bool, step: Step)
    requires Inv(c, down) && Enabled(c, down, step)
    ensures Inv(Next(c, down, step), down)
  {
    hide Inv, Next, Enabled;
    match step
    case Close(a) => CloseInv(c, down, a);
    case Retain(a) => RetainInv(c, down, a);
    case LeaveAbort(a) => LeaveAbortInv(c, down, a);
    case Enter => EnterInv(c, down);
    case Proceed => ProceedInv(c, down);
    case Disconnect(a) => DisconnectInv(c, down, a);
    case DropList(a) => DropListInv(c, down, a);
    case DropInitial(a) => DropInitialInv(c, down, a);
    case DropHold => LastDropsInv(c, down, step);
    case LoopRelease => LastDropsInv(c, down, step);
    case Hold => OwnInv(c, down, step);
    case LetGo => OwnInv(c, down, step);
    case AllocCall => AllocCallInv(c, down);
    case ReleaseCall => ReleaseCallInv(c, down);
    case _ => TableInv(c, down, step);
  }

  /** With a careful user, nothing touches a freed connection and the assertions never fire. */
  lemma StepAsserted(c: Conn, down: bool, step: Step)
    requires Inv(c, down) && c.careful && Enabled(c, down, step)
    ensures Asserted(c, down, step)
  {
    hide Next;
    StepAlive(c, down, step);
    StepInv(c, down, step);
  }

  lemma StepAlive(c: Conn, down: bool, step: Step)
    requires Inv(c, down) && c.careful && Enabled(c, down, step)
    ensures c.refcnt > 0
  {
  }

  /** The server may be closed at any time. */
  lemma DownInv(c: Conn)
    requires Inv(c, false)
    ensures Inv(c, true)
  {
  }

  /** A freed connection of a careful user has dropped its initial reference once and, if a server accepted it,
      the list reference once; no call is left, and no agent has anything left to do with it. */
  lemma FreedIsFinished(c: Conn, down: bool)
    requires Inv(c, down) && c.careful && c.refcnt == 0
    ensures c.admitted && c.initialDrops == 1 && c.listDrops == One(c.ofServer)
    ensures c.registered == 0 && c.callRefs == 0 && !c.userRef
    ensures (c.user == NotYet || c.user == Over) && (c.loop == NotYet || c.loop == Over) && c.transport == Over
  {
  }

  /** A refused connection carries the released flag from the start, so nobody drops its initial
      reference: it is never freed. */
  lemma RefusedIsNeverFreed(c: Conn, down: bool)
    requires Inv(c, down) && !c.admitted
    ensures c.refcnt > 0 && c.initialDrops == 0
  {
  }

  ghost predicate RunsTo(c: Conn, down: bool, steps: seq<Step>, d: Conn)
    decreases |steps|
  {
    if steps == [] then d == c
    else Enabled(c, down, steps[0]) && RunsTo(Next(c, down, steps[0]), down, steps[1..], d)
  }

  /** Without a reference of its own, a user that has taken the abort function and let go of the lock may find
      the connection freed when it retains it, be it a server's or a client's. */
  lemma RetainAfterFree(ofServer: bool) returns (steps: seq<Step>, d: Conn)
    ensures RunsTo(if ofServer then Accepted(false) else Connected(false), false, steps, d)
    ensures d.refcnt == 0 && Enabled(d, false, Retain(User)) && !Asserted(d, false, Retain(User))
  {
    var c := if ofServer then Accepted(false) else Connected(false);
    steps := [Close(User), Enter, Proceed] + (if ofServer then [Disconnect(Transport), DropList(Transport)] else []) +
             [DropInitial(Transport), DropHold];
    if ofServer { d := ServerRun(); } else { d := ClientRun(); }
  }

  lemma ServerRun() returns (d: Conn)
    ensures RunsTo(Accepted(false), false, [Close(User), Enter, Proceed] +
                                           [Disconnect(Transport), DropList(Transport)] +
                                           [DropInitial(Transport), DropHold], d)
    ensures d.refcnt == 0 && d.user == ToRetain
  {
    var c := Accepted(false);
    var c3 := FirstSteps(c);
    var c4 := Next(c3, false, Disconnect(Transport));
    var c5 := Next(c4, false, DropList(Transport));
    Two(c3, Disconnect(Transport), DropList(Transport));
    d := LastSteps(c5);
    Append(c, [Close(User), Enter, Proceed], c3, [Disconnect(Transport), DropList(Transport)], c5);
    Append(c, [Close(User), Enter, Proceed] + [Disconnect(Transport), DropList(Transport)], c5,
           [DropInitial(Transport), DropHold], d);
  }

  lemma ClientRun() returns (d: Conn)
    ensures RunsTo(Connected(false), false, [Close(User), Enter, Proceed] + [] + [DropInitial(Transport), DropHold], d)
    ensures d.refcnt == 0 && d.user == ToRetain
  {
    var c := Connected(false);
    var c3 := FirstSteps(c);
    d := LastSteps(c3);
    Append(c, [Close(User), Enter, Proceed], c3, [DropInitial(Transport), DropHold], d);
    assert [Close(User), Enter, Proceed] + [] == [Close(User), Enter, Proceed];
  }

  lemma FirstSteps(c: Conn) returns (d: Conn)
    requires c == Accepted(false) || c == Connected(false)
    ensures RunsTo(c, false, [Close(User), Enter, Proceed], d)
    ensures d == c.(closed := true, aborted := true, released := true, hasAbort := false, refcnt := c.refcnt + 1,
                    user := ToRetain, transport := if c.ofServer then ToDisconnect else ToDropInitial)
  {
    var steps := [Close(User), Enter, Proceed];
    var c1 := Next(c, false, Close(User));
    var c2 := Next(c1, false, Enter);
    d := Next(c2, false, Proceed);
    Two(c1, Enter, Proceed);
    assert steps[1..] == [Enter, Proceed];
  }

  lemma LastSteps(c: Conn) returns (d: Conn)
    requires c.transport == ToDropInitial
    ensures RunsTo(c, false, [DropInitial(Transport), DropHold], d)
    ensures d.refcnt == c.refcnt - 2 && d.user == c.user
  {
    Two(c, DropInitial(Transport), DropHold);
    d := Next(Next(c, false, DropInitial(Transport)), false, DropHold);
  }

  lemma Two(c: Conn, first: Step, second: Step)
    requires Enabled(c, false, first) && Enabled(Next(c, false, first), false, second)
    ensures RunsTo(c, false, [first, second], Next(Next(c, false, first), false, second))
  {
    hide Enabled, Next;
    assert [first, second][1..] == [second] && [second][1..] == [];
    assert RunsTo(Next(c, false, first), false, [second], Next(Next(c, false, first), false, second));
  }

  lemma {:induction false} Append(c: Conn, l: seq<Step>, d: Conn, r: seq<Step>, e: Conn)
    requires RunsTo(c, false, l, d) && RunsTo(d, false, r, e)
    ensures RunsTo(c, false, l + r, e)
    decreases |l|
  {
    hide Enabled, Next;
    if l == [] {
      assert l + r == r;
    } else {
      assert (l + r)[1..] == l[1..] + r;
      Append(Next(c, false, l[0]), l[1..], d, r, e);
    }
  }

  /** Steps that finish what was begun: the peer leaves, agents go on, calls and references are let go. What is
      not among them: a user that closes or holds, and new calls. */
  predicate Settling(step: Step) {
    !step.Hold? && !step.AllocCall? && !step.Register? && step != Close(User)
  }

  /** Nothing is left to finish. */
  ghost predicate Quiet(c: Conn, down: bool) {
    forall step :: Settling(step) ==> !Enabled(c, down, step)
  }

  /** A connection with nothing left to finish is freed, its initial reference dropped exactly once, and the list
      reference exactly once if a server accepted it. A client's needs its user to have closed it. */
  lemma QuietIsFreed(c: Conn, down: bool)
    requires Inv(c, down) && c.admitted && (c.ofServer || c.user != NotYet) && Quiet(c, down)
    ensures c.refcnt == 0 && c.initialDrops == 1 && c.listDrops == One(c.ofServer)
  {
    assert forall step :: step in [LetGo, Enter, Proceed, DropHold, LoopRelease, Unregister, ReleaseCall] ==>
             !Enabled(c, down, step);
    assert !Enabled(c, down, Close(Loop));
    forall a ensures !Enabled(c, down, Retain(a)) && !Enabled(c, down, LeaveAbort(a)) &&
                     !Enabled(c, down, Disconnect(a)) && !Enabled(c, down, DropList(a)) &&
                     !Enabled(c, down, DropInitial(a)) {}
    if c.refcnt > 0 { QuietAgents(c, down); }
  }

  lemma QuietAgents(c: Conn, down: bool)
    requires Inv(c, down) && Quiet(c, down) && c.refcnt > 0
    ensures c.transport == Over && (c.user == NotYet || c.user == Over) && (c.loop == NotYet || c.loop == Over)
    ensures c.callRefs == 0 && !c.userRef && (down && c.listed ==> c.loop == Over)
  {
    hide Quiet;
    StepsQuiet(c, down);
    AgentQuiet(c, down, User);
    AgentQuiet(c, down, Loop);
    AgentQuiet(c, down, Transport);
  }

  lemma StepsQuiet(c: Conn, down: bool)
    requires Quiet(c, down) && c.refcnt > 0
    ensures c.transport != NotYet && c.transport != Entered && c.transport != ToDropHold && c.loop != ToLoopRelease
    ensures (c.userRef ==> c.user != NotYet && c.user != Over) && !(c.loop == NotYet && down && c.listed)
    ensures c.registered == 0 && c.registered >= c.callRefs
  {
    assert !Enabled(c, down, Enter) && !Enabled(c, down, Proceed) && !Enabled(c, down, DropHold);
    assert !Enabled(c, down, LoopRelease) && !Enabled(c, down, LetGo) && !Enabled(c, down, Close(Loop));
    assert !Enabled(c, down, Unregister) && !Enabled(c, down, ReleaseCall);
  }

  lemma AgentQuiet(c: Conn, down: bool, a: Agent)
    requires Quiet(c, down)
    ensures var pc := PcOf(c, a); pc != ToRetain && (pc == Aborting ==> !c.aborted) && !Dropping(pc)
  {
    assert !Enabled(c, down, Retain(a)) && !Enabled(c, down, LeaveAbort(a));
    assert !Enabled(c, down, Disconnect(a)) && !Enabled(c, down, DropList(a)) && !Enabled(c, down, DropInitial(a));
  }

  function Ahead(a: Agent, pc: Pc): nat {
    match pc
    case NotYet => if a.User? then 0 else 8
    case Entered => 7
    case ToRetain => 6
    case Aborting => 5
    case ToDisconnect => 4
    case ToDropList => 3
    case ToDropInitial => 2
    case ToDropHold => 1
    case ToLoopRelease => 1
    case Over => 0
  }

  /** How many steps that finish things a connection can take at most. */
  function Work(c: Conn): nat {
    Ahead(User, c.user) + Ahead(Loop, c.loop) + Ahead(Transport, c.transport) + c.registered + c.callRefs +
    if c.userRef then 1 else 0
  }

  lemma CloseProgress(c: Conn, down: bool)
    requires Enabled(c, down, Close(Loop))
    ensures Work(Next(c, down, Close(Loop))) < Work(c)
  {
  }

  lemma RetainProgress(c: Conn, down: bool, a: Agent)
    requires Enabled(c, down, Retain(a))
    ensures Work(Next(c, down, Retain(a))) < Work(c)
  {
  }

  lemma LeaveAbortProgress(c: Conn, down: bool, a: Agent)
    requires Agents(c, down) && Enabled(c, down, LeaveAbort(a))
    ensures Work(Next(c, down, LeaveAbort(a))) < Work(c)
  {
  }

  lemma EnterProgress(c: Conn, down: bool)
    requires Enabled(c, down, Enter)
    ensures Work(Next(c, down, Enter)) < Work(c)
  {
  }

  lemma ProceedProgress(c: Conn, down: bool)
    requires Enabled(c, down, Proceed)
    ensures Work(Next(c, down, Proceed)) < Work(c)
  {
    hide Work, Proceeded;
    ProceededProgress(c);
  }

  lemma ProceededProgress(c: Conn)
    requires c.transport == Entered
    ensures Work(Proceeded(c)) < Work(c)
  {
  }

  lemma DisconnectProgress(c: Conn, down: bool, a: Agent)
    requires Enabled(c, down, Disconnect(a))
    ensures Work(Next(c, down, Disconnect(a))) < Work(c)
  {
  }

  lemma DroppedListProgress(c: Conn, a: Agent)
    requires PcOf(c, a) == ToDropList
    ensures Work(DroppedList(c, a)) < Work(c)
  {
  }

  lemma DropListProgress(c: Conn, down: bool, a: Agent)
    requires Enabled(c, down, DropList(a))
    ensures Work(Next(c, down, DropList(a))) < Work(c)
  {
    hide Work, DroppedList;
    DroppedListProgress(c, a);
  }

  lemma DroppedInitialProgress(c: Conn, a: Agent)
    requires PcOf(c, a) == ToDropInitial
    ensures Work(DroppedInitial(c, a)) < Work(c)
  {
  }

  lemma DropInitialProgress(c: Conn, down: bool, a: Agent)
    requires Enabled(c, down, DropInitial(a))
    ensures Work(Next(c, down, DropInitial(a))) < Work(c)
  {
    hide Work, DroppedInitial;
    DroppedInitialProgress(c, a);
  }

  lemma LastProgress(c: Conn, down: bool, step: Step)
    requires Enabled(c, down, step)
    requires step.DropHold? || step.LoopRelease? || step.LetGo? || step.Unregister? || step.ReleaseCall?
    ensures Work(Next(c, down, step)) < Work(c)
  {
  }

  /** Every step that finishes something leaves less work. */
  lemma SettleProgress(c: Conn, down: bool, step: Step)
    requires Agents(c, down) && Settling(step) && Enabled(c, down, step)
    ensures Work(Next(c, down, step)) < Work(c)
  {
    OnlyLoopCloses(c, down, step);
    hide Work, Agents, Next, Enabled;
    match step
    case Close(a) => CloseProgress(c, down);
    case Retain(a) => RetainProgress(c, down, a);
    case LeaveAbort(a) => LeaveAbortProgress(c, down, a);
    case Enter => EnterProgress(c, down);
    case Proceed => ProceedProgress(c, down);
    case Disconnect(a) => DisconnectProgress(c, down, a);
    case DropList(a) => DropListProgress(c, down, a);
    case DropInitial(a) => DropInitialProgress(c, down, a);
    case _ => LastProgress(c, down, step);
  }

  lemma OnlyLoopCloses(c: Conn, down: bool, step: Step)
    requires Settling(step) && Enabled(c, down, step)
    ensures step.Close? ==> step.a == Loop
  {
  }
}
