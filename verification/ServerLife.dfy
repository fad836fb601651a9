/** A server with its connections: every interleaving of accepting, disconnecting, closing connections
    and closing the server. */
module ServerLife {
  import opened Connection

  /** `base`: the server's own reference is still held. `frees` counts how often it was freed. */
  datatype Server = Server(
    closed: bool, base: bool, refcnt: int, freed: bool, frees: nat, made: int, refused: int, connClosed: int)

  /** `failed`: an assertion of the source fired, or a freed connection or server was used. `careful`: users
      close connections only while they hold a reference of their own. */
  datatype System = System(server: Server, conns: map<int, Conn>, failed: bool, careful: bool)

  function Start(careful: bool): System {
    System(Server(false, true, 1, false, 0, 0, 0, 0), map[], false, careful)
  }

  datatype Event = Accept(id: int) | At(id: int, step: Step) | CloseServer | FinishClose

  /** rpc_server_release. */
  function ServerRelease(s: Server): Server {
    if s.closed && s.refcnt == 1 then s.(refcnt := 0, freed := true, frees := s.frees + 1)
    else s.(refcnt := s.refcnt - 1)
  }

  /** The assertions of rpc_server_release. */
  predicate ReleaseAsserted(s: Server) {
    && s.refcnt > 0 && !s.freed
    && (s.refcnt == 2 ==> s.closed || s.made == s.connClosed)
  }

  /** rpc_server_close runs once; it ends when its loop has dropped every connection of the list. */
  predicate Possible(s: System, e: Event) {
    match e
    case Accept(id) => id !in s.conns && !s.server.freed
    case At(id, step) => id in s.conns && Enabled(s.conns[id], s.server.closed, step)
    case CloseServer => !s.server.closed
    case FinishClose => s.server.closed && s.server.base && forall id :: id in s.conns ==> !s.conns[id].listed
  }

  /** What a step of a connection does to its server. */
  function ServerAfter(s: Server, c: Conn, d: Conn): Server {
    var s1 := if d.released && !c.released then s.(connClosed := s.connClosed + 1) else s;
    if d.refcnt == 0 then ServerRelease(s1) else s1
  }

  /** Does this step use the server? */
  predicate UsesServer(step: Step, c: Conn, d: Conn) {
    step.Disconnect? || d.refcnt == 0 || (d.released && !c.released)
  }

  function Next(s: System, e: Event): System
    requires Possible(s, e)
  {
    match e
    case Accept(id) =>
      if s.server.closed then
        s.(server := s.server.(refused := s.server.refused + 1), conns := s.conns[id := Refused(s.careful)])
      else
        s.(server := s.server.(refcnt := s.server.refcnt + 1, made := s.server.made + 1),
           conns := s.conns[id := Accepted(s.careful)])
    case At(id, step) =>
      var c := s.conns[id];
      var d := Connection.Next(c, s.server.closed, step);
      var last := ServerAfter(s.server, c, d.(refcnt := 1));
      System(ServerAfter(s.server, c, d), s.conns[id := d],
             || s.failed
             || !Asserted(c, s.server.closed, step)
             || (UsesServer(step, c, d) && s.server.freed)
             || (d.refcnt == 0 && !ReleaseAsserted(last)),
             s.careful)
    case CloseServer => s.(server := s.server.(closed := true))
    case FinishClose =>
      s.(server := ServerRelease(s.server.(base := false)), failed := s.failed || !ReleaseAsserted(s.server))
  }

  ghost predicate RunsTo(s: System, events: seq<Event>, t: System)
    decreases |events|
  {
    if events == [] then t == s else Possible(s, events[0]) && RunsTo(Next(s, events[0]), events[1..], t)
  }

  function Made(conns: map<int, Conn>): set<int> {
    set id | id in conns && conns[id].admitted
  }

  function Released(conns: map<int, Conn>): set<int> {
    set id | id in conns && conns[id].admitted && conns[id].released
  }

  function Alive(conns: map<int, Conn>): set<int> {
    set id | id in conns && conns[id].admitted && conns[id].refcnt > 0
  }

  ghost predicate ConnsInv(s: System) {
    forall id :: id in s.conns ==>
      Inv(s.conns[id], s.server.closed) && s.conns[id].ofServer && s.conns[id].careful
  }

  /** The server counts its connections, and holds itself until its close has ended. */
  ghost predicate ServerInv(s: System) {
    && s.server.refcnt == One(s.server.base) + |Alive(s.conns)|
    && s.server.made == |Made(s.conns)| && s.server.connClosed == |Released(s.conns)|
    && (!s.server.base ==> s.server.closed)
    && (s.server.freed <==> !s.server.base && Alive(s.conns) == {})
    && s.server.frees == One(s.server.freed)
  }

  ghost predicate SystemInv(s: System) {
    s.careful && ConnsInv(s) && ServerInv(s) && !s.failed
  }

  /** How the three counts follow one connection. */
  lemma CountStep(conns: map<int, Conn>, id: int, d: Conn)
    requires id in conns && d.admitted == conns[id].admitted
    requires conns[id].admitted && conns[id].released ==> d.released
    requires conns[id].refcnt > 0 && d.refcnt >= 0
    ensures var after := conns[id := d];
            && Made(after) == Made(conns)
            && |Released(after)| == |Released(conns)| + One(d.admitted && d.released && !conns[id].released)
            && |Alive(after)| == |Alive(conns)| - One(d.admitted && d.refcnt == 0)
            && (d.admitted ==> id in Alive(conns))
            && (d.refcnt > 0 ==> Alive(after) == Alive(conns))
  {
    var after := conns[id := d];
    if d.admitted && d.released { assert Released(after) == Released(conns) + {id}; }
    else { assert Released(after) == Released(conns); }
    if d.admitted && d.refcnt == 0 { assert Alive(after) == Alive(conns) - {id}; }
    else { assert Alive(after) == Alive(conns); }
  }

  lemma CountAccept(conns: map<int, Conn>, id: int, c: Conn)
    requires id !in conns && c.refcnt > 0 && (c.admitted ==> !c.released)
    ensures var after := conns[id := c];
            && Made(after) == Made(conns) + (if c.admitted then {id} else {}) && id !in Made(conns)
            && Released(after) == Released(conns)
            && Alive(after) == Alive(conns) + (if c.admitted then {id} else {}) && id !in Alive(conns)
  {
  }

  lemma Singleton(s: set<int>, x: int)
    requires x in s && |s| == 1
    ensures s == {x}
  {
    assert |s - {x}| == 0;
  }

  /** With all other connections gone and this one released, every connection made was closed. */
  lemma AllReleased(conns: map<int, Conn>, down: bool, id: int, d: Conn)
    requires forall i :: i in conns ==> Inv(conns[i], down)
    requires id in conns && |Alive(conns)| == 1 && id in Alive(conns) && d.admitted && d.released
    ensures Made(conns[id := d]) == Released(conns[id := d])
  {
    hide Inv;
    Singleton(Alive(conns), id);
    var after := conns[id := d];
    forall i | i in Made(after) ensures after[i].released {
      if i != id {
        assert i !in Alive(conns);
        FreedIsReleased(conns[i], down);
      }
    }
  }

  lemma FreedIsReleased(c: Conn, down: bool)
    requires Inv(c, down) && c.refcnt <= 0
    ensures c.released
  {
  }

  lemma RefusedStep(c: Conn, down: bool, step: Step)
    requires Inv(c, down) && Enabled(c, down, step) && !c.admitted
    ensures var d := Connection.Next(c, down, step); d.refcnt > 0 && !UsesServer(step, c, d)
  {
    StepInv(c, down, step);
    RefusedIsNeverFreed(Connection.Next(c, down, step), down);
    RefusedAgents(c, down, step);
  }

  lemma RefusedAgents(c: Conn, down: bool, step: Step)
    requires Inv(c, down) && Enabled(c, down, step) && !c.admitted
    ensures c.released && !step.Disconnect?
  {
  }

  lemma CountNotNegative(c: Conn, down: bool)
    requires Inv(c, down)
    ensures c.refcnt >= 0
  {
  }

  lemma LastReleaseIsOfReleased(c: Conn, down: bool, step: Step)
    requires Inv(c, down) && c.careful && Enabled(c, down, step) && Connection.Next(c, down, step).refcnt == 0
    ensures c.admitted && Connection.Next(c, down, step).released
  {
    hide Inv, Enabled, Connection.Next;
    var d := Connection.Next(c, down, step);
    StepInv(c, down, step);
    FreedIsReleased(d, down);
    FreedIsFinished(d, down);
  }

  /** A step of a connection keeps the invariant of the system. */
  lemma AtInv(s: System, id: int, step: Step)
    requires SystemInv(s) && Possible(s, At(id, step))
    ensures SystemInv(Next(s, At(id, step)))
  {
    hide Inv, Enabled, Connection.Next, Made, Released, Alive, Asserted;
    var (c, down) := (s.conns[id], s.server.closed);
    var d := Connection.Next(c, down, step);
    var t := Next(s, At(id, step));
    StepAlive(c, down, step);
    StepInv(c, down, step);
    StepAsserted(c, down, step);
    CountNotNegative(d, down);
    CountStep(s.conns, id, d);
    if !c.admitted {
      RefusedStep(c, down, step);
    } else if d.refcnt == 0 {
      LastReleaseIsOfReleased(c, down, step);
      if s.server.refcnt == 2 && !s.server.closed { AllReleased(s.conns, down, id, d); }
    }
    assert ConnsInv(t);
    assert ServerInv(t);
    assert !t.failed;
  }

  lemma NewAgents(c: Conn, down: bool)
    requires c == if down then Refused(true) else Accepted(true)
    ensures Counted(c) && Agents(c, down)
  {
  }

  lemma NewInitial(c: Conn, down: bool)
    requires c == if down then Refused(true) else Accepted(true)
    ensures InitialOwed(c, down)
  {
    assert !Dropping(c.user) && !Dropping(c.loop) && !Dropping(c.transport);
    hide Dropping;
  }

  lemma NewList(c: Conn, down: bool)
    requires c == if down then Refused(true) else Accepted(true)
    ensures ListOwed(c, down)
  {
  }

  lemma NewInv(c: Conn, down: bool)
    requires c == if down then Refused(true) else Accepted(true)
    ensures Inv(c, down)
  {
    hide Counted, Agents, InitialOwed, ListOwed;
    NewAgents(c, down);
    NewInitial(c, down);
    NewList(c, down);
  }

  lemma AcceptInv(s: System, id: int)
    requires SystemInv(s) && Possible(s, Accept(id))
    ensures SystemInv(Next(s, Accept(id)))
  {
    hide ConnsInv, ServerInv;
    AcceptConns(s, id);
    AcceptCounts(s, id);
  }

  lemma AcceptConns(s: System, id: int)
    requires s.careful && ConnsInv(s) && Possible(s, Accept(id))
    ensures ConnsInv(Next(s, Accept(id)))
  {
    hide Inv;
    NewInv(if s.server.closed then Refused(true) else Accepted(true), s.server.closed);
  }

  lemma AcceptCounts(s: System, id: int)
    requires s.careful && ServerInv(s) && Possible(s, Accept(id))
    ensures ServerInv(Next(s, Accept(id)))
  {
    hide Made, Released, Alive;
    CountAccept(s.conns, id, if s.server.closed then Refused(true) else Accepted(true));
  }

  lemma CloseServerInv(s: System)
    requires SystemInv(s) && Possible(s, CloseServer)
    ensures SystemInv(Next(s, CloseServer))
  {
    hide Inv, Made, Released, Alive;
    forall id | id in s.conns ensures Inv(s.conns[id], true) { DownInv(s.conns[id]); }
  }

  lemma FinishCloseInv(s: System)
    requires SystemInv(s) && Possible(s, FinishClose)
    ensures SystemInv(Next(s, FinishClose))
  {
    hide Inv, Made, Released, Alive;
  }

  lemma EventInv(s: System, e: Event)
    requires SystemInv(s) && Possible(s, e)
    ensures SystemInv(Next(s, e))
  {
    hide SystemInv, Next, Possible;
    match e
    case Accept(id) => AcceptInv(s, id);
    case At(id, step) => AtInv(s, id, step);
    case CloseServer => CloseServerInv(s);
    case FinishClose => FinishCloseInv(s);
  }

  lemma {:induction false} RunInv(s: System, events: seq<Event>, t: System)
    requires SystemInv(s) && RunsTo(s, events, t)
    ensures SystemInv(t)
    decreases |events|
  {
    hide SystemInv, Next, Possible;
    if events != [] {
      EventInv(s, events[0]);
      RunInv(Next(s, events[0]), events[1..], t);
    }
  }

  lemma StartInv()
    ensures SystemInv(Start(true))
  {
    assert Made(map[]) == {} && Released(map[]) == {} && Alive(map[]) == {};
  }

  /** With careful users, in every interleaving, no assertion of the source fires and nothing freed is used. The
      server is freed at most once, and exactly when its close has ended and its last accepted connection is
      gone. */
  lemma ServerIsFreedOnce(events: seq<Event>, t: System)
    requires RunsTo(Start(true), events, t)
    ensures !t.failed && t.server.frees <= 1
    ensures t.server.frees == 1 <==>
              && t.server.closed && !t.server.base
              && forall id :: id in t.conns && t.conns[id].admitted ==> t.conns[id].refcnt <= 0
  {
    hide Inv, Next, Possible;
    StartInv();
    RunInv(Start(true), events, t);
    NoneAlive(t.conns);
  }

  lemma NoneAlive(conns: map<int, Conn>)
    ensures Alive(conns) == {} <==> forall id :: id in conns && conns[id].admitted ==> conns[id].refcnt <= 0
  {
    if forall id :: id in conns && conns[id].admitted ==> conns[id].refcnt <= 0 {
      assert forall id :: id !in Alive(conns);
    } else {
      var id :| id in conns && conns[id].admitted && conns[id].refcnt > 0;
      assert id in Alive(conns);
    }
  }

  /** In every interleaving, the initial reference and the list reference of a connection are dropped at
      most once; a connection that is freed dropped both exactly once, has no call left, and no agent has
      anything left to do with it. A refused connection is never freed. */
  lemma ReferencesAreDroppedOnce(events: seq<Event>, t: System, id: int)
    requires RunsTo(Start(true), events, t) && id in t.conns
    ensures var c := t.conns[id];
            && c.initialDrops <= 1 && c.listDrops <= 1
            && (c.refcnt <= 0 ==> c.admitted && c.initialDrops == 1 && c.listDrops == 1 && c.registered == 0)
            && (c.refcnt <= 0 ==> c.transport == Over && c.user in {NotYet, Over} && c.loop in {NotYet, Over})
            && (!c.admitted ==> c.refcnt > 0 && c.initialDrops == 0)
  {
    hide Next, Possible, ServerInv;
    StartInv();
    RunInv(Start(true), events, t);
    ConnFacts(t.conns[id], t.server.closed);
  }

  lemma ConnFacts(c: Conn, down: bool)
    requires Inv(c, down) && c.ofServer && c.careful
    ensures c.initialDrops <= 1 && c.listDrops <= 1 && c.refcnt >= 0
    ensures c.refcnt == 0 ==> c.admitted && c.initialDrops == 1 && c.listDrops == 1 && c.registered == 0
    ensures c.refcnt == 0 ==> c.transport == Over && c.user in {NotYet, Over} && c.loop in {NotYet, Over}
    ensures !c.admitted ==> c.refcnt > 0 && c.initialDrops == 0
  {
    if c.refcnt == 0 { FreedIsFinished(c, down); }
    if !c.admitted { RefusedIsNeverFreed(c, down); }
  }
}
