/** A server and its connections come to rest: whatever was begun can be finished, in a number of events known
    beforehand, and then everything that was accepted is freed. */
module ServerSettles {
  import C = Connection
  import opened ServerLife

  /** Events that finish what was begun. */
  predicate Finishing(e: Event) {
    (e.At? && C.Settling(e.step)) || e.FinishClose?
  }

  ghost predicate AtRest(s: System) {
    forall e :: Finishing(e) ==> !Possible(s, e)
  }

  /** Nothing left to finish: every accepted connection is freed, its initial and its list reference dropped
      exactly once, and a closed server is freed exactly once. */
  lemma AtRestIsFreed(s: System)
    requires SystemInv(s) && AtRest(s)
    ensures forall id :: id in s.conns && s.conns[id].admitted ==>
              s.conns[id].refcnt == 0 && s.conns[id].initialDrops == 1 && s.conns[id].listDrops == 1
    ensures s.server.closed ==> s.server.frees == 1
  {
    hide C.Inv, Made, Released;
    forall id | id in s.conns && s.conns[id].admitted
      ensures s.conns[id].refcnt == 0 && s.conns[id].initialDrops == 1 && s.conns[id].listDrops == 1
    {
      ConnAtRest(s, id);
    }
    if s.server.closed {
      forall id | id in s.conns ensures !s.conns[id].listed { NotListed(s.conns[id], s.server.closed); }
      assert !Possible(s, FinishClose);
      NoneAlive(s.conns);
    }
  }

  lemma ConnAtRest(s: System, id: int)
    requires SystemInv(s) && AtRest(s) && id in s.conns && s.conns[id].admitted
    ensures s.conns[id].refcnt == 0 && s.conns[id].initialDrops == 1 && s.conns[id].listDrops == 1
  {
    hide C.Inv, ServerInv, C.Enabled, C.Settling;
    var c := s.conns[id];
    forall step | C.Settling(step) ensures !C.Enabled(c, s.server.closed, step) {
      assert !Possible(s, At(id, step));
    }
    C.QuietIsFreed(c, s.server.closed);
  }

  lemma NotListed(c: C.Conn, down: bool)
    requires C.Inv(c, down) && (c.admitted ==> c.refcnt == 0)
    ensures !c.listed
  {
  }

  ghost function Pick(ids: set<int>): (id: int)
    requires ids != {}
    ensures id in ids
  {
    Empty(ids);
    var id :| id in ids;
    id
  }

  lemma Empty(ids: set<int>)
    ensures (forall id :: id !in ids) ==> ids == {}
  {
    if forall id :: id !in ids { assert ids == {}; }
  }

  ghost function SumWork(conns: map<int, C.Conn>): nat
    decreases |conns|
  {
    if conns.Keys == {} then 0
    else
      var id := Pick(conns.Keys);
      assert (conns - {id}).Keys == conns.Keys - {id};
      C.Work(conns[id]) + SumWork(conns - {id})
  }

  lemma {:induction false} SumAt(conns: map<int, C.Conn>, id: int)
    requires id in conns
    ensures SumWork(conns) == C.Work(conns[id]) + SumWork(conns - {id})
    decreases |conns|
  {
    var k := Pick(conns.Keys);
    if k != id {
      var (ck, ci) := (conns - {k}, conns - {id});
      assert ck.Keys == conns.Keys - {k} && ci.Keys == conns.Keys - {id};
      SumAt(ck, id);
      SumAt(ci, k);
      assert ck - {id} == ci - {k};
    }
  }

  lemma SumUpdate(conns: map<int, C.Conn>, id: int, d: C.Conn)
    requires id in conns
    ensures SumWork(conns[id := d]) + C.Work(conns[id]) == SumWork(conns) + C.Work(d)
  {
    SumAt(conns, id);
    SumAt(conns[id := d], id);
    assert conns[id := d] - {id} == conns - {id};
  }

  /** How many events that finish things are possible at most. */
  ghost function TotalWork(s: System): nat {
    SumWork(s.conns) + if s.server.base then 1 else 0
  }

  lemma FinishProgress(s: System, e: Event)
    requires SystemInv(s) && Finishing(e) && Possible(s, e)
    ensures TotalWork(Next(s, e)) < TotalWork(s)
  {
    hide ServerInv, SumWork, C.Work, C.Next, C.Enabled;
    match e
    case At(id, step) =>
      var (c, down) := (s.conns[id], s.server.closed);
      C.SettleProgress(c, down, step);
      SumUpdate(s.conns, id, C.Next(c, down, step));
      BaseKept(s.server, c, C.Next(c, down, step));
    case FinishClose =>
  }

  lemma BaseKept(s: Server, c: C.Conn, d: C.Conn)
    ensures ServerAfter(s, c, d).base == s.base && ServerAfter(s, c, d).closed == s.closed
  {
  }

  /** From every state of the invariant, finishing what was begun ends, and leaves all freed. */
  lemma {:induction false} Settle(s: System) returns (events: seq<Event>, t: System)
    requires SystemInv(s)
    ensures RunsTo(s, events, t) && |events| <= TotalWork(s) && forall e :: e in events ==> Finishing(e)
    ensures SystemInv(t) && AtRest(t) && t.server.closed == s.server.closed
    decreases TotalWork(s)
  {
    hide SystemInv, TotalWork, Next, RunsTo, Possible;
    if AtRest(s) {
      RunsToSelf(s);
      return [], s;
    }
    var e :| Finishing(e) && Possible(s, e);
    FinishProgress(s, e);
    EventInv(s, e);
    ClosedKept(s, e);
    var rest;
    rest, t := Settle(Next(s, e));
    events := [e] + rest;
    RunsToCons(s, e, rest, t);
  }

  lemma ClosedKept(s: System, e: Event)
    requires Finishing(e) && Possible(s, e)
    ensures Next(s, e).server.closed == s.server.closed
  {
    hide C.Next, C.Enabled;
    if e.At? { BaseKept(s.server, s.conns[e.id], C.Next(s.conns[e.id], s.server.closed, e.step)); }
  }

  lemma RunsToSelf(s: System)
    ensures RunsTo(s, [], s)
  {
  }

  lemma RunsToCons(s: System, e: Event, rest: seq<Event>, t: System)
    requires Possible(s, e) && RunsTo(Next(s, e), rest, t)
    ensures RunsTo(s, [e] + rest, t)
  {
    hide Possible, Next;
    assert ([e] + rest)[1..] == rest;
  }

  /** Finishing things, in whatever order, takes at most as many events as there is work. */
  lemma {:induction false} FinishingRun(s: System, events: seq<Event>, t: System)
    requires SystemInv(s) && RunsTo(s, events, t) && forall e :: e in events ==> Finishing(e)
    ensures SystemInv(t) && |events| + TotalWork(t) <= TotalWork(s) && t.server.closed == s.server.closed
    decreases |events|
  {
    hide SystemInv, TotalWork, Next, Possible;
    if events != [] {
      var e := events[0];
      FinishProgress(s, e);
      EventInv(s, e);
      ClosedKept(s, e);
      FinishingRun(Next(s, e), events[1..], t);
    }
  }

  /** After any run of careful users, and whatever of it was finished already (`some`, in any order), the peers'
      leaving and the finishing of what was begun leads, within TotalWork events together, to a state where every
      accepted connection is freed, its initial and its list reference dropped exactly once each, and the server
      freed exactly once if it was closed. */
  lemma EverythingIsFreed(events: seq<Event>, s: System, some: seq<Event>, u: System)
    returns (more: seq<Event>, t: System)
    requires RunsTo(Start(true), events, s)
    requires RunsTo(s, some, u) && forall e :: e in some ==> Finishing(e)
    ensures RunsTo(u, more, t) && |some| + |more| <= TotalWork(s) && forall e :: e in more ==> Finishing(e)
    ensures forall id :: id in t.conns && t.conns[id].admitted ==>
              t.conns[id].refcnt == 0 && t.conns[id].initialDrops == 1 && t.conns[id].listDrops == 1
    ensures s.server.closed ==> t.server.frees == 1
  {
    hide SystemInv, RunsTo, TotalWork, AtRest;
    StartInv();
    RunInv(Start(true), events, s);
    FinishingRun(s, some, u);
    more, t := Settle(u);
    AtRestIsFreed(t);
  }

  /** A run of one connection, as events of the system while the server is open. */
  lemma {:induction false} Lift(s: System, id: int, steps: seq<C.Step>, d: C.Conn)
    returns (events: seq<Event>, t: System)
    requires id in s.conns && !s.server.closed && C.RunsTo(s.conns[id], false, steps, d)
    ensures RunsTo(s, events, t) && id in t.conns && t.conns[id] == d && !t.server.closed
    decreases |steps|
  {
    hide C.Next, C.Enabled, RunsTo;
    if steps == [] {
      RunsToSelf(s);
      return [], s;
    }
    var e := At(id, steps[0]);
    BaseKept(s.server, s.conns[id], C.Next(s.conns[id], false, steps[0]));
    var rest;
    rest, t := Lift(Next(s, e), id, steps[1..], d);
    events := [e] + rest;
    RunsToCons(s, e, rest, t);
  }

  /** With users that close without a reference of their own, something freed is used in some interleaving: the
      promises need careful users. */
  lemma CarelessFails() returns (events: seq<Event>, t: System)
    ensures RunsTo(Start(false), events, t) && t.failed
  {
    hide C.Next, C.Enabled, C.Asserted, RunsTo;
    var s := Start(false);
    var steps, d := C.RetainAfterFree(true);
    var s1 := Next(s, Accept(0));
    var more, s2 := Lift(s1, 0, steps, d);
    t := Next(s2, At(0, C.Retain(C.User)));
    RunsToSelf(t);
    RunsToCons(s2, At(0, C.Retain(C.User)), [], t);
    Append(s1, more, s2, [At(0, C.Retain(C.User))] + [], t);
    events := [Accept(0)] + (more + ([At(0, C.Retain(C.User))] + []));
    RunsToCons(s, Accept(0), more + ([At(0, C.Retain(C.User))] + []), t);
  }

  lemma {:induction false} Append(s: System, l: seq<Event>, t: System, r: seq<Event>, u: System)
    requires RunsTo(s, l, t) && RunsTo(t, r, u)
    ensures RunsTo(s, l + r, u)
    decreases |l|
  {
    hide Possible, Next;
    if l == [] {
      assert l + r == r;
    } else {
      assert (l + r)[1..] == l[1..] + r;
      Append(Next(s, l[0]), l[1..], t, r, u);
    }
  }
}
