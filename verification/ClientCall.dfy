/** The client's side of a call: a queue of items, a timer, and the credit counters. Every member
    runs under the lock of the call. */
module ClientCall {
  import opened Wrappers

  datatype Status = InProgress | StreamStart | MoreAvailable | Done | Error | Aborted | Ended

  /** Payloads are told apart by number. */
  datatype Body = NoBody | Payload(id: int) | TimedOut | ConnectionClosed | SendFailed

  datatype Item = Item(status: Status, body: Body)

  const TIMEOUT_ITEM := Item(Error, TimedOut)
  const CLOSED_ITEM := Item(Error, ConnectionClosed)

  /** `timer`: the timeout source has been set and not been cancelled. */
  datatype Client = Client(timer: bool, timedout: bool, queue: seq<Item>, consumer: int, producer: int, prefetch: int)

  /** A call as rpc_connection_call leaves it. */
  const NEW_CALL := Client(true, false, [], 0, 0, 1)

  predicate Running(s: Status) {
    s == InProgress || s == MoreAvailable || s == StreamStart
  }

  function HeadStatus(c: Client): Status {
    if c.queue == [] then InProgress else c.queue[0].status
  }

  /** The call with its timer cancelled, unless the timer has already fired. */
  function Cancelled(c: Client): Option<Client> {
    if c.timer && c.timedout then None else Some(c.(timer := false))
  }

  function Received(c: Client, item: Item): Client {
    match Cancelled(c)
    case None => c
    case Some(d) => d.(queue := d.queue + [item])
  }

  function FragmentReceived(c: Client, payload: Option<int>): Client {
    match payload
    case Some(p) => Received(c, Item(MoreAvailable, Payload(p)))
    case None => if Cancelled(c).None? then c else Cancelled(c).value
  }

  function TimerFired(c: Client): Client {
    c.(timedout := true, queue := if c.timer then c.queue + [TIMEOUT_ITEM] else c.queue)
  }

  function AbortCalled(c: Client, sent: bool): Client {
    if !Running(HeadStatus(c)) || !sent then c else Received(c, Item(Aborted, NoBody))
  }

  /** Credits granted by a continue call. */
  function Grant(c: Client): int {
    if Running(HeadStatus(c)) && c.consumer == c.producer then c.prefetch else 0
  }

  function ContinueCalled(c: Client, sent: bool): Client
    requires c.queue != []
  {
    if !Running(HeadStatus(c)) then c
    else
      var failed := c.consumer == c.producer && !sent;
      var queue := if failed then c.queue + [Item(Error, SendFailed)] else c.queue;
      c.(queue := queue[1..], producer := c.producer + Grant(c), consumer := c.consumer + 1)
  }

  function Freed(c: Client): Client {
    c.(timer := c.timer && c.timedout, queue := [])
  }

  class Call {
    var timer: bool
    var timedout: bool
    var queue: seq<Item>
    var consumer: int
    var producer: int
    var prefetch: int

    function View(): Client
      reads this
    {
      Client(timer, timedout, queue, consumer, producer, prefetch)
    }

    constructor ()
      ensures View() == NEW_CALL
    {
      timer, timedout, queue, consumer, producer, prefetch := true, false, [], 0, 0, 1;
    }

    /** cancel_timeout_locked. */
    method CancelTimeout() returns (ret: int)
      modifies this`timer
      ensures ret == 0 <==> Cancelled(old(View())).Some?
      ensures View() == if ret == 0 then Cancelled(old(View())).value else old(View())
    {
      if timer {
        if timedout { return -1; }
        timer := false;
      }
      return 0;
    }

    /** The common course of on_rpc_response, on_rpc_start_stream, on_rpc_end, on_rpc_error and of the
        sweep of rpc_close. */
    method Receive(item: Item)
      modifies this
      ensures View() == Received(old(View()), item)
    {
      var ret := CancelTimeout();
      if ret != 0 { return; }
      queue := queue + [item];
    }

    /** on_rpc_fragment: a frame without a payload still cancels the timer. */
    method ReceiveFragment(payload: Option<int>)
      modifies this
      ensures View() == FragmentReceived(old(View()), payload)
    {
      var ret := CancelTimeout();
      if ret != 0 { return; }
      if payload.None? { return; }
      queue := queue + [Item(MoreAvailable, Payload(payload.value))];
    }

    /** rpc_call_timeout. */
    method Timeout()
      modifies this
      ensures View() == TimerFired(old(View()))
    {
      timedout := true;
      if !timer { return; }
      queue := queue + [TIMEOUT_ITEM];
    }

    /** rpc_call_continue, without the wait of its synchronous form; `sent` is the outcome of sending. */
    method Continue(sent: bool) returns (ret: int, granted: int)
      requires queue != []
      modifies this
      ensures View() == ContinueCalled(old(View()), sent) && granted == Grant(old(View()))
      ensures ret == 0 ==> Running(HeadStatus(old(View()))) && (granted != 0 ==> sent)
    {
      ret, granted := 0, 0;
      var status := queue[0].status;
      if status != InProgress && status != MoreAvailable && status != StreamStart { return -1, 0; }
      if consumer == producer {
        if !sent {
          queue := queue + [Item(Error, SendFailed)];
          ret := -1;
        }
        granted := prefetch;
        producer := producer + prefetch;
      }
      consumer := consumer + 1;
      queue := queue[1..];
    }

    /** rpc_call_abort. */
    method Abort(sent: bool) returns (ret: int)
      modifies this
      ensures View() == AbortCalled(old(View()), sent)
      ensures ret == 0 <==> Running(HeadStatus(old(View()))) && sent
    {
      var status := if queue == [] then InProgress else queue[0].status;
      if status != InProgress && status != MoreAvailable && status != StreamStart { return -1; }
      if !sent { return -1; }
      var cancelled := CancelTimeout();
      if cancelled == 0 { queue := queue + [Item(Aborted, NoBody)]; }
      return 0;
    }

    /** rpc_call_free, but for the table and the references. */
    method Free()
      modifies this
      ensures View() == Freed(old(View()))
    {
      var cancelled := CancelTimeout();
      while queue != []
        invariant View() == Freed(old(View())).(queue := queue)
        decreases |queue|
      {
        queue := queue[1..];
      }
    }

    /** rpc_call_set_prefetch. */
    method SetPrefetch(n: int)
      modifies this
      ensures View() == old(View()).(prefetch := n)
    {
      prefetch := n;
    }
  }
}
