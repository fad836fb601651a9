/** The server's side of a streaming call. Every member but CloseInbound runs under the lock of the call. */
module ServerCall {
  datatype Frame =
    | StartFrame(seqno: int)
    | FragmentFrame(seqno: int, payload: int)
    | EndFrame(seqno: int)
    | ErrorFrame

  /** `registered`: in the table of inbound calls, where the handlers of the connection look it up. */
  datatype Server = Server(
    producer: int, consumer: int, streaming: bool, ended: bool, responded: bool, aborted: bool, registered: bool)

  /** A call as the dispatcher hands it to the method: one credit. */
  const NEW_CALL := Server(0, 1, false, false, false, false, true)

  datatype Request = StartStream | YieldFragment(payload: int) | EndStream

  /** The condition of the wait loops. */
  predicate Blocked(s: Server) {
    s.producer == s.consumer && !s.aborted
  }

  /** What a request sends once it has left its wait loop. */
  function Sent(s: Server, r: Request): seq<Frame> {
    if s.aborted then
      if s.ended || (r.EndStream? && s.responded) then [] else [ErrorFrame]
    else
      match r
      case StartStream => [StartFrame(s.producer)]
      case YieldFragment(p) => [FragmentFrame(s.producer, p)]
      case EndStream => if s.ended then [] else [EndFrame(s.producer)]
  }

  /** The call after a request, whatever became of the frame: the outcome of sending is not looked at. */
  function Served(s: Server, r: Request): Server {
    if s.aborted then
      if Sent(s, r) == [] then s else s.(ended := true, responded := true)
    else
      s.(producer := s.producer + 1, streaming := true, ended := s.ended || r.EndStream?)
  }

  /** The call after it has left the table. */
  function Unregistered(s: Server): Server {
    s.(registered := false)
  }

  function Credited(s: Server, increment: int): Server {
    if s.registered then s.(consumer := s.consumer + increment) else s
  }

  function AbortedByPeer(s: Server): Server {
    if s.registered then s.(ended := true, aborted := true) else s
  }

  class Call {
    var producer: int
    var consumer: int
    var streaming: bool
    var ended: bool
    var responded: bool
    var aborted: bool
    var registered: bool

    /** Wake-ups not yet taken, and the frames handed to the connection. */
    var signals: nat
    var out: seq<Frame>

    function View(): Server
      reads this
    {
      Server(producer, consumer, streaming, ended, responded, aborted, registered)
    }

    constructor ()
      ensures View() == NEW_CALL && out == [] && signals == 0
    {
      producer, consumer, streaming, ended, responded, aborted := 0, 1, false, false, false, false;
      registered := true;
      signals, out := 0, [];
    }

    /** rpc_function_error_impl. */
    method SendError()
      modifies this`responded, this`out
      ensures responded && out == old(out) + [ErrorFrame]
    {
      out := out + [ErrorFrame];
      responded := true;
    }

    /** rpc_function_start_stream_impl, from where its wait loop is left. */
    method Start() returns (ret: int)
      requires !Blocked(View())
      modifies this
      ensures View() == Served(old(View()), StartStream) && out == old(out) + Sent(old(View()), StartStream)
      ensures signals == old(signals) && (ret == 0 <==> !aborted)
    {
      if aborted {
        if !ended {
          SendError();
          ended := true;
        }
        return -1;
      }
      out := out + [StartFrame(producer)];
      producer := producer + 1;
      streaming := true;
      return 0;
    }

    /** rpc_function_yield_impl, from where its wait loop is left. */
    method Yield(payload: int) returns (ret: int)
      requires !Blocked(View())
      modifies this
      ensures View() == Served(old(View()), YieldFragment(payload))
      ensures out == old(out) + Sent(old(View()), YieldFragment(payload))
      ensures signals == old(signals) && (ret == 0 <==> !aborted)
    {
      if aborted {
        if !ended {
          SendError();
          ended := true;
        }
        return -1;
      }
      out := out + [FragmentFrame(producer, payload)];
      producer := producer + 1;
      streaming := true;
      return 0;
    }

    /** rpc_function_end_impl, from where its wait loop is left to where it lets go of the lock. */
    method End()
      requires !Blocked(View())
      modifies this
      ensures View() == Served(old(View()), EndStream) && out == old(out) + Sent(old(View()), EndStream)
      ensures signals == old(signals)
    {
      if aborted {
        if !ended && !responded {
          SendError();
          ended := true;
        }
        return;
      }
      if !ended { out := out + [EndFrame(producer)]; }
      producer := producer + 1;
      streaming := true;
      ended := true;
    }

    /** rpc_connection_close_inbound_call, but for the references: what rpc_function_end_impl does last. */
    method CloseInbound()
      modifies this`registered
      ensures View() == Unregistered(old(View()))
    {
      registered := false;
    }

    /** on_rpc_continue: of a call that is not in the table nothing happens. */
    method OnContinue(increment: int)
      modifies this`consumer, this`signals
      ensures View() == Credited(old(View()), increment) && signals == old(signals) + if registered then 1 else 0
    {
      if !registered { return; }
      consumer := consumer + increment;
      signals := signals + 1;
    }

    /** on_rpc_abort. */
    method OnAbort()
      modifies this`ended, this`aborted, this`signals
      ensures View() == AbortedByPeer(old(View())) && signals == old(signals) + if registered then 1 else 0
    {
      if !registered { return; }
      ended := true;
      aborted := true;
      signals := signals + 1;
    }

    /** rpc_function_kill_impl, and the sweep of rpc_close over the inbound calls. */
    method Kill()
      modifies this`aborted, this`signals
      ensures View() == old(View()).(aborted := true) && signals == old(signals) + 1
    {
      aborted := true;
      signals := signals + 1;
    }
  }
}
