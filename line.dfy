/**
  A worker line of src/server/line/line.rs: the sending half of a bounded
  channel of capacity two whose receiving half a worker thread drains. The
  thread is not modelled as a thread: its steps are methods the environment
  calls.
 */
module Lines {
  import opened Wrappers
  import opened Handlers

  /** `SYNC_CHANNEL_BUFFER_SIZE`: how many items the channel holds that the worker has not taken. */
  const BufferSize: nat := 2

  /** What travels down the channel (`Option<TcpStream>`): a stream, or the `None` that ends the worker. */
  datatype Item = Stream(id: StreamId) | Sentinel

  /** `SendError`. */
  datatype SendError = LineBusy | Disconnected

  /** The `Display` text of a send error. */
  function ErrorText(e: SendError): (t: string)
    ensures |t| > 10 && t[..10] == "SendError:"
  {
    match e
    case LineBusy => "SendError:LineBusy"
    case Disconnected => "SendError::DisConnected"
  }

  /** The two texts tell the errors apart. */
  lemma ErrorTextInjective(a: SendError, b: SendError)
    ensures ErrorText(a) == ErrorText(b) <==> a == b
  {
    if a != b {
      assert ErrorText(a)[10] != ErrorText(b)[10];
    }
  }

  /**
    The answer of `try_send` for a channel holding `queued` untaken items:
    `Disconnected` once the receiver is gone, `LineBusy` when the buffer is
    full, and acceptance (`None`) otherwise.
   */
  function Readiness(queued: nat, closed: bool): (r: Option<SendError>)
    ensures r == None <==> !closed && queued < BufferSize
    ensures r == Some(Disconnected) <==> closed
  {
    if closed then Some(Disconnected)
    else if queued >= BufferSize then Some(LineBusy)
    else None
  }

  /** The result of `Line::send`: accepted, or refused with the same stream handed back. */
  datatype SendResult = Sent | Refused(stream: StreamId, error: SendError)

  /** The streams of a run of channel items, in order. */
  function Streams(items: seq<Item>): (ss: seq<StreamId>)
    ensures |ss| <= |items|
  {
    if items == [] then []
    else (if items[0].Stream? then [items[0].id] else []) + Streams(items[1..])
  }

  /** A stream is listed exactly when it is among the items. */
  lemma {:induction false} StreamsMembers(items: seq<Item>, s: StreamId)
    ensures s in Streams(items) <==> Stream(s) in items
  {
    if items != [] {
      StreamsMembers(items[1..], s);
      assert items == [items[0]] + items[1..];
    }
  }

  /** Streams put at the back come out at the back. */
  lemma {:induction false} StreamsSnoc(items: seq<Item>, s: StreamId)
    ensures Streams(items + [Stream(s)]) == Streams(items) + [s]
  {
    if items == [] {
      assert [Stream(s)][1..] == [];
    } else {
      var rest := items[1..];
      assert (items + [Stream(s)])[0] == items[0];
      assert (items + [Stream(s)])[1..] == rest + [Stream(s)];
      StreamsSnoc(rest, s);
    }
  }

  /** The sentinel adds no stream. */
  lemma {:induction false} StreamsSentinel(items: seq<Item>)
    ensures Streams(items + [Sentinel]) == Streams(items)
  {
    if items == [] {
      assert [Sentinel][1..] == [];
    } else {
      var rest := items[1..];
      assert (items + [Sentinel])[0] == items[0];
      assert (items + [Sentinel])[1..] == rest + [Sentinel];
      StreamsSentinel(rest);
    }
  }

  /** The outcome of dropping a line. */
  datatype DropResult =
    | Queued     // the sentinel went into the channel
    | Waiting    // the buffer is full: the blocking `send(None)` waits for the worker
    | Logged     // the receiver is gone: the failure is only logged

  /** `Line`: the sender, with the channel's contents and the worker's progress. */
  class Line {
    /** Items sent and not yet taken by the worker, oldest first. */
    var buffer: seq<Item>
    /** The worker has ended and its receiver is gone. */
    var closed: bool
    /** `Drop` has put the sentinel in, or found the receiver gone: the line takes no more streams. */
    var dropped: bool
    /** The streams the worker has taken, in the order it took them. */
    var handled: seq<StreamId>
    /** The streams left in the buffer when the worker ended early. */
    var lost: seq<StreamId>
    /** Every stream the line accepted, in order. */
    ghost var accepted: seq<StreamId>

    /**
      At most two items wait, the sentinel comes only last and only after
      `Drop`, a closed channel is empty, and the streams come out in the
      order they went in.
     */
    ghost predicate Valid()
      reads this
    {
      && |buffer| <= BufferSize
      && (buffer == [] || Sentinel !in buffer[..|buffer| - 1])
      && (Sentinel in buffer ==> dropped)
      && (closed ==> buffer == [])
      && (!closed ==> lost == [])
      && accepted == handled + lost + Streams(buffer)
    }

    /** What `try_send` would answer now. */
    function Answer(): Option<SendError>
      reads this
    {
      Readiness(|buffer|, closed)
    }

    /** `Line::new`: an empty channel and a worker waiting on it. */
    constructor()
      ensures Valid() && buffer == [] && !closed && !dropped
      ensures handled == [] && lost == [] && accepted == []
    {
      buffer := [];
      closed := false;
      dropped := false;
      handled := [];
      lost := [];
      accepted := [];
    }

    /** `Line::send`: the stream is queued when there is room; otherwise it comes back with the reason. */
    method Send(s: StreamId) returns (r: SendResult)
      requires Valid() && !dropped
      modifies this
      ensures Valid() && !dropped
      ensures r == (match old(Answer()) case None => Sent case Some(e) => Refused(s, e))
      ensures r == Sent ==> buffer == old(buffer) + [Stream(s)] && accepted == old(accepted) + [s]
      ensures r == Sent ==> closed == old(closed) && handled == old(handled) && lost == old(lost)
      ensures r != Sent ==> unchanged(this)
    {
      if closed {
        return Refused(s, Disconnected);
      }
      if |buffer| >= BufferSize {
        return Refused(s, LineBusy);
      }
      StreamsSnoc(buffer, s);
      buffer := buffer + [Stream(s)];
      accepted := accepted + [s];
      r := Sent;
    }

    /**
      One turn of the worker's `for stream in r` loop: it takes the oldest
      item; a stream is handled, the sentinel ends the loop and with it the
      receiver.
     */
    method WorkerStep() returns (taken: Item)
      requires Valid() && buffer != []
      modifies this
      ensures Valid()
      ensures taken == old(buffer[0])
      ensures taken.Stream? ==> buffer == old(buffer[1..]) && handled == old(handled) + [taken.id] && !closed
      ensures taken == Sentinel ==> buffer == [] && closed && handled == old(handled)
      ensures lost == old(lost) && accepted == old(accepted) && dropped == old(dropped)
    {
      taken := buffer[0];
      assert buffer == [taken] + buffer[1..];
      if taken.Stream? {
        handled := handled + [taken.id];
        buffer := buffer[1..];
      } else {
        assert |buffer| == 1;
        assert Streams(buffer) == [];
        buffer := [];
        closed := true;
      }
    }

    /** The worker thread ends without the sentinel (its handler panicked): the receiver is gone with what it held. */
    method WorkerStops()
      requires Valid() && !closed
      modifies this
      ensures Valid() && closed && buffer == []
      ensures lost == Streams(old(buffer)) && handled == old(handled)
      ensures accepted == old(accepted) && dropped == old(dropped)
    {
      lost := Streams(buffer);
      buffer := [];
      closed := true;
    }

    /** `Drop for Line`: the sentinel is sent; a full buffer makes the sender wait, a gone receiver only logs. */
    method Drop() returns (r: DropResult)
      requires Valid() && !dropped
      modifies this
      ensures Valid()
      ensures old(closed) ==> r == Logged && dropped && buffer == old(buffer)
      ensures !old(closed) && old(|buffer|) == BufferSize ==> r == Waiting && !dropped && buffer == old(buffer)
      ensures !old(closed) && old(|buffer|) < BufferSize ==> r == Queued && dropped && buffer == old(buffer) + [Sentinel]
      ensures closed == old(closed) && handled == old(handled) && lost == old(lost) && accepted == old(accepted)
    {
      if closed {
        dropped := true;
        return Logged;
      }
      if |buffer| == BufferSize {
        return Waiting;
      }
      StreamsSentinel(buffer);
      buffer := buffer + [Sentinel];
      dropped := true;
      r := Queued;
    }
  }

  /**
    The busy-line test: the first stream is taken by the worker and held, two
    more fill the buffer, the fourth is refused as busy, and once the worker
    takes the next one a fifth is accepted.
   */
  method BusyScenario() returns (r1: SendResult, r2: SendResult, r3: SendResult, r4: SendResult, r5: SendResult)
    ensures r1 == Sent && r2 == Sent && r3 == Sent && r5 == Sent
    ensures r4 == Refused(4, LineBusy)
  {
    var l := new Line();
    r1 := l.Send(1);
    var t := l.WorkerStep();
    r2 := l.Send(2);
    r3 := l.Send(3);
    r4 := l.Send(4);
    t := l.WorkerStep();
    r5 := l.Send(5);
  }

  /** A line handles what it is sent in order, and dropping it ends the worker after the last stream. */
  method OrderScenario() returns (handled: seq<StreamId>, d: DropResult, closed: bool)
    ensures handled == [7, 8] && d == Queued && closed
  {
    var l := new Line();
    var r := l.Send(7);
    r := l.Send(8);
    var t := l.WorkerStep();
    d := l.Drop();
    t := l.WorkerStep();
    t := l.WorkerStep();
    handled := l.handled;
    closed := l.closed;
  }

  /** Once the worker has ended, a send is refused as disconnected and the stream handed back. */
  method DisconnectedScenario() returns (r1: SendResult, r2: SendResult, lost: seq<StreamId>)
    ensures r1 == Sent && r2 == Refused(2, Disconnected) && lost == [1]
  {
    var l := new Line();
    r1 := l.Send(1);
    l.WorkerStops();
    r2 := l.Send(2);
    lost := l.lost;
  }
}
