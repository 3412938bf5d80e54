// The client's end of a connection: its read chain over whole runs, and its writes.
module Connection {
  import opened Framing

  // ----- runs of one chain

  /** Bytes arrive, the next handler runs, or the pending read fails. */
  datatype Event = Arrive(chunk: seq<Byte>) | Complete | Fail

  predicate Enabled(r: Reader, e: Event) {
    match e
    case Arrive(_) => true
    case Complete => Ready(r)
    case Fail => r.phase.AwaitHeader? || r.phase.AwaitBody?
  }

  function Step(r: Reader, e: Event): Reader
    requires Enabled(r, e)
  {
    match e
    case Arrive(chunk) => Receive(r, chunk)
    case Complete => Handle(r)
    case Fail => Reader(Closed, [], r.delivered)
  }

  ghost predicate IsRun(es: seq<Event>)
    decreases |es|, 0
  {
    es == [] || (IsRun(es[..|es| - 1]) && Enabled(After(es[..|es| - 1]), es[|es| - 1]))
  }

  /** The chain after a run that starts with nothing received. */
  ghost function After(es: seq<Event>): Reader
    requires IsRun(es)
    decreases |es|, 1
  {
    if es == [] then FRESH else Step(After(es[..|es| - 1]), es[|es| - 1])
  }

  /** All bytes that arrived during a run. */
  ghost function Stream(es: seq<Event>): seq<Byte> {
    if es == [] then []
    else Stream(es[..|es| - 1]) + if es[|es| - 1].Arrive? then es[|es| - 1].chunk else []
  }

  ghost predicate Failed(es: seq<Event>) {
    Fail in es
  }

  /** However the stream is cut into chunks and handlers interleave with them,
      the chain is on the way to what the parser makes of the whole stream. */
  lemma {:induction false} ChunkIndependence(es: seq<Event>)
    requires IsRun(es)
    ensures Sane(After(es)) && After(es).delivered <= Scan(Stream(es)).delivered
    ensures !Failed(es) ==> Drain(After(es)) == Scan(Stream(es))
  {
    if es != [] {
      var before, e := es[..|es| - 1], es[|es| - 1];
      ChunkIndependence(before);
      assert Failed(es) <==> Failed(before) || e == Fail by { assert es == before + [e]; }
      var r := After(before);
      match e
      case Arrive(chunk) =>
        ScanMore(Stream(before), chunk);
        DrainReceive(r, chunk);
      case Complete =>
        assert Stream(es) == Stream(before) + [] == Stream(before);
        if Failed(before) { FailedIsClosed(before); }
      case Fail =>
        assert Stream(es) == Stream(before) + [] == Stream(before);
    }
  }

  lemma {:induction false} FailedIsClosed(es: seq<Event>)
    requires IsRun(es) && Failed(es)
    ensures After(es).phase == Closed
  {
    var before, e := es[..|es| - 1], es[|es| - 1];
    if e != Fail {
      assert es == before + [e];
      FailedIsClosed(before);
    }
  }

  /** Frames cut into any chunks: once the chain waits for more, it has handed on
      exactly the payloads, in order; before that, a prefix of them. */
  lemma FramesDelivered(es: seq<Event>, ps: seq<Payload>)
    requires IsRun(es) && (forall p <- ps :: Acceptable(p)) && Stream(es) <= Frames(ps)
    ensures After(es).delivered <= ps
    ensures Stream(es) == Frames(ps) && !Failed(es) && !Ready(After(es)) ==> After(es) == Reader(AwaitHeader, [], ps)
  {
    ChunkIndependence(es);
    ScanPrefix(Stream(es), ps);
    if Stream(es) == Frames(ps) { ScanFrames(ps); }
  }

  // ----- the client

  datatype WriteResult = Written | SizeError

  /** The client's connection: bytes written, the read chain, and whether the
      io context was stopped. */
  class Client {
    var sent: seq<Byte>
    var phase: Phase
    var unread: seq<Byte>
    var delivered: seq<Payload>
    var stopped: bool

    ghost predicate Valid()
      reads this
    {
      Sane(Chain()) && (stopped <==> phase == Closed) && (stopped ==> unread == [])
    }

    ghost function Chain(): Reader
      reads this
    {
      Reader(phase, unread, delivered)
    }

    constructor ()
      ensures Valid() && Chain() == FRESH && sent == []
    {
      sent, phase, unread, delivered, stopped := [], AwaitHeader, [], [], false;
    }

    /** Refuses an empty or oversized payload, else writes exactly one frame. */
    method Write(data: Payload) returns (r: WriteResult)
      modifies this`sent
      ensures r.Written? <==> 1 <= |data| <= 0x400_0000
      ensures sent == old(sent) + if r.Written? then Frame(data) else []
    {
      if |data| == 0 || |data| > MAX_MSG {
        return SizeError;
      }
      var framed := BuildFrame(data);
      sent := sent + framed[..];
      return Written;
    }

    method Stop()
      modifies this
      ensures phase == Closed && unread == [] && stopped && sent == old(sent) && delivered == old(delivered)
    {
      phase, unread, stopped := Closed, [], true;
    }

    method Arrived(chunk: seq<Byte>)
      requires Valid()
      modifies this
      ensures Valid() && Chain() == Step(old(Chain()), Arrive(chunk)) && sent == old(sent)
    {
      if phase != Closed {
        unread := unread + chunk;
      }
    }

    /** The handler of the header read, without or with an error. */
    method OnHeader(failed: bool)
      requires Valid() && phase == AwaitHeader && (failed || Ready(Chain()))
      modifies this
      ensures Valid() && Chain() == Step(old(Chain()), if failed then Fail else Complete) && sent == old(sent)
    {
      if failed {
        Stop();
        return;
      }
      var n := Decode(unread[..4]);
      if n == 0 || n > MAX_MSG {
        Stop();
        return;
      }
      phase, unread := AwaitBody(n), unread[4..];
    }

    /** The handler of the body read, without or with an error. */
    method OnBody(failed: bool)
      requires Valid() && phase.AwaitBody? && (failed || Ready(Chain()))
      modifies this
      ensures Valid() && Chain() == Step(old(Chain()), if failed then Fail else Complete) && sent == old(sent)
    {
      if failed {
        Stop();
        return;
      }
      var data := unread[..phase.n];
      unread := unread[phase.n..];
      delivered := delivered + [data];
      phase := Posted;
    }

    /** The posted call of read_loop. */
    method OnPosted()
      requires Valid() && phase == Posted
      modifies this
      ensures Valid() && Chain() == Step(old(Chain()), Complete) && sent == old(sent)
    {
      phase := AwaitHeader;
    }
  }
}
