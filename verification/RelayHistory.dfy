// What clients get over whole runs of the relay: one order of frames for all.
module RelayHistory {
  import opened Basics
  import opened Framing
  import opened Relay
  import C = Connection

  /** A frame handled by the server: who sent it and what it carried. */
  datatype Msg = Msg(sender: Sock, payload: Payload)

  /** A state together with what happened before it: the handled frames in
      order, the length of that log when each socket joined and left the
      registry, and all bytes that arrived on each socket. */
  datatype World = World(st: State, log: seq<Msg>, joined: map<Sock, nat>, left: map<Sock, nat>, received: map<Sock, seq<Byte>>)

  const START := World(INITIAL, [], map[], map[], map[])

  /** The socket an event is about, if it is about a chain or an accept. */
  function Subject(st: State, e: Event): Sock
    requires Enabled(st, e)
  {
    match e
    case Accepted(i) => st.accepting[i]
    case AcceptFailed(i) => st.accepting[i]
    case AcceptorPosted => 0
    case Arrived(s, _) => s
    case Completed(i) => st.chains[i].sock
    case ReadFailed(i) => st.chains[i].sock
  }

  function Record(w: World, e: Event): World
    requires Enabled(w.st, e)
  {
    var st, s, got := Step(w.st, e), Subject(w.st, e), Handled(w.st, e);
    World(st,
          if got == [] then w.log else w.log + [Msg(s, got[0])],
          if e.Accepted? then w.joined[s := |w.log|] else w.joined,
          if (e.Completed? || e.ReadFailed?) && s !in st.open then w.left[s := |w.log|] else w.left,
          if e.Accepted? then w.received[s := []]
          else if e.Arrived? then w.received[s := Get(w.received, s) + e.chunk] else w.received)
  }

  ghost predicate IsRun(es: seq<Event>)
    decreases |es|, 0
  {
    es == [] || (IsRun(es[..|es| - 1]) && Enabled(After(es[..|es| - 1]).st, es[|es| - 1]))
  }

  ghost function After(es: seq<Event>): World
    requires IsRun(es)
    decreases |es|, 1
  {
    if es == [] then START else Record(After(es[..|es| - 1]), es[|es| - 1])
  }

  // ----- reading the log

  /** The payloads that others than c sent, in log order. */
  function Others(log: seq<Msg>, c: Sock): seq<Payload> {
    if log == [] then []
    else if log[0].sender != c then [log[0].payload] + Others(log[1..], c)
    else Others(log[1..], c)
  }

  /** The payloads that s sent, in log order. */
  function Own(log: seq<Msg>, s: Sock): seq<Payload> {
    if log == [] then []
    else if log[0].sender == s then [log[0].payload] + Own(log[1..], s)
    else Own(log[1..], s)
  }

  lemma {:induction false} OthersAppend(a: seq<Msg>, b: seq<Msg>, c: Sock)
    ensures Others(a + b, c) == Others(a, c) + Others(b, c)
  {
    if a == [] {
      assert a + b == b;
    } else {
      assert (a + b)[1..] == a[1..] + b;
      OthersAppend(a[1..], b, c);
    }
  }

  lemma {:induction false} OwnAppend(a: seq<Msg>, b: seq<Msg>, s: Sock)
    ensures Own(a + b, s) == Own(a, s) + Own(b, s)
  {
    if a == [] {
      assert a + b == b;
    } else {
      assert (a + b)[1..] == a[1..] + b;
      OwnAppend(a[1..], b, s);
    }
  }

  // ----- the invariant

  /** Where c's membership ends in the log: now, unless it has left. */
  function End(w: World, c: Sock): nat {
    if c in w.left then w.left[c] else |w.log|
  }

  /** Who is open, who joined when, and who left when. */
  ghost predicate Membership(w: World) {
    && (forall s :: s in w.st.open <==> s in w.joined && s !in w.left)
    && (forall s <- w.left :: s in w.joined)
    && (forall s <- w.joined :: s < w.st.next && s !in w.st.accepting)
    && (forall m <- w.log :: m.sender in w.joined && Acceptable(m.payload))
    && (forall s <- w.joined :: w.joined[s] <= End(w, s) <= |w.log|)
  }

  /** The frames handled while c was registered. */
  function Window(w: World, c: Sock): seq<Msg>
    requires c in w.joined && w.joined[c] <= End(w, c) <= |w.log|
  {
    w.log[w.joined[c]..End(w, c)]
  }

  /** Every socket was written exactly the others' frames of its membership. */
  ghost predicate Relayed(w: World)
    requires Membership(w)
  {
    forall c <- w.joined :: Get(w.st.output, c) == Frames(Others(Window(w, c), c))
  }

  /** Every chain is on the way to what the parser makes of the bytes received;
      of a socket that left, a prefix of its frames was handled. */
  ghost predicate Following(w: World) {
    && (forall c <- w.st.chains :: Follows(w, c))
    && (forall s <- w.left :: Own(w.log, s) <= Scan(Get(w.received, s)).delivered)
  }

  ghost predicate Follows(w: World, c: Chain) {
    var r := Reader(c.phase, Get(w.st.unread, c.sock), Own(w.log, c.sock));
    Sane(r) && Drain(r) == Scan(Get(w.received, c.sock))
  }

  ghost predicate Inv(w: World) {
    Registry(w.st) && Membership(w) && Relayed(w) && Following(w)
  }

  // ----- every step keeps it

  /** What a step does to the set of open sockets. */
  lemma StepOpens(st: State, e: Event)
    requires Registry(st) && Enabled(st, e)
    ensures var open, s := Step(st, e).open, Subject(st, e);
            if e.Accepted? then s in st.accepting && s !in st.open && open == st.open + {s}
            else if e.Completed? || e.ReadFailed? then
              s in st.open && open == if s in open then st.open else st.open - {s}
            else open == st.open
  {}

  /** Sockets waiting to be accepted were waiting before, or are new. */
  lemma StepAccepts(st: State, e: Event)
    requires Registry(st) && Enabled(st, e)
    ensures var st' := Step(st, e);
            && st.next <= st'.next
            && (forall a <- st'.accepting :: a in st.accepting || a == st.next)
            && (e.Accepted? ==> st'.accepting == [])
  {}

  /** Unread bytes of sockets that the event is not about stay. */
  lemma StepUnread(st: State, e: Event, t: Sock)
    requires Enabled(st, e)
    requires t != Subject(st, e) || e.AcceptFailed? || e.AcceptorPosted?
    ensures Get(Step(st, e).unread, t) == Get(st.unread, t)
  {}

  lemma HandledAcceptable(st: State, e: Event)
    requires Registry(st) && Enabled(st, e)
    ensures forall p <- Handled(st, e) :: Acceptable(p)
  {}

  lemma MembershipStep(w: World, e: Event)
    requires Registry(w.st) && Membership(w) && Enabled(w.st, e)
    ensures Membership(Record(w, e))
  {
    StepOpens(w.st, e);
    StepAccepts(w.st, e);
    LogSenders(w, e);
    JoinedStep(w, e);
    SpansStep(w, e);
  }

  lemma JoinedStep(w: World, e: Event)
    requires Registry(w.st) && Membership(w) && Enabled(w.st, e)
    ensures var v := Record(w, e); forall s <- v.joined :: s < v.st.next && s !in v.st.accepting
  {
    StepOpens(w.st, e);
    StepAccepts(w.st, e);
  }

  lemma SpansStep(w: World, e: Event)
    requires Registry(w.st) && Membership(w) && Enabled(w.st, e)
    ensures var v := Record(w, e); forall s <- v.joined :: v.joined[s] <= End(v, s) <= |v.log|
  {
    StepOpens(w.st, e);
  }

  /** Whoever is in the log has joined, and sent an acceptable payload. */
  lemma LogSenders(w: World, e: Event)
    requires Registry(w.st) && Membership(w) && Enabled(w.st, e)
    ensures forall m <- Record(w, e).log :: m.sender in Record(w, e).joined && Acceptable(m.payload)
  {
    HandledAcceptable(w.st, e);
    StepOpens(w.st, e);
  }

  /** A socket whose membership did not grow keeps its window. */
  lemma WindowKept(w: World, v: World, c: Sock)
    requires Membership(w) && Membership(v) && c in w.joined && c in v.joined
    requires w.log <= v.log && w.joined[c] == v.joined[c] && End(w, c) == End(v, c)
    ensures Window(v, c) == Window(w, c)
  {}

  lemma RelayedStep(w: World, e: Event)
    requires Inv(w) && Enabled(w.st, e) && Membership(Record(w, e))
    ensures Relayed(Record(w, e))
  {
    var v := Record(w, e);
    forall c <- v.joined ensures Get(v.st.output, c) == Frames(Others(Window(v, c), c)) {
      RelayedTo(w, e, c);
    }
  }

  lemma RelayedTo(w: World, e: Event, c: Sock)
    requires Inv(w) && Enabled(w.st, e) && Membership(Record(w, e)) && c in Record(w, e).joined
    ensures var v := Record(w, e); Get(v.st.output, c) == Frames(Others(Window(v, c), c))
  {
    if e.Accepted? && c == Subject(w.st, e) {
      AcceptedRelays(w, e);
    } else if Handled(w.st, e) != [] {
      BroadcastRelays(w, e, c);
    } else {
      QuietRelays(w, e, c);
    }
  }

  lemma AcceptedRelays(w: World, e: Event)
    requires Inv(w) && Enabled(w.st, e) && Membership(Record(w, e)) && e.Accepted?
    ensures var v, c := Record(w, e), Subject(w.st, e);
            Get(v.st.output, c) == Frames(Others(Window(v, c), c))
  {
    StepOpens(w.st, e);
    assert Window(Record(w, e), Subject(w.st, e)) == [];
  }

  /** Without a broadcast nothing is written. */
  lemma StepQuiet(st: State, e: Event, c: Sock)
    requires Enabled(st, e) && Handled(st, e) == [] && !(e.Accepted? && c == Subject(st, e))
    ensures Get(Step(st, e).output, c) == Get(st.output, c)
  {}

  lemma QuietRelays(w: World, e: Event, c: Sock)
    requires Inv(w) && Enabled(w.st, e) && Membership(Record(w, e)) && c in w.joined
    requires Handled(w.st, e) == [] && !(e.Accepted? && c == Subject(w.st, e))
    ensures var v := Record(w, e); Get(v.st.output, c) == Frames(Others(Window(v, c), c))
  {
    hide Frames, Others, Registry;
    StepQuiet(w.st, e, c);
    StepOpens(w.st, e);
    WindowKept(w, Record(w, e), c);
  }

  /** What a broadcast adds to a socket's output. */
  lemma StepBroadcasts(st: State, e: Event, c: Sock)
    requires Registry(st) && Enabled(st, e) && Handled(st, e) != []
    ensures var s := Subject(st, e);
            Get(Step(st, e).output, c) == if c in st.open && c != s then Get(st.output, c) + Frame(Handled(st, e)[0]) else Get(st.output, c)
  {
    WriteAllExact(st.sockets, Subject(st, e), st.open, Frame(Handled(st, e)[0]), st.output, c);
    assert Get(st.output, c) + [] == Get(st.output, c);
  }

  /** A broadcast frame extends the window of everyone open, and is written to
      everyone open but its sender. */
  lemma BroadcastRelays(w: World, e: Event, c: Sock)
    requires Inv(w) && Enabled(w.st, e) && Membership(Record(w, e)) && c in w.joined
    requires Handled(w.st, e) != []
    ensures var v := Record(w, e); Get(v.st.output, c) == Frames(Others(Window(v, c), c))
  {
    var m := Msg(Subject(w.st, e), Handled(w.st, e)[0]);
    StepBroadcasts(w.st, e, c);
    WindowExtended(w, Record(w, e), m, c);
  }

  lemma WindowExtended(w: World, v: World, m: Msg, c: Sock)
    requires Membership(w) && Membership(v) && c in w.joined
    requires v.log == w.log + [m] && v.joined == w.joined && v.left == w.left
    requires Get(w.st.output, c) == Frames(Others(Window(w, c), c))
    requires Get(v.st.output, c) == if c in w.st.open && c != m.sender then Get(w.st.output, c) + Frame(m.payload) else Get(w.st.output, c)
    ensures Get(v.st.output, c) == Frames(Others(Window(v, c), c))
  {
    if c in w.left {
      WindowKept(w, v, c);
    } else {
      WindowFrames(w.log, w.joined[c], m, c);
      assert Get(w.st.output, c) + [] == Get(w.st.output, c);
    }
  }

  lemma WindowFrames(log: seq<Msg>, from: nat, m: Msg, c: Sock)
    requires from <= |log|
    ensures Frames(Others((log + [m])[from..|log| + 1], c))
         == Frames(Others(log[from..|log|], c)) + if m.sender != c then Frame(m.payload) else []
  {
    WindowGrows(log, from, m);
    OthersFrames(log[from..|log|], m, c);
  }

  lemma WindowGrows(log: seq<Msg>, from: nat, m: Msg)
    requires from <= |log|
    ensures (log + [m])[from..|log| + 1] == log[from..|log|] + [m]
  {}

  lemma OthersFrames(log: seq<Msg>, m: Msg, c: Sock)
    ensures Frames(Others(log + [m], c)) == Frames(Others(log, c)) + if m.sender != c then Frame(m.payload) else []
  {
    OthersAppend(log, [m], c);
    assert [m][1..] == [];
    if m.sender != c {
      assert Others([m], c) == [m.payload];
      FramesSnoc(Others(log, c), m.payload);
    } else {
      assert Others(log, c) + [] == Others(log, c);
    }
  }

  lemma OwnRecorded(w: World, e: Event, s: Sock)
    requires Enabled(w.st, e)
    ensures var got := Handled(w.st, e);
            Own(Record(w, e).log, s) == if got != [] && s == Subject(w.st, e) then Own(w.log, s) + [got[0]] else Own(w.log, s)
  {
    var got := Handled(w.st, e);
    if got != [] {
      OwnAppend(w.log, [Msg(Subject(w.st, e), got[0])], s);
      assert [Msg(Subject(w.st, e), got[0])][1..] == [];
      assert Own(w.log, s) + [] == Own(w.log, s);
    }
  }

  lemma {:induction false} NeverSent(log: seq<Msg>, s: Sock)
    requires forall m <- log :: m.sender != s
    ensures Own(log, s) == []
  {
    if log != [] { NeverSent(log[1..], s); }
  }

  /** Events about other sockets leave t's bytes and its share of the log alone. */
  lemma OthersQuiet(w: World, e: Event, t: Sock)
    requires Enabled(w.st, e)
    requires t != Subject(w.st, e) || e.AcceptFailed? || e.AcceptorPosted?
    ensures var v := Record(w, e);
            Get(v.st.unread, t) == Get(w.st.unread, t) && Get(v.received, t) == Get(w.received, t)
            && Own(v.log, t) == Own(w.log, t)
  {
    OwnRecorded(w, e, t);
    StepUnread(w.st, e, t);
  }

  /** The reader that a chain is. */
  function ChainReader(w: World, c: Chain): Reader {
    Reader(c.phase, Get(w.st.unread, c.sock), Own(w.log, c.sock))
  }

  /** Closing leaves the chains of the other sockets, which stay open. */
  lemma CloseChains(st: State, k: nat, c: Chain)
    requires Registry(st) && k < |st.chains| && c in Close(st, k).chains
    ensures c in st.chains && c.sock != st.chains[k].sock && c.sock in Close(st, k).open
  {}

  /** A moved chain is the only one of its socket; the others stay. */
  lemma MovedChains(st: State, k: nat, p: Phase, c: Chain)
    requires Registry(st) && k < |st.chains| && c in st.chains[k := Chain(st.chains[k].sock, p)]
    ensures c.sock in st.open && (c.sock != st.chains[k].sock ==> c in st.chains)
  {}

  /** A read or its failure leaves the chains of other open sockets, and possibly its own. */
  lemma StepChainsRead(st: State, e: Event, c: Chain)
    requires Registry(st) && Enabled(st, e) && (e.Completed? || e.ReadFailed?) && c in Step(st, e).chains
    ensures c.sock in Step(st, e).open && (c.sock != Subject(st, e) ==> c in st.chains)
  {
    assert st.chains[e.i].sock in st.open;
    if Subject(st, e) in Step(st, e).open {
      MovedChains(st, e.i, Step(st, e).chains[e.i].phase, c);
    } else {
      CloseChains(st, e.i, c);
    }
  }

  /** Which chains a step leaves: those of other sockets, and what became of the subject's. */
  lemma StepChains(st: State, e: Event, c: Chain)
    requires Registry(st) && Enabled(st, e) && c in Step(st, e).chains
    ensures c.sock != Subject(st, e) || e.AcceptFailed? || e.AcceptorPosted? || e.Arrived? ==> c in st.chains
    ensures e.Accepted? && c.sock == Subject(st, e) ==> c.phase == AwaitHeader
    ensures e.Completed? || e.ReadFailed? ==> c.sock in Step(st, e).open
  {
    if e.Completed? || e.ReadFailed? {
      StepChainsRead(st, e, c);
    } else if e.Accepted? {
      assert st.accepting[e.i] in st.accepting;
      assert forall d <- st.chains :: d.sock in st.open;
    }
  }

  /** After its handler the subject's chain is the handled reader. */
  lemma StepHandles(st: State, k: nat, c: Chain, own: seq<Payload>)
    requires Registry(st) && Enabled(st, Completed(k))
    requires c in Step(st, Completed(k)).chains && c.sock == st.chains[k].sock
    requires c.sock in Step(st, Completed(k)).open
    ensures var r := Reader(st.chains[k].phase, Get(st.unread, c.sock), own);
            && Ready(r)
            && Handle(r) == Reader(c.phase, Get(Step(st, Completed(k)).unread, c.sock), own + Handled(st, Completed(k)))
  {}

  /** Handling a reader does not change where it is going. */
  lemma DrainHandled(w: World, c: Chain, v: World, d: Chain)
    requires Follows(w, c) && Ready(ChainReader(w, c)) && ChainReader(v, d) == Handle(ChainReader(w, c))
    requires c.sock == d.sock && Get(v.received, d.sock) == Get(w.received, c.sock)
    ensures Follows(v, d)
  {}

  lemma FollowsHandled(w: World, k: nat, c: Chain)
    requires Inv(w) && Enabled(w.st, Completed(k))
    requires c in Step(w.st, Completed(k)).chains && c.sock == w.st.chains[k].sock
    requires c.sock in Step(w.st, Completed(k)).open
    ensures Follows(Record(w, Completed(k)), c)
  {
    var e, own := Completed(k), Own(w.log, c.sock);
    assert w.st.chains[k] in w.st.chains;
    StepHandles(w.st, k, c, own);
    OwnRecorded(w, e, c.sock);
    assert own + [] == own;
    DrainHandled(w, w.st.chains[k], Record(w, e), c);
  }

  lemma FollowsArrived(w: World, e: Event, c: Chain)
    requires Inv(w) && Enabled(w.st, e) && e.Arrived? && c in w.st.chains && c.sock == e.s
    ensures Follows(Record(w, e), c)
  {
    var r := ChainReader(w, c);
    var i :| 0 <= i < |w.st.chains| && w.st.chains[i] == c;
    assert Follows(w, c) && SanePhase(w.st.chains[i].phase);
    OwnRecorded(w, e, c.sock);
    ScanMore(Get(w.received, c.sock), e.chunk);
    DrainReceive(r, e.chunk);
  }

  lemma FollowsAccepted(w: World, e: Event, c: Chain)
    requires Inv(w) && Enabled(w.st, e) && e.Accepted? && c == Chain(Subject(w.st, e), AwaitHeader)
    ensures Follows(Record(w, e), c)
  {
    StepOpens(w.st, e);
    OwnRecorded(w, e, c.sock);
    NeverSent(w.log, c.sock);
    assert Receive(FRESH, []) == FRESH;
  }

  lemma ChainFollows(w: World, e: Event, c: Chain)
    requires Inv(w) && Enabled(w.st, e) && c in Step(w.st, e).chains
    ensures Follows(Record(w, e), c)
  {
    StepChains(w.st, e, c);
    if c.sock != Subject(w.st, e) || e.AcceptFailed? || e.AcceptorPosted? {
      OthersQuiet(w, e, c.sock);
      assert Follows(w, c);
    } else if e.Accepted? {
      FollowsAccepted(w, e, c);
    } else if e.Arrived? {
      FollowsArrived(w, e, c);
    } else if e.Completed? {
      FollowsHandled(w, e.i, c);
    } else {
      StepOpens(w.st, e);
    }
  }

  /** What a departed socket sent stays; one that departs now was following. */
  lemma LeftFollows(w: World, e: Event, s: Sock)
    requires Inv(w) && Enabled(w.st, e) && s in Record(w, e).left
    ensures Own(Record(w, e).log, s) <= Scan(Get(Record(w, e).received, s)).delivered
  {
    OwnRecorded(w, e, s);
    StepOpens(w.st, e);
    if s in w.left {
      assert s != Subject(w.st, e) || e.AcceptFailed? || e.AcceptorPosted?;
      OthersQuiet(w, e, s);
    } else {
      LeavesFollowing(w, e);
    }
  }

  /** A socket whose chain ends had handled a prefix of its frames. */
  lemma LeavesFollowing(w: World, e: Event)
    requires Inv(w) && Enabled(w.st, e) && (e.Completed? || e.ReadFailed?) && Subject(w.st, e) !in Step(w.st, e).open
    ensures var s := Subject(w.st, e);
            Handled(w.st, e) == [] && Own(w.log, s) <= Scan(Get(w.received, s)).delivered
            && Get(Record(w, e).received, s) == Get(w.received, s)
  {
    assert w.st.chains[e.i].sock in w.st.open && w.st.chains[e.i] in w.st.chains;
    assert Follows(w, w.st.chains[e.i]);
  }

  lemma FollowingStep(w: World, e: Event)
    requires Inv(w) && Enabled(w.st, e)
    ensures Following(Record(w, e))
  {
    var v := Record(w, e);
    forall c | c in v.st.chains ensures Follows(v, c) {
      ChainFollows(w, e, c);
    }
    forall s <- v.left ensures Own(v.log, s) <= Scan(Get(v.received, s)).delivered {
      LeftFollows(w, e, s);
    }
  }

  /** Every reachable state satisfies the invariant, the registry included. */
  lemma {:induction false} RunInv(es: seq<Event>)
    requires IsRun(es)
    ensures Inv(After(es))
  {
    if es != [] {
      var before, e := es[..|es| - 1], es[|es| - 1];
      RunInv(before);
      RegistryStep(After(before).st, e);
      MembershipStep(After(before), e);
      RelayedStep(After(before), e);
      FollowingStep(After(before), e);
    }
  }

  /** In every reachable state the registry, the open sockets and the outstanding
      chains agree, and a handled frame starts one write per other socket. */
  lemma RegistryAlways(es: seq<Event>)
    requires IsRun(es)
    ensures var st := After(es).st;
            && Registry(st)
            && forall i :: 0 <= i < |st.chains| ==> Writes(st.sockets, st.chains[i].sock, st.open) == |st.sockets| - 1
  {
    RunInv(es);
    var st := After(es).st;
    forall i | 0 <= i < |st.chains| ensures Writes(st.sockets, st.chains[i].sock, st.open) == |st.sockets| - 1 {
      WritesPerFrame(st, i);
    }
  }

  // ----- what this means for the clients

  /** The messages of a log that c did not send itself. */
  function NotFrom(log: seq<Msg>, c: Sock): seq<Msg> {
    if log == [] then []
    else if log[0].sender != c then [log[0]] + NotFrom(log[1..], c)
    else NotFrom(log[1..], c)
  }

  function Payloads(ms: seq<Msg>): seq<Payload> {
    if ms == [] then [] else [ms[0].payload] + Payloads(ms[1..])
  }

  /** What c was sent, with the senders the bytes do not show. */
  ghost function Sent(w: World, c: Sock): seq<Msg>
    requires Membership(w) && c in w.joined
  {
    NotFrom(Window(w, c), c)
  }

  lemma {:induction false} OthersArePayloads(log: seq<Msg>, c: Sock)
    ensures Others(log, c) == Payloads(NotFrom(log, c))
  {
    if log != [] {
      OthersArePayloads(log[1..], c);
      assert ([log[0]] + NotFrom(log[1..], c))[1..] == NotFrom(log[1..], c);
    }
  }

  /** In every run, the bytes written to c are the frames of the messages that
      others sent while c was registered: each once, in the order handled. */
  lemma SentExactly(es: seq<Event>, c: Sock)
    requires IsRun(es) && c in After(es).joined
    ensures Membership(After(es)) && Get(After(es).st.output, c) == Frames(Payloads(Sent(After(es), c)))
  {
    RunInv(es);
    OthersArePayloads(Window(After(es), c), c);
  }

  lemma {:induction false} NotFromOwn(log: seq<Msg>, c: Sock, s: Sock)
    ensures Own(NotFrom(log, c), s) == if s == c then [] else Own(log, s)
  {
    if log != [] {
      NotFromOwn(log[1..], c, s);
      assert ([log[0]] + NotFrom(log[1..], c))[1..] == NotFrom(log[1..], c);
    }
  }

  /** Per-sender order: what c was sent of s is a contiguous block of what s sent,
      each once and in order; of its own frames c was sent none. */
  lemma SenderFifo(es: seq<Event>, c: Sock, s: Sock) returns (before: seq<Payload>, after: seq<Payload>)
    requires IsRun(es) && c in After(es).joined
    ensures Membership(After(es))
    ensures s == c ==> Own(Sent(After(es), c), s) == []
    ensures s != c ==> Own(After(es).log, s) == before + Own(Sent(After(es), c), s) + after
  {
    RunInv(es);
    var w := After(es);
    NotFromOwn(Window(w, c), c, s);
    OwnSplit(w.log, w.joined[c], End(w, c), s);
    before, after := Own(w.log[..w.joined[c]], s), Own(w.log[End(w, c)..], s);
  }

  lemma OwnSplit(log: seq<Msg>, i: nat, j: nat, s: Sock)
    requires i <= j <= |log|
    ensures Own(log, s) == Own(log[..i], s) + Own(log[i..j], s) + Own(log[j..], s)
  {
    assert log == log[..i] + log[i..j] + log[j..];
    OwnAppend(log[..i] + log[i..j], log[j..], s);
    OwnAppend(log[..i], log[i..j], s);
  }

  lemma {:induction false} NotFromAppend(a: seq<Msg>, b: seq<Msg>, c: Sock)
    ensures NotFrom(a + b, c) == NotFrom(a, c) + NotFrom(b, c)
  {
    if a == [] {
      assert a + b == b;
    } else {
      assert (a + b)[1..] == a[1..] + b;
      NotFromAppend(a[1..], b, c);
    }
  }

  lemma {:induction false} NotFromCommutes(log: seq<Msg>, c: Sock, d: Sock)
    ensures NotFrom(NotFrom(log, c), d) == NotFrom(NotFrom(log, d), c)
  {
    if log != [] {
      NotFromCommutes(log[1..], c, d);
      assert ([log[0]] + NotFrom(log[1..], c))[1..] == NotFrom(log[1..], c);
      assert ([log[0]] + NotFrom(log[1..], d))[1..] == NotFrom(log[1..], d);
    }
  }

  /** The frames handled while c and d were both registered. */
  ghost function Shared(w: World, c: Sock, d: Sock): seq<Msg>
    requires Membership(w) && c in w.joined && d in w.joined
  {
    var lo, hi := Max(w.joined[c], w.joined[d]), Min(End(w, c), End(w, d));
    if lo <= hi then w.log[lo..hi] else []
  }

  function Min(a: nat, b: nat): nat {
    if a <= b then a else b
  }

  lemma SharedSymmetric(w: World, c: Sock, d: Sock)
    requires Membership(w) && c in w.joined && d in w.joined
    ensures Shared(w, c, d) == Shared(w, d, c)
  {}

  lemma Slices(log: seq<Msg>, i: nat, lo: nat, hi: nat, j: nat)
    requires i <= lo <= hi <= j <= |log|
    ensures log[i..j] == log[i..lo] + log[lo..hi] + log[hi..j]
  {}

  /** What third clients sent during the shared time is one block of what either
      client was sent. */
  lemma SharedBlock(w: World, c: Sock, d: Sock) returns (before: seq<Msg>, after: seq<Msg>)
    requires Membership(w) && c in w.joined && d in w.joined
    ensures NotFrom(Sent(w, c), d) == before + NotFrom(NotFrom(Shared(w, c, d), c), d) + after
  {
    var lo, hi := Max(w.joined[c], w.joined[d]), Min(End(w, c), End(w, d));
    if lo <= hi {
      var a, b := w.log[w.joined[c]..lo], w.log[hi..End(w, c)];
      Slices(w.log, w.joined[c], lo, hi, End(w, c));
      NotFromAppend(a + Shared(w, c, d), b, c);
      NotFromAppend(a, Shared(w, c, d), c);
      NotFromAppend(NotFrom(a, c) + NotFrom(Shared(w, c, d), c), NotFrom(b, c), d);
      NotFromAppend(NotFrom(a, c), NotFrom(Shared(w, c, d), c), d);
      before, after := NotFrom(NotFrom(a, c), d), NotFrom(NotFrom(b, c), d);
    } else {
      before, after := NotFrom(Sent(w, c), d), [];
    }
  }

  /** Total order: in every run, the messages of third clients that were handled
      while c and d were both registered were sent to both as one and the same block. */
  lemma TotalOrder(es: seq<Event>, c: Sock, d: Sock) returns (block: seq<Msg>, c0: seq<Msg>, c1: seq<Msg>, d0: seq<Msg>, d1: seq<Msg>)
    requires IsRun(es) && c in After(es).joined && d in After(es).joined
    ensures Membership(After(es))
    ensures block == NotFrom(NotFrom(Shared(After(es), c, d), c), d)
    ensures NotFrom(Sent(After(es), c), d) == c0 + block + c1
    ensures NotFrom(Sent(After(es), d), c) == d0 + block + d1
  {
    RunInv(es);
    var w := After(es);
    block := NotFrom(NotFrom(Shared(w, c, d), c), d);
    c0, c1 := SharedBlock(w, c, d);
    d0, d1 := SharedBlock(w, d, c);
    SharedSymmetric(w, c, d);
    NotFromCommutes(Shared(w, c, d), c, d);
  }

  /** What was handled of a socket is a prefix of what the parser finds in its bytes. */
  lemma OwnPrefix(w: World, s: Sock)
    requires Inv(w) && s in w.joined
    ensures Own(w.log, s) <= Scan(Get(w.received, s)).delivered
  {
    if s !in w.left {
      var i :| 0 <= i < |w.st.chains| && w.st.chains[i].sock == s;
      assert Follows(w, w.st.chains[i]);
    }
  }

  /** So it is a prefix of the payloads that the socket's client wrote. */
  lemma HandledPrefix(es: seq<Event>, s: Sock, written: seq<Payload>)
    requires IsRun(es) && s in After(es).joined
    requires (forall p <- written :: Acceptable(p)) && Get(After(es).received, s) <= Frames(written)
    ensures Own(After(es).log, s) <= written
  {
    RunInv(es);
    OwnPrefix(After(es), s);
    ScanPrefix(Get(After(es).received, s), written);
  }

  /** Once all bytes a socket's client wrote have arrived and its chain waits for
      more, all payloads it wrote were handled. */
  lemma HandledAll(es: seq<Event>, s: Sock, written: seq<Payload>)
    requires IsRun(es) && AllRead(After(es), s)
    requires (forall p <- written :: Acceptable(p)) && Get(After(es).received, s) == Frames(written)
    ensures Own(After(es).log, s) == written
  {
    RunInv(es);
    var w := After(es);
    var i :| 0 <= i < |w.st.chains| && w.st.chains[i].sock == s && !Ready(ReaderOf(w.st, i));
    var c := w.st.chains[i];
    assert c in w.st.chains && Follows(w, c);
    ReadyWhateverDelivered(ReaderOf(w.st, i), ChainReader(w, c));
    assert Drain(ChainReader(w, c)) == ChainReader(w, c);
    ScanFrames(written);
  }

  /** Whether a chain can go on does not depend on what it handed on. */
  lemma ReadyWhateverDelivered(r: Reader, q: Reader)
    requires r.phase == q.phase && r.unread == q.unread
    ensures Ready(r) <==> Ready(q)
  {}

  /** The socket is open and its chain waits for bytes that are not there. */
  ghost predicate AllRead(w: World, s: Sock) {
    exists i :: 0 <= i < |w.st.chains| && w.st.chains[i].sock == s && !Ready(ReaderOf(w.st, i))
  }

  lemma {:induction false} SentAcceptable(log: seq<Msg>, c: Sock)
    requires forall m <- log :: Acceptable(m.payload)
    ensures forall p <- Payloads(NotFrom(log, c)) :: Acceptable(p)
  {
    if log != [] {
      SentAcceptable(log[1..], c);
      assert ([log[0]] + NotFrom(log[1..], c))[1..] == NotFrom(log[1..], c);
    }
  }

  /** From writer to reader, over every run of the relay and of the client's read
      chain, and every way the bytes are cut: c's handler is given a prefix of what
      it was sent, all of it once all bytes have arrived; and what it was sent of s
      is a block of a prefix of what s wrote, of all of it once all bytes of s have
      arrived at the server and its chain waits for more. */
  lemma EndToEnd(es: seq<Event>, c: Sock, inbound: seq<C.Event>, s: Sock, written: seq<Payload>)
    returns (before: seq<Payload>, after: seq<Payload>)
    requires IsRun(es) && c in After(es).joined && s in After(es).joined && s != c
    requires C.IsRun(inbound) && C.Stream(inbound) <= Get(After(es).st.output, c)
    requires (forall p <- written :: Acceptable(p)) && Get(After(es).received, s) <= Frames(written)
    ensures Membership(After(es))
    ensures C.After(inbound).delivered <= Payloads(Sent(After(es), c))
    ensures C.Stream(inbound) == Get(After(es).st.output, c) && !C.Failed(inbound) && !Ready(C.After(inbound)) ==>
              C.After(inbound).delivered == Payloads(Sent(After(es), c))
    ensures before + Own(Sent(After(es), c), s) + after <= written
    ensures AllRead(After(es), s) && Get(After(es).received, s) == Frames(written) ==>
              before + Own(Sent(After(es), c), s) + after == written
  {
    SentExactly(es, c);
    var w := After(es);
    forall m <- Window(w, c) ensures Acceptable(m.payload) { assert m in w.log; }
    SentAcceptable(Window(w, c), c);
    C.FramesDelivered(inbound, Payloads(Sent(w, c)));
    before, after := SenderFifo(es, c, s);
    HandledPrefix(es, s, written);
    if AllRead(w, s) && Get(w.received, s) == Frames(written) { HandledAll(es, s, written); }
  }

  // ----- accepting goes on, and nobody leaves without cause

  predicate AcceptHasFailed(es: seq<Event>) {
    exists k :: 0 <= k < |es| && es[k].AcceptFailed?
  }

  /** Only a failed accept is not followed by the next one. */
  lemma AcceptsStep(st: State, e: Event)
    requires Enabled(st, e)
    ensures |Step(st, e).accepting| + Step(st, e).acceptPosts
         == |st.accepting| + st.acceptPosts - if e.AcceptFailed? then 1 else 0
  {}

  lemma NoneFailed()
    ensures !AcceptHasFailed([])
  {}

  lemma AcceptFailedLast(before: seq<Event>, e: Event)
    ensures AcceptHasFailed(before + [e]) <==> AcceptHasFailed(before) || e.AcceptFailed?
  {
    var es := before + [e];
    assert es[|before|] == e;
    if AcceptHasFailed(before) {
      var k :| 0 <= k < |before| && before[k].AcceptFailed?;
      assert es[k].AcceptFailed?;
    }
  }

  /** In every run exactly one accept is outstanding or posted as long as no accept
      has failed, and none from then on. */
  lemma {:induction false} AcceptsGoOn(es: seq<Event>)
    requires IsRun(es)
    ensures |After(es).st.accepting| + After(es).st.acceptPosts == if AcceptHasFailed(es) then 0 else 1
  {
    hide Step, AcceptHasFailed;
    if es == [] {
      NoneFailed();
    } else {
      var before, e := es[..|es| - 1], es[|es| - 1];
      AcceptsGoOn(before);
      AcceptsStep(After(before).st, e);
      assert es == before + [e];
      AcceptFailedLast(before, e);
    }
  }

  /** Any number of clients can be registered at once. */
  lemma {:induction false} AnyNumberJoins(n: nat) returns (es: seq<Event>)
    ensures IsRun(es) && !AcceptHasFailed(es)
    ensures |After(es).st.sockets| == n && |After(es).st.accepting| == 1
  {
    if n == 0 {
      es := [];
    } else {
      var before := AnyNumberJoins(n - 1);
      var one := before + [Accepted(0)];
      assert one[..|one| - 1] == before;
      AcceptsGoOn(one);
      es := one + [AcceptorPosted];
      assert es[..|es| - 1] == one;
    }
  }

  /** The read of s failed at some point of the run. */
  ghost predicate ReadHasFailed(es: seq<Event>, s: Sock)
    requires IsRun(es)
  {
    es != [] && (ReadHasFailed(es[..|es| - 1], s) || FailsReadOf(After(es[..|es| - 1]).st, es[|es| - 1], s))
  }

  predicate FailsReadOf(st: State, e: Event, s: Sock)
    requires Enabled(st, e)
  {
    e.ReadFailed? && st.chains[e.i].sock == s
  }

  lemma ReceivedGrows(w: World, e: Event, s: Sock)
    requires Inv(w) && Enabled(w.st, e) && s in w.joined
    ensures s in Record(w, e).joined && Get(w.received, s) <= Get(Record(w, e).received, s)
  {
    StepOpens(w.st, e);
  }

  /** Nothing is read from a socket that has not joined. */
  lemma {:induction false} NeverRead(es: seq<Event>, s: Sock)
    requires IsRun(es) && s !in After(es).joined
    ensures !ReadHasFailed(es, s)
  {
    if es != [] {
      var before, e := es[..|es| - 1], es[|es| - 1];
      RunInv(before);
      StepOpens(After(before).st, e);
      NeverRead(before, s);
    }
  }

  /** A chain that reads a stream of frames never finds a bad header. */
  lemma GoodHeader(w: World, i: nat, written: seq<Payload>)
    requires Inv(w) && Enabled(w.st, Completed(i)) && w.st.chains[i].phase.AwaitHeader?
    requires forall p <- written :: Acceptable(p)
    requires Get(w.received, w.st.chains[i].sock) <= Frames(written)
    ensures !BadHeader(Get(w.st.unread, w.st.chains[i].sock)[..4])
  {
    var c := w.st.chains[i];
    var r := ChainReader(w, c);
    assert c in w.st.chains && Follows(w, c);
    FramesStayOpen(Get(w.received, c.sock), written);
    DecodeIsNumber(r.unread[..4]);
    assert Drain(r) == Drain(Handle(r));
  }

  /** A socket that reads a stream of frames leaves only when its read fails. */
  lemma StaysStep(w: World, e: Event, s: Sock, written: seq<Payload>)
    requires Inv(w) && Enabled(w.st, e) && s in w.st.open
    requires (forall p <- written :: Acceptable(p)) && Get(w.received, s) <= Frames(written)
    ensures s in Record(w, e).st.open <==> !FailsReadOf(w.st, e, s)
  {
    LeavesIff(w.st, e, s);
    if e.Completed? && Expels(w.st, e, s) { GoodHeader(w, e.i, written); }
  }

  /** Who has left does not come back. */
  lemma GoneStep(w: World, e: Event, s: Sock)
    requires Inv(w) && Enabled(w.st, e) && s in w.joined && s !in w.st.open
    ensures s !in Record(w, e).st.open
  {
    StepOpens(w.st, e);
  }

  lemma JoinedNow(w: World, e: Event, s: Sock)
    requires Inv(w) && Enabled(w.st, e) && s !in w.joined && s in Record(w, e).joined
    ensures s in Record(w, e).st.open && !FailsReadOf(w.st, e, s)
  {
    StepOpens(w.st, e);
  }

  /** Whose client writes only frames, stays registered until a read of its socket
      fails: however the bytes are cut, none of its headers is bad. */
  lemma {:induction false} StaysIff(es: seq<Event>, s: Sock, written: seq<Payload>)
    requires IsRun(es) && s in After(es).joined
    requires (forall p <- written :: Acceptable(p)) && Get(After(es).received, s) <= Frames(written)
    ensures s in After(es).st.sockets <==> s in After(es).st.open
    ensures s in After(es).st.open <==> !ReadHasFailed(es, s)
  {
    hide Record, FailsReadOf, Frames, Get;
    RunInv(es);
    var before, e := es[..|es| - 1], es[|es| - 1];
    var w := After(before);
    RunInv(before);
    if s in w.joined {
      ReceivedGrows(w, e, s);
      StaysIff(before, s, written);
      if s in w.st.open {
        StaysStep(w, e, s, written);
      } else {
        GoneStep(w, e, s);
      }
    } else {
      NeverRead(before, s);
      JoinedNow(w, e, s);
    }
  }

  /** So its frames are all handled once its bytes have arrived and no handler of it
      is due, unless a read of its socket failed. */
  lemma HandledUnlessFailed(es: seq<Event>, s: Sock, written: seq<Payload>)
    requires IsRun(es) && s in After(es).joined && !ReadHasFailed(es, s)
    requires (forall p <- written :: Acceptable(p)) && Get(After(es).received, s) == Frames(written)
    requires var st := After(es).st;
             forall i :: 0 <= i < |st.chains| && st.chains[i].sock == s ==> !Ready(ReaderOf(st, i))
    ensures Own(After(es).log, s) == written
  {
    RunInv(es);
    StaysIff(es, s, written);
    HandledAll(es, s, written);
  }
}
