// The relay server: a registry of sockets, one read chain per socket, and the
// broadcast of every payload to all others. One io thread runs every handler.
module Relay {
  import opened Basics
  import opened Framing

  type Sock = nat

  /** An outstanding continuation of a socket's read chain. */
  datatype Chain = Chain(sock: Sock, phase: Phase)

  datatype State = State(
    sockets: seq<Sock>,            // the registry
    open: set<Sock>,
    chains: seq<Chain>,            // outstanding reads and posted read_loop calls
    accepting: seq<Sock>,          // sockets of outstanding accepts
    acceptPosts: nat,              // posted acceptor calls
    next: Sock,                    // name of the next socket object
    unread: map<Sock, seq<Byte>>,  // bytes received and not yet read
    output: map<Sock, seq<Byte>>)  // bytes written to each socket

  datatype Event =
    | Accepted(i: nat)                        // accept i completes
    | AcceptFailed(i: nat)
    | AcceptorPosted                          // the posted acceptor call runs
    | Arrived(s: Sock, chunk: seq<Byte>)      // bytes arrive on an open socket
    | Completed(i: nat)                       // what chain i waits for completes
    | ReadFailed(i: nat)                      // the read of chain i fails

  /** The state after server::acceptor was called once. */
  const INITIAL := State([], {}, [], [0], 0, 1, map[], map[])

  /** find and erase: the first occurrence goes. */
  function Erase(sockets: seq<Sock>, s: Sock): seq<Sock> {
    if sockets == [] then []
    else if sockets[0] == s then sockets[1..]
    else [sockets[0]] + Erase(sockets[1..], s)
  }

  function Get(m: map<Sock, seq<Byte>>, s: Sock): seq<Byte> {
    if s in m then m[s] else []
  }

  /** The broadcast loop: one write for every open registered socket but the sender. */
  function WriteAll(targets: seq<Sock>, from: Sock, open: set<Sock>, frame: seq<Byte>, output: map<Sock, seq<Byte>>): map<Sock, seq<Byte>> {
    if targets == [] then output
    else
      var t := targets[0];
      WriteAll(targets[1..], from, open, frame,
               if t != from && t in open then output[t := Get(output, t) + frame] else output)
  }

  /** How many writes that loop starts. */
  function Writes(targets: seq<Sock>, from: Sock, open: set<Sock>): nat {
    if targets == [] then 0
    else (if targets[0] != from && targets[0] in open then 1 else 0) + Writes(targets[1..], from, open)
  }

  function Close(st: State, i: nat): State
    requires i < |st.chains|
  {
    var s := st.chains[i].sock;
    st.(open := st.open - {s}, sockets := Erase(st.sockets, s), chains := Without(st.chains, i))
  }

  function ReaderOf(st: State, i: nat): Reader
    requires i < |st.chains|
  {
    Reader(st.chains[i].phase, Get(st.unread, st.chains[i].sock), [])
  }

  predicate Enabled(st: State, e: Event) {
    match e
    case Accepted(i) => i < |st.accepting|
    case AcceptFailed(i) => i < |st.accepting|
    case AcceptorPosted => st.acceptPosts > 0
    case Arrived(s, _) => s in st.open
    case Completed(i) => i < |st.chains| && Ready(ReaderOf(st, i))
    case ReadFailed(i) => i < |st.chains| && (st.chains[i].phase.AwaitHeader? || st.chains[i].phase.AwaitBody?)
  }

  /** The payload that an event hands to the broadcast, if any. */
  function Handled(st: State, e: Event): seq<Payload>
    requires Enabled(st, e)
  {
    if e.Completed? && st.chains[e.i].phase.AwaitBody? then
      [Get(st.unread, st.chains[e.i].sock)[..st.chains[e.i].phase.n]]
    else []
  }

  function Step(st: State, e: Event): State
    requires Enabled(st, e)
  {
    match e
    case Accepted(i) =>
      var s := st.accepting[i];
      State(st.sockets + [s], st.open + {s}, st.chains + [Chain(s, AwaitHeader)], Without(st.accepting, i),
            st.acceptPosts + 1, st.next, st.unread[s := []], st.output[s := []])
    case AcceptFailed(i) => st.(accepting := Without(st.accepting, i))
    case AcceptorPosted =>
      st.(acceptPosts := st.acceptPosts - 1, accepting := st.accepting + [st.next], next := st.next + 1)
    case Arrived(s, chunk) => st.(unread := st.unread[s := Get(st.unread, s) + chunk])
    case Completed(i) => Complete(st, i)
    case ReadFailed(i) => Close(st, i)
  }

  function Complete(st: State, i: nat): State
    requires i < |st.chains| && Ready(ReaderOf(st, i))
  {
    var s, u := st.chains[i].sock, Get(st.unread, st.chains[i].sock);
    match st.chains[i].phase
    case AwaitHeader =>
      var n := Decode(u[..4]);
      var read := st.(unread := st.unread[s := u[4..]]);
      if n == 0 || n > MAX_MSG then Close(read, i)
      else read.(chains := st.chains[i := Chain(s, AwaitBody(n))])
    case AwaitBody(n) =>
      var sent := st.(unread := st.unread[s := u[n..]],
                      output := WriteAll(st.sockets, s, st.open, Frame(u[..n]), st.output));
      if s in st.open then sent.(chains := st.chains[i := Chain(s, Posted)])
      else sent.(chains := Without(st.chains, i))
    case _ => st.(chains := st.chains[i := Chain(s, AwaitHeader)])
  }

  // ----- the registry

  ghost predicate NoDuplicates(s: seq<Sock>) {
    forall i, j :: 0 <= i < j < |s| ==> s[i] != s[j]
  }

  /** Every open socket has exactly one outstanding continuation, a closed one has none. */
  ghost predicate OneChainEach(chains: seq<Chain>, open: set<Sock>) {
    && (forall i, j :: 0 <= i < j < |chains| ==> chains[i].sock != chains[j].sock)
    && (forall i :: 0 <= i < |chains| ==> chains[i].sock in open)
    && (forall s <- open :: exists i :: 0 <= i < |chains| && chains[i].sock == s)
  }

  ghost predicate SanePhase(p: Phase) {
    !p.Closed? && (p.AwaitBody? ==> 1 <= p.n <= MAX_MSG)
  }

  ghost predicate Registry(st: State) {
    && NoDuplicates(st.sockets)
    && (forall s :: s in st.sockets <==> s in st.open)
    && OneChainEach(st.chains, st.open)
    && (forall i :: 0 <= i < |st.chains| ==> SanePhase(st.chains[i].phase))
    && |st.accepting| + st.acceptPosts <= 1
    && (forall s <- st.accepting :: s < st.next && s !in st.open)
    && (forall s <- st.open :: s < st.next && s in st.unread && s in st.output)
  }

  /** The first occurrence is at k, or there is none. */
  lemma {:induction false} EraseAt(sockets: seq<Sock>, s: Sock, k: nat)
    requires k <= |sockets| && s !in sockets[..k] && (k < |sockets| ==> sockets[k] == s)
    ensures Erase(sockets, s) == if k < |sockets| then sockets[..k] + sockets[k + 1..] else sockets
  {
    if k > 0 {
      assert sockets[..k][0] == sockets[0];
      assert sockets[1..][..k - 1] == sockets[..k][1..];
      EraseAt(sockets[1..], s, k - 1);
    }
  }

  lemma {:induction false} EraseRemoves(sockets: seq<Sock>, s: Sock)
    requires NoDuplicates(sockets)
    ensures NoDuplicates(Erase(sockets, s))
    ensures forall t :: t in Erase(sockets, s) <==> t in sockets && t != s
  {
    if sockets != [] {
      var rest := sockets[1..];
      EraseRemoves(rest, s);
      assert forall t :: t in sockets <==> t == sockets[0] || t in rest;
      assert sockets[0] !in rest;
      if sockets[0] != s {
        assert sockets[0] !in Erase(rest, s);
      }
    }
  }

  lemma ChainGone(chains: seq<Chain>, open: set<Sock>, i: nat)
    requires OneChainEach(chains, open) && i < |chains|
    ensures OneChainEach(Without(chains, i), open - {chains[i].sock})
  {
    var rest := Without(chains, i);
    forall s | s in open - {chains[i].sock} ensures exists k :: 0 <= k < |rest| && rest[k].sock == s {
      var j :| 0 <= j < |chains| && chains[j].sock == s;
      assert rest[if j < i then j else j - 1].sock == s;
    }
  }

  lemma ChainMoves(chains: seq<Chain>, open: set<Sock>, i: nat, p: Phase)
    requires OneChainEach(chains, open) && i < |chains|
    ensures OneChainEach(chains[i := Chain(chains[i].sock, p)], open)
  {
    var moved := chains[i := Chain(chains[i].sock, p)];
    forall s | s in open ensures exists k :: 0 <= k < |moved| && moved[k].sock == s {
      var j :| 0 <= j < |chains| && chains[j].sock == s;
      assert moved[j].sock == s;
    }
  }

  lemma ChainStarts(chains: seq<Chain>, open: set<Sock>, s: Sock)
    requires OneChainEach(chains, open) && s !in open
    ensures OneChainEach(chains + [Chain(s, AwaitHeader)], open + {s})
  {
    var more := chains + [Chain(s, AwaitHeader)];
    forall t | t in open + {s} ensures exists k :: 0 <= k < |more| && more[k].sock == t {
      if t == s {
        assert more[|chains|].sock == t;
      } else {
        var j :| 0 <= j < |chains| && chains[j].sock == t;
        assert more[j].sock == t;
      }
    }
  }

  lemma {:induction false} WriteAllKeys(targets: seq<Sock>, from: Sock, open: set<Sock>, frame: seq<Byte>, output: map<Sock, seq<Byte>>)
    ensures output.Keys <= WriteAll(targets, from, open, frame, output).Keys
  {
    if targets != [] {
      var t := targets[0];
      WriteAllKeys(targets[1..], from, open, frame, if t != from && t in open then output[t := Get(output, t) + frame] else output);
    }
  }

  /** Each registered open socket but the sender gets the frame once, nobody else anything. */
  lemma {:induction false} WriteAllExact(targets: seq<Sock>, from: Sock, open: set<Sock>, frame: seq<Byte>, output: map<Sock, seq<Byte>>, c: Sock)
    requires NoDuplicates(targets)
    ensures Get(WriteAll(targets, from, open, frame, output), c)
         == Get(output, c) + if c in targets && c != from && c in open then frame else []
  {
    if targets != [] {
      var t := targets[0];
      var next := if t != from && t in open then output[t := Get(output, t) + frame] else output;
      WriteAllExact(targets[1..], from, open, frame, next, c);
      assert t !in targets[1..];
      assert c in targets <==> c == t || c in targets[1..];
    }
  }

  lemma CloseKeeps(st: State, i: nat)
    requires Registry(st) && i < |st.chains|
    ensures Registry(Close(st, i))
  {
    EraseRemoves(st.sockets, st.chains[i].sock);
    ChainGone(st.chains, st.open, i);
  }

  lemma MoveKeeps(st: State, i: nat, p: Phase, u: seq<Byte>, output: map<Sock, seq<Byte>>)
    requires Registry(st) && i < |st.chains| && SanePhase(p) && st.output.Keys <= output.Keys
    ensures var s := st.chains[i].sock;
            Registry(st.(chains := st.chains[i := Chain(s, p)], unread := st.unread[s := u], output := output))
  {
    ChainMoves(st.chains, st.open, i, p);
  }

  /** Every step keeps the registry in agreement with the open sockets and their chains. */
  lemma RegistryStep(st: State, e: Event)
    requires Registry(st) && Enabled(st, e)
    ensures Registry(Step(st, e))
  {
    match e
    case Accepted(i) =>
      assert st.accepting[i] in st.accepting;
      ChainStarts(st.chains, st.open, st.accepting[i]);
    case ReadFailed(i) => CloseKeeps(st, i);
    case Completed(i) => CompleteKeeps(st, i);
    case _ =>
  }

  lemma CompleteKeeps(st: State, i: nat)
    requires Registry(st) && i < |st.chains| && Ready(ReaderOf(st, i))
    ensures Registry(Complete(st, i))
  {
    var s, u := st.chains[i].sock, Get(st.unread, st.chains[i].sock);
    match st.chains[i].phase
    case AwaitHeader =>
      var n := Decode(u[..4]);
      if n == 0 || n > MAX_MSG {
        CloseKeeps(st.(unread := st.unread[s := u[4..]]), i);
      } else {
        MoveKeeps(st, i, AwaitBody(n), u[4..], st.output);
      }
    case AwaitBody(n) =>
      WriteAllKeys(st.sockets, s, st.open, Frame(u[..n]), st.output);
      MoveKeeps(st, i, Posted, u[n..], WriteAll(st.sockets, s, st.open, Frame(u[..n]), st.output));
    case _ => ChainMoves(st.chains, st.open, i, AwaitHeader);
  }

  lemma {:induction false} WritesMissOne(targets: seq<Sock>, from: Sock, open: set<Sock>)
    requires NoDuplicates(targets) && forall t <- targets :: t in open
    ensures Writes(targets, from, open) == if from in targets then |targets| - 1 else |targets|
  {
    if targets != [] {
      WritesMissOne(targets[1..], from, open);
      assert targets[0] !in targets[1..];
      assert from in targets <==> from == targets[0] || from in targets[1..];
    }
  }

  /** A handled frame starts exactly one write less than there are registered sockets. */
  lemma WritesPerFrame(st: State, i: nat)
    requires Registry(st) && i < |st.chains|
    ensures Writes(st.sockets, st.chains[i].sock, st.open) == |st.sockets| - 1
  {
    assert st.chains[i].sock in st.sockets;
    WritesMissOne(st.sockets, st.chains[i].sock, st.open);
  }

  // ----- who joins and who leaves

  /** The read of s fails, or completes with a bad length. */
  predicate Expels(st: State, e: Event, s: Sock)
    requires Enabled(st, e)
  {
    match e
    case ReadFailed(i) => st.chains[i].sock == s
    case Completed(i) =>
      && st.chains[i].sock == s && st.chains[i].phase.AwaitHeader?
      && BadHeader(Get(st.unread, s)[..4])
    case _ => false
  }

  /** A socket leaves when its read fails or its header is bad, and only then: a
      good header, a body and every event of another socket leave it open. */
  lemma LeavesIff(st: State, e: Event, s: Sock)
    requires Registry(st) && Enabled(st, e) && s in st.open
    ensures s !in Step(st, e).open <==> Expels(st, e, s)
    ensures s in Step(st, e).sockets <==> !Expels(st, e, s)
  {
    RegistryStep(st, e);
    if e.Completed? && st.chains[e.i].phase.AwaitHeader? {
      DecodeIsNumber(Get(st.unread, st.chains[e.i].sock)[..4]);
    }
  }

  /** A socket joins when its accept completes, and only then. */
  lemma JoinsIff(st: State, e: Event, s: Sock)
    requires Registry(st) && Enabled(st, e) && s !in st.open
    ensures s in Step(st, e).sockets <==> e.Accepted? && st.accepting[e.i] == s
  {
    RegistryStep(st, e);
  }

  // ----- the server as it runs

  class Server {
    var sockets: seq<Sock>
    var open: set<Sock>
    var chains: seq<Chain>
    var accepting: seq<Sock>
    var acceptPosts: nat
    var next: Sock
    var unread: map<Sock, seq<Byte>>
    var output: map<Sock, seq<Byte>>

    function Abs(): State
      reads this
    {
      State(sockets, open, chains, accepting, acceptPosts, next, unread, output)
    }

    /** Starts with one outstanding accept. */
    constructor ()
      ensures Abs() == INITIAL && Registry(Abs())
    {
      sockets, open, chains, accepting, acceptPosts, next := [], {}, [], [0], 0, 1;
      unread, output := map[], map[];
    }

    /** find and erase. */
    method EraseSocket(s: Sock)
      modifies this`sockets
      ensures sockets == Erase(old(sockets), s)
    {
      var k := 0;
      while k < |sockets| && sockets[k] != s
        invariant k <= |sockets| && s !in sockets[..k]
      {
        k := k + 1;
      }
      EraseAt(sockets, s, k);
      if k < |sockets| {
        sockets := sockets[..k] + sockets[k + 1..];
      }
    }

    /** Shuts a socket down and erases it from the registry. */
    method CloseSocket(i: nat)
      requires i < |chains|
      modifies this
      ensures Abs() == Close(old(Abs()), i)
    {
      var s := chains[i].sock;
      open := open - {s};
      EraseSocket(s);
      chains := Without(chains, i);
    }

    method OnAccept(i: nat, failed: bool)
      requires i < |accepting|
      modifies this
      ensures Abs() == Step(old(Abs()), if failed then AcceptFailed(i) else Accepted(i))
    {
      var s := accepting[i];
      accepting := Without(accepting, i);
      if !failed {
        open, unread, output := open + {s}, unread[s := []], output[s := []];
        sockets := sockets + [s];
        chains := chains + [Chain(s, AwaitHeader)];
        acceptPosts := acceptPosts + 1;
      }
    }

    method RunAcceptor()
      requires acceptPosts > 0
      modifies this
      ensures Abs() == Step(old(Abs()), AcceptorPosted)
    {
      acceptPosts := acceptPosts - 1;
      accepting := accepting + [next];
      next := next + 1;
    }

    method OnArrived(s: Sock, chunk: seq<Byte>)
      requires s in open
      modifies this`unread
      ensures Abs() == Step(old(Abs()), Arrived(s, chunk))
    {
      unread := unread[s := Get(unread, s) + chunk];
    }

    /** The broadcast: one frame buffer, written to all others that are open. */
    method Broadcast(from: Sock, data: Payload) returns (writes: nat)
      requires Acceptable(data)
      modifies this`output
      ensures output == WriteAll(sockets, from, open, Frame(data), old(output))
      ensures writes == Writes(sockets, from, open)
    {
      var framed := BuildFrame(data);
      writes := 0;
      for k := 0 to |sockets|
        invariant framed[..] == Frame(data)
        invariant WriteAll(sockets[k..], from, open, Frame(data), output) == WriteAll(sockets, from, open, Frame(data), old(output))
        invariant writes + Writes(sockets[k..], from, open) == Writes(sockets, from, open)
      {
        var t := sockets[k];
        assert sockets[k..][1..] == sockets[k + 1..];
        if t != from && t in open {
          output := output[t := Get(output, t) + framed[..]];
          writes := writes + 1;
        }
      }
    }

    /** The handler of chain i's header read. */
    method OnHeader(i: nat, failed: bool)
      requires i < |chains| && chains[i].phase == AwaitHeader && (failed || Ready(ReaderOf(Abs(), i)))
      modifies this
      ensures Abs() == Step(old(Abs()), if failed then ReadFailed(i) else Completed(i))
    {
      if failed {
        CloseSocket(i);
        return;
      }
      var s := chains[i].sock;
      var u := Get(unread, s);
      unread := unread[s := u[4..]];
      var n := Decode(u[..4]);
      if n == 0 || n > MAX_MSG {
        CloseSocket(i);
        return;
      }
      chains := chains[i := Chain(s, AwaitBody(n))];
    }

    /** The handler of chain i's body read. */
    method OnBody(i: nat, failed: bool) returns (writes: nat)
      requires i < |chains| && SanePhase(chains[i].phase)
      requires chains[i].phase.AwaitBody? && (failed || Ready(ReaderOf(Abs(), i)))
      modifies this
      ensures Abs() == Step(old(Abs()), if failed then ReadFailed(i) else Completed(i))
      ensures writes == if failed then 0 else Writes(old(sockets), old(chains[i].sock), old(open))
    {
      if failed {
        CloseSocket(i);
        return 0;
      }
      var s, n := chains[i].sock, chains[i].phase.n;
      var u := Get(unread, s);
      unread := unread[s := u[n..]];
      writes := Broadcast(s, u[..n]);
      chains := if s in open then chains[i := Chain(s, Posted)] else Without(chains, i);
    }

    /** The posted read_loop call of chain i. */
    method OnPosted(i: nat)
      requires i < |chains| && chains[i].phase == Posted
      modifies this
      ensures Abs() == Step(old(Abs()), Completed(i))
    {
      chains := chains[i := Chain(chains[i].sock, AwaitHeader)];
    }
  }
}
