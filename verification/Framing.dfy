// Length-prefixed frames: writing them, and the read chain that takes them apart.
module Framing {

  type Byte = b: int | 0 <= b < 0x100

  const MAX_MSG: nat := 64 * 1024 * 1024

  // ----- the length prefix: shifts and masks on unsigned words are / and %

  function Encode(h: nat): (p: seq<Byte>)
    ensures |p| == 4
  {
    [h / 0x1000000 % 0x100, h / 0x10000 % 0x100, h / 0x100 % 0x100, h % 0x100]
  }

  function Decode(p: seq<Byte>): (h: nat)
    requires |p| == 4
    ensures h < 0x1_0000_0000
  {
    var a: int, b: int, c: int, d: int := p[0], p[1], p[2], p[3];
    a * 0x1000000 + b * 0x10000 + c * 0x100 + d
  }

  lemma DecodeEncode(h: nat)
    requires h < 0x1_0000_0000
    ensures Decode(Encode(h)) == h
  {
    var a, b, c := h / 0x100, h / 0x10000, h / 0x1000000;
    assert h == a * 0x100 + h % 0x100;
    assert a == b * 0x100 + a % 0x100;
    assert b == c * 0x100 + b % 0x100;
    assert c % 0x100 == c;
  }

  lemma EncodeDecode(p: seq<Byte>)
    requires |p| == 4
    ensures Encode(Decode(p)) == p
  {
    var h := Decode(p);
    var a: int, b: int, c: int, d: int := p[0], p[1], p[2], p[3];
    LowByte((a * 0x100 + b) * 0x100 + c, d);
    LowByte(a * 0x100 + b, c);
    LowByte(a, b);
    Quotients(h);
  }

  lemma LowByte(q: nat, low: Byte)
    ensures (q * 0x100 + low) / 0x100 == q && (q * 0x100 + low) % 0x100 == low
  {}

  lemma Quotients(h: nat)
    ensures h / 0x10000 == h / 0x100 / 0x100 && h / 0x1000000 == h / 0x100 / 0x100 / 0x100
  {}

  /** The number that digits to the base 0x100 spell, the first one highest. */
  function Number(digits: seq<Byte>): nat {
    if digits == [] then 0 else Number(digits[..|digits| - 1]) * 0x100 + digits[|digits| - 1]
  }

  /** The prefix is read most significant byte first. */
  lemma DecodeIsNumber(p: seq<Byte>)
    requires |p| == 4
    ensures Decode(p) == Number(p)
  {
    assert p[..3][..2] == p[..2] && p[..2][..1] == p[..1] && p[..1][..0] == [];
    assert Number(p[..1]) == p[0];
    assert Number(p[..2]) == Number(p[..1]) * 0x100 + p[1];
    assert Number(p[..3]) == Number(p[..2]) * 0x100 + p[2];
    assert Number(p) == Number(p[..3]) * 0x100 + p[3];
  }

  /** The first byte in which two encodings differ is lower in that of the lower number. */
  lemma EncodeOrder(g: nat, h: nat) returns (k: nat)
    requires g < h < 0x1_0000_0000
    ensures k < 4 && Encode(g)[..k] == Encode(h)[..k] && Encode(g)[k] < Encode(h)[k]
  {
    Quotients(g);
    Quotients(h);
    var g1, h1 := g / 0x100, h / 0x100;
    var g2, h2 := g1 / 0x100, h1 / 0x100;
    k := if g2 / 0x100 < h2 / 0x100 then 0 else if g2 < h2 then 1 else if g1 < h1 then 2 else 3;
    LowByte(g2 / 0x100, g2 % 0x100);
    LowByte(h2 / 0x100, h2 % 0x100);
    assert Encode(g) == [g2 / 0x100 % 0x100, g2 % 0x100, g1 % 0x100, g % 0x100];
    assert Encode(h) == [h2 / 0x100 % 0x100, h2 % 0x100, h1 % 0x100, h % 0x100];
  }

  method EncodeU32(h: nat, p: array<Byte>)
    requires h < 0x1_0000_0000 && p.Length >= 4
    modifies p
    ensures p[..4] == Encode(h) && p[4..] == old(p[4..])
  {
    p[0] := h / 0x1000000 % 0x100;
    p[1] := h / 0x10000 % 0x100;
    p[2] := h / 0x100 % 0x100;
    p[3] := h % 0x100;
  }

  // ----- frames

  type Payload = seq<Byte>

  predicate Acceptable(data: Payload) {
    1 <= |data| <= MAX_MSG
  }

  function Frame(data: Payload): seq<Byte> {
    Encode(|data|) + data
  }

  /** A frame is its payload behind four bytes that spell the payload's length. */
  lemma FrameIs(data: Payload)
    requires Acceptable(data)
    ensures var f := Frame(data); |f| == 4 + |data| && Number(f[..4]) == |data| && f[4..] == data
  {
    assert Frame(data)[..4] == Encode(|data|);
    DecodeEncode(|data|);
    DecodeIsNumber(Encode(|data|));
  }

  function Frames(ps: seq<Payload>): seq<Byte> {
    if ps == [] then [] else Frame(ps[0]) + Frames(ps[1..])
  }

  lemma {:induction false} FramesAppend(a: seq<Payload>, b: seq<Payload>)
    ensures Frames(a + b) == Frames(a) + Frames(b)
  {
    if a == [] {
      assert a + b == b;
    } else {
      assert (a + b)[1..] == a[1..] + b;
      FramesAppend(a[1..], b);
    }
  }

  lemma FramesSnoc(a: seq<Payload>, p: Payload)
    ensures Frames(a + [p]) == Frames(a) + Frame(p)
  {
    FramesAppend(a, [p]);
    assert [p][1..] == [];
  }

  /** Fills one buffer with the prefix and the payload. */
  method BuildFrame(data: Payload) returns (framed: array<Byte>)
    requires Acceptable(data)
    ensures fresh(framed) && framed[..] == Frame(data)
  {
    framed := new Byte[4 + |data|];
    EncodeU32(|data|, framed);
    for i := 0 to |data|
      invariant framed[..4] == Encode(|data|)
      invariant framed[4..4 + i] == data[..i]
    {
      framed[4 + i] := data[i];
      assert framed[4..4 + i + 1] == framed[4..4 + i] + [data[i]];
      assert data[..i + 1] == data[..i] + [data[i]];
    }
    assert framed[..] == framed[..4] + framed[4..];
  }

  // ----- the read chain

  /** What the chain of one socket waits for. */
  datatype Phase = AwaitHeader | AwaitBody(n: nat) | Posted | Closed

  /** A chain, the bytes received and not yet read, and what was handed on. */
  datatype Reader = Reader(phase: Phase, unread: seq<Byte>, delivered: seq<Payload>)

  const FRESH := Reader(AwaitHeader, [], [])

  /** A read completes only when its buffer is full. */
  predicate Ready(r: Reader) {
    match r.phase
    case AwaitHeader => |r.unread| >= 4
    case AwaitBody(n) => |r.unread| >= n
    case Posted => true
    case Closed => false
  }

  /** The completion handler of whatever the chain waits for. */
  function Handle(r: Reader): Reader
    requires Ready(r)
  {
    match r.phase
    case AwaitHeader =>
      var n := Decode(r.unread[..4]);
      if n == 0 || n > MAX_MSG then Reader(Closed, [], r.delivered)
      else r.(phase := AwaitBody(n), unread := r.unread[4..])
    case AwaitBody(n) => Reader(Posted, r.unread[n..], r.delivered + [r.unread[..n]])
    case Posted => r.(phase := AwaitHeader)
  }

  ghost predicate Sane(r: Reader) {
    r.phase.AwaitBody? ==> 1 <= r.phase.n <= MAX_MSG
  }

  function Rank(p: Phase): nat {
    match p
    case Closed => 0
    case AwaitBody(_) => 1
    case AwaitHeader => 2
    case Posted => 3
  }

  /** The chain runs until it waits for bytes that are not there. */
  function Drain(r: Reader): (d: Reader)
    requires Sane(r)
    ensures Sane(d) && !Ready(d)
    ensures r.delivered <= d.delivered
    decreases |r.unread|, Rank(r.phase)
  {
    if !Ready(r) then r else
      var h := Handle(r);
      assert r.delivered <= h.delivered;
      Drain(h)
  }

  function Receive(r: Reader, chunk: seq<Byte>): Reader {
    if r.phase.Closed? then r else r.(unread := r.unread + chunk)
  }

  /** The reference: a parser run on the whole stream at once. */
  function Scan(stream: seq<Byte>): (d: Reader)
    ensures Sane(d) && !Ready(d)
  {
    Drain(Receive(FRESH, stream))
  }

  /** Bytes that arrive later might as well have been there from the start. */
  lemma {:induction false} DrainReceive(r: Reader, chunk: seq<Byte>)
    requires Sane(r)
    ensures Drain(Receive(Drain(r), chunk)) == Drain(Receive(r, chunk))
    decreases |r.unread|, Rank(r.phase)
  {
    if Ready(r) {
      HandleReceive(r, chunk);
      DrainReceive(Handle(r), chunk);
    }
  }

  /** A handler that could run before more bytes arrive does the same after. */
  lemma HandleReceive(r: Reader, chunk: seq<Byte>)
    requires Sane(r) && Ready(r)
    ensures Ready(Receive(r, chunk)) && Handle(Receive(r, chunk)) == Receive(Handle(r), chunk)
  {
    var u := r.unread + chunk;
    match r.phase
    case AwaitHeader => assert u[..4] == r.unread[..4] && u[4..] == r.unread[4..] + chunk;
    case AwaitBody(n) => assert u[..n] == r.unread[..n] && u[n..] == r.unread[n..] + chunk;
    case Posted =>
  }

  lemma ReceiveTwice(r: Reader, a: seq<Byte>, b: seq<Byte>)
    ensures Receive(Receive(r, a), b) == Receive(r, a + b)
  {}

  lemma ScanMore(stream: seq<Byte>, chunk: seq<Byte>)
    ensures Scan(stream + chunk) == Drain(Receive(Scan(stream), chunk))
    ensures Scan(stream).delivered <= Scan(stream + chunk).delivered
  {
    ReceiveTwice(FRESH, stream, chunk);
    DrainReceive(Receive(FRESH, stream), chunk);
  }

  // ----- the parser inverts framing

  /** One frame, whatever follows it. */
  lemma DrainFrame(data: Payload, more: seq<Byte>, delivered: seq<Payload>)
    requires Acceptable(data)
    ensures Drain(Reader(AwaitHeader, Frame(data) + more, delivered)) == Drain(Reader(AwaitHeader, more, delivered + [data]))
  {
    var n := |data|;
    DecodeEncode(n);
    var r0 := Reader(AwaitHeader, Frame(data) + more, delivered);
    assert r0.unread[..4] == Encode(n) && r0.unread[4..] == data + more;
    var r1 := Handle(r0);
    assert r1 == Reader(AwaitBody(n), data + more, delivered);
    assert (data + more)[..n] == data && (data + more)[n..] == more;
    var r2 := Handle(r1);
    assert r2 == Reader(Posted, more, delivered + [data]);
    assert Drain(r0) == Drain(r1) && Drain(r1) == Drain(r2) && Drain(r2) == Drain(Handle(r2));
  }

  lemma {:induction false} DrainFrames(ps: seq<Payload>, more: seq<Byte>, delivered: seq<Payload>)
    requires forall p <- ps :: Acceptable(p)
    ensures Drain(Reader(AwaitHeader, Frames(ps) + more, delivered)) == Drain(Reader(AwaitHeader, more, delivered + ps))
  {
    if ps == [] {
      assert delivered + [] == delivered && [] + more == more;
    } else {
      var rest := Frames(ps[1..]) + more;
      assert Frames(ps) + more == Frame(ps[0]) + rest;
      DrainFrame(ps[0], rest, delivered);
      DrainFrames(ps[1..], more, delivered + [ps[0]]);
      assert delivered + [ps[0]] + ps[1..] == delivered + ps;
    }
  }

  /** Parsing frames gives back the payloads and waits for the next frame. */
  lemma ScanFrames(ps: seq<Payload>)
    requires forall p <- ps :: Acceptable(p)
    ensures Scan(Frames(ps)) == Reader(AwaitHeader, [], ps)
  {
    assert [] + Frames(ps) == Frames(ps) + [];
    DrainFrames(ps, [], []);
    assert [] + ps == ps;
  }

  /** A length of 0 or above the limit. */
  predicate BadHeader(p: seq<Byte>) {
    |p| == 4 && (Number(p) == 0 || Number(p) > 0x400_0000)
  }

  /** A bad length closes the chain: the payloads before it were handed on, and
      nothing after it is. */
  lemma ScanBadHeader(ps: seq<Payload>, p: seq<Byte>, more: seq<Byte>)
    requires (forall q <- ps :: Acceptable(q)) && BadHeader(p)
    ensures Scan(Frames(ps) + p + more) == Reader(Closed, [], ps)
  {
    var stream := Frames(ps) + (p + more);
    assert [] + (Frames(ps) + p + more) == stream;
    DrainFrames(ps, p + more, []);
    assert [] + ps == ps && (p + more)[..4] == p;
    DecodeIsNumber(p);
    var r := Reader(AwaitHeader, p + more, ps);
    assert Drain(r) == Drain(Handle(r)) == Handle(r);
  }

  /** A stream of frames, however short it is cut, never closes the chain. */
  lemma FramesStayOpen(stream: seq<Byte>, ps: seq<Payload>)
    requires (forall p <- ps :: Acceptable(p)) && stream <= Frames(ps)
    ensures !Scan(stream).phase.Closed?
  {
    var rest := Frames(ps)[|stream|..];
    assert stream + rest == Frames(ps);
    ScanMore(stream, rest);
    ScanFrames(ps);
  }

  /** Of a stream that is cut short, a prefix of the payloads is delivered. */
  lemma ScanPrefix(stream: seq<Byte>, ps: seq<Payload>)
    requires (forall p <- ps :: Acceptable(p)) && stream <= Frames(ps)
    ensures Scan(stream).delivered <= ps
  {
    var rest := Frames(ps)[|stream|..];
    assert stream + rest == Frames(ps);
    ScanMore(stream, rest);
    ScanFrames(ps);
  }
}
