/** Length-prefixed frames over a byte stream, written through a writer that may write short. */
module Frames {
  import opened Basics

  const MAX_FRAME_BYTES: nat := 16 * 1024 * 1024

  // ----- the 4-byte little-endian length -----

  function PutUint32(n: nat): (r: Bytes)
    requires n < 0x1_0000_0000
    ensures |r| == 4
  {
    [n % 256, n / 256 % 256, n / 65536 % 256, n / 16777216]
  }

  function Uint32(h: Bytes): (n: nat)
    requires |h| == 4
    ensures n < 0x1_0000_0000
  {
    var a: int, b: int, c: int, d: int := h[0], h[1], h[2], h[3];
    a + 256 * b + 65536 * c + 16777216 * d
  }

  /** The least significant base-256 digits of a number, lowest first. */
  function Digits(n: nat, count: nat): seq<int> {
    if count == 0 then [] else [n % 256] + Digits(n / 256, count - 1)
  }

  /** The length goes out as four base-256 digits, lowest first. */
  lemma LittleEndian(n: nat)
    requires n < 0x1_0000_0000
    ensures PutUint32(n) == Digits(n, 4)
  {
    assert Digits(n, 4) == [n % 256] + Digits(n / 256, 3);
    assert Digits(n / 256, 3) == [n / 256 % 256] + Digits(n / 256 / 256, 2);
    assert Digits(n / 256 / 256, 2) == [n / 256 / 256 % 256] + Digits(n / 256 / 256 / 256, 1);
    assert Digits(n / 256 / 256 / 256, 1) == [n / 256 / 256 / 256 % 256] + Digits(n / 256 / 256 / 256 / 256, 0);
    assert n / 256 / 256 == n / 65536 && n / 256 / 256 / 256 == n / 16777216;
  }

  lemma LengthRoundTrip(n: nat)
    requires n < 0x1_0000_0000
    ensures Uint32(PutUint32(n)) == n
  {
    assert n == 256 * (n / 256) + n % 256;
    assert n / 256 == 256 * (n / 65536) + n / 256 % 256;
    assert n / 65536 == 256 * (n / 16777216) + n / 65536 % 256;
  }

  lemma HeaderRoundTrip(h: Bytes)
    requires |h| == 4
    ensures PutUint32(Uint32(h)) == h
  {
    var a: int, b: int, c: int, d: int := h[0], h[1], h[2], h[3];
    var n := Uint32(h);
    assert n / 256 == b + 256 * c + 65536 * d && n % 256 == a;
    assert n / 256 % 256 == b;
    assert n / 65536 == c + 256 * d;
    assert n / 65536 % 256 == c;
    assert n / 16777216 == d;
    assert PutUint32(n) == [a, b, c, d];
  }

  // ----- the stream -----

  datatype IoError = FrameTooLarge | ShortWrite | Broken | UnexpectedEof

  function Frame(payload: Bytes): Bytes
    requires |payload| <= MAX_FRAME_BYTES
  {
    PutUint32(|payload|) + payload
  }

  function FrameAll(payloads: seq<Bytes>): Bytes
    requires forall p :: p in payloads ==> |p| <= MAX_FRAME_BYTES
    decreases |payloads|
  {
    if payloads == [] then [] else Frame(payloads[0]) + FrameAll(payloads[1..])
  }

  /** One `Write` call of the underlying connection: how much it takes, and whether it fails. */
  datatype Accept = Accept(n: nat, fails: bool)

  /** A connection: what went out, what can still be read, and how coming writes will behave. */
  class Conn {
    var sent: Bytes
    var incoming: Bytes
    var script: seq<Accept>

    constructor (incoming: Bytes, script: seq<Accept>)
      ensures sent == [] && this.incoming == incoming && this.script == script
    {
      sent, this.incoming, this.script := [], incoming, script;
    }

    /** The writer contract: a prefix is taken; after the script, everything is. */
    method Write(p: Bytes) returns (n: nat, fails: bool)
      modifies this`sent, this`script
      ensures n <= |p| && sent == old(sent) + p[..n]
      ensures old(script) == [] ==> n == |p| && !fails && script == []
      ensures old(script) != [] ==>
                && script == old(script)[1..] && fails == old(script)[0].fails
                && n == Min(|p|, old(script)[0].n)
    {
      if script == [] {
        n, fails := |p|, false;
        assert p[..n] == p;
      } else {
        n, fails := Min(|p|, script[0].n), script[0].fails;
        script := script[1..];
      }
      sent := sent + p[..n];
    }

    /** `io.ReadFull`: exactly `n` bytes or an error. */
    method ReadFull(n: nat) returns (r: Result<Bytes, IoError>)
      modifies this`incoming
      ensures r.Ok? <==> n <= |old(incoming)|
      ensures r.Ok? ==> r.value == old(incoming)[..n] && incoming == old(incoming)[n..]
      ensures r.Err? ==> r.error == UnexpectedEof && incoming == []
    {
      if n <= |incoming| {
        r := Ok(incoming[..n]);
        incoming := incoming[n..];
      } else {
        r := Err(UnexpectedEof);
        incoming := [];
      }
    }
  }

  /** Every remaining scripted write makes progress and succeeds. */
  predicate Cooperative(script: seq<Accept>) {
    forall a :: a in script ==> a.n > 0 && !a.fails
  }

  /** Keep writing until everything is out; an error or a write of nothing stops it. */
  method WriteFull(c: Conn, p: Bytes) returns (r: Result<(), IoError>)
    modifies c`sent, c`script
    ensures r.Ok? ==> c.sent == old(c.sent) + p
    ensures r.Err? ==> exists k :: 0 <= k <= |p| && c.sent == old(c.sent) + p[..k]
    ensures Cooperative(old(c.script)) ==> r.Ok? && Cooperative(c.script)
  {
    var k := 0;
    assert p[..0] == [];
    while k < |p|
      invariant 0 <= k <= |p|
      invariant c.sent == old(c.sent) + p[..k]
      invariant Cooperative(old(c.script)) ==> Cooperative(c.script)
      decreases |p| - k
    {
      ghost var before := c.script;
      var n, fails := c.Write(p[k..]);
      assert p[..k] + p[k..][..n] == p[..k + n];
      k := k + n;
      assert before != [] ==> before[0] in before;
      assert forall a :: a in c.script ==> a in before;
      if fails {
        return Err(Broken);
      }
      if n == 0 {
        return Err(ShortWrite);
      }
    }
    assert p[..|p|] == p;
    r := Ok(());
  }

  /** Header, then payload; a payload over the limit is refused before anything is sent. */
  method WriteFrame(c: Conn, payload: Bytes) returns (r: Result<(), IoError>)
    modifies c`sent, c`script
    ensures |payload| > MAX_FRAME_BYTES ==> r == Err(FrameTooLarge) && c.sent == old(c.sent)
    ensures r.Ok? ==> |payload| <= MAX_FRAME_BYTES && c.sent == old(c.sent) + Frame(payload)
    ensures |payload| <= MAX_FRAME_BYTES && Cooperative(old(c.script)) ==> r.Ok? && Cooperative(c.script)
  {
    if |payload| > MAX_FRAME_BYTES {
      return Err(FrameTooLarge);
    }
    r := WriteFull(c, PutUint32(|payload|));
    if r.Err? {
      return;
    }
    r := WriteFull(c, payload);
    assert old(c.sent) + PutUint32(|payload|) + payload == old(c.sent) + Frame(payload);
  }

  /** A stream that begins with a frame, in its parts. */
  lemma FrameParts(payload: Bytes, rest: Bytes)
    requires |payload| <= MAX_FRAME_BYTES
    ensures var all := Frame(payload) + rest;
            && |all| >= 4 && Uint32(all[..4]) == |payload| && 4 + |payload| <= |all|
            && all[4..][..|payload|] == payload && all[4..][|payload|..] == rest
  {
  }

  /** Read one frame; exactly its bytes are consumed. */
  method ReadFrame(c: Conn) returns (r: Result<Bytes, IoError>)
    modifies c`incoming
    ensures forall payload, rest ::
              |payload| <= MAX_FRAME_BYTES && old(c.incoming) == Frame(payload) + rest ==>
              r == Ok(payload) && c.incoming == rest
    ensures r.Ok? ==> |r.value| <= MAX_FRAME_BYTES && old(c.incoming) == Frame(r.value) + c.incoming
  {
    ghost var all := c.incoming;
    forall payload, rest | |payload| <= MAX_FRAME_BYTES && all == Frame(payload) + rest
      ensures |all| >= 4 && Uint32(all[..4]) == |payload| && 4 + |payload| <= |all|
      ensures all[4..][..|payload|] == payload && all[4..][|payload|..] == rest
    {
      FrameParts(payload, rest);
    }
    var header := c.ReadFull(4);
    if header.Err? {
      return Err(header.error);
    }
    var n := Uint32(header.value);
    if n > MAX_FRAME_BYTES {
      return Err(FrameTooLarge);
    }
    r := c.ReadFull(n);
    if r.Ok? {
      HeaderRoundTrip(header.value);
      assert all == all[..4] + (all[4..][..n] + all[4..][n..]);
    }
  }

  lemma {:induction false} FrameAllSnoc(payloads: seq<Bytes>, p: Bytes)
    requires forall q :: q in payloads ==> |q| <= MAX_FRAME_BYTES
    requires |p| <= MAX_FRAME_BYTES
    ensures FrameAll(payloads + [p]) == FrameAll(payloads) + Frame(p)
  {
    var all := payloads + [p];
    if payloads == [] {
      assert all[1..] == [];
      assert FrameAll(all[1..]) == [];
    } else {
      assert all[1..] == payloads[1..] + [p];
      FrameAllSnoc(payloads[1..], p);
      assert Frame(payloads[0]) + (FrameAll(payloads[1..]) + Frame(p)) == Frame(payloads[0]) + FrameAll(payloads[1..]) + Frame(p);
    }
  }

  /** Send payloads one after the other. */
  method WriteFrames(c: Conn, payloads: seq<Bytes>)
    requires c.sent == [] && Cooperative(c.script)
    requires forall p :: p in payloads ==> |p| <= MAX_FRAME_BYTES
    modifies c`sent, c`script
    ensures c.sent == FrameAll(payloads)
  {
    for i := 0 to |payloads|
      invariant Cooperative(c.script)
      invariant forall p :: p in payloads[..i] ==> |p| <= MAX_FRAME_BYTES
      invariant c.sent == FrameAll(payloads[..i])
    {
      assert payloads[i] in payloads;
      var r := WriteFrame(c, payloads[i]);
      FrameAllSnoc(payloads[..i], payloads[i]);
      assert payloads[..i + 1] == payloads[..i] + [payloads[i]];
    }
    assert payloads[..|payloads|] == payloads;
  }

  /** Whatever sequence of payloads is sent, through however short writes, the same sequence is
      read back and nothing is left over. */
  method RoundTrip(payloads: seq<Bytes>, script: seq<Accept>) returns (received: seq<Bytes>, leftover: Bytes)
    requires Cooperative(script)
    requires forall p :: p in payloads ==> |p| <= MAX_FRAME_BYTES
    ensures received == payloads && leftover == []
  {
    var writer := new Conn([], script);
    WriteFrames(writer, payloads);
    var reader := new Conn(writer.sent, []);
    received := [];
    assert payloads[0..] == payloads;
    for i := 0 to |payloads|
      invariant fresh(reader) && received == payloads[..i]
      invariant forall p :: p in payloads[i..] ==> |p| <= MAX_FRAME_BYTES
      invariant reader.incoming == FrameAll(payloads[i..])
    {
      assert payloads[i..][1..] == payloads[i + 1..];
      assert reader.incoming == Frame(payloads[i]) + FrameAll(payloads[i + 1..]);
      var r := ReadFrame(reader);
      received := received + [r.value];
    }
    leftover := reader.incoming;
  }
}
