/** Length-prefixed messages between the relay and its clients (pkg/biewire/json.go):
    a 4-byte big-endian length followed by that many payload bytes. The payload is the
    JSON text of the message; JSON encoding and decoding are not modelled, so payloads
    are opaque bytes here. The frame layout and its parser are functions; `Writer` and
    `Reader` are the two ends of the stream, and `SendJSON` / `ReceiveJSON` are proved
    to write and to consume exactly what the layout says. */
module Biewire {
  import opened Common

  /** 2^32: the Go code converts the payload length with `uint32(len(data))`. */
  const Two32: nat := 0x1_0000_0000

  /** The four big-endian bytes of a 32-bit value. */
  function BE32(n: nat): (bs: seq<byte>)
    requires n < Two32
    ensures |bs| == 4
  {
    var n1 := n / 0x100;
    var n2 := n1 / 0x100;
    [n2 / 0x100, n2 % 0x100, n1 % 0x100, n % 0x100]
  }

  /** The 32-bit value four big-endian bytes denote. */
  function ValueBE32(bs: seq<byte>): (n: nat)
    requires |bs| == 4
    ensures n < Two32
  {
    ((bs[0] as int * 0x100 + bs[1]) * 0x100 + bs[2]) * 0x100 + bs[3]
  }

  lemma ValueOfBE32(n: nat)
    requires n < Two32
    ensures ValueBE32(BE32(n)) == n
  {
    var n1 := n / 0x100;
    var n2 := n1 / 0x100;
    assert n == n1 * 0x100 + n % 0x100;
    assert n1 == n2 * 0x100 + n1 % 0x100;
    assert n2 == n2 / 0x100 * 0x100 + n2 % 0x100;
  }

  lemma BE32OfValue(bs: seq<byte>)
    requires |bs| == 4
    ensures BE32(ValueBE32(bs)) == bs
  {
    var n := ValueBE32(bs);
    var n2 := bs[0] as int * 0x100 + bs[1];
    var n1 := n2 * 0x100 + bs[2];
    assert n == n1 * 0x100 + bs[3];
    assert n / 0x100 == n1 && n % 0x100 == bs[3];
    assert n1 / 0x100 == n2 && n1 % 0x100 == bs[2];
    assert n2 / 0x100 == bs[0] && n2 % 0x100 == bs[1];
  }

  /** What `SendJSON` puts on the stream for a payload: the length, truncated to 32
      bits, then the payload itself, whatever its length. */
  function Frame(payload: seq<byte>): (f: seq<byte>)
    ensures |f| == 4 + |payload|
    ensures f[4..] == payload
  {
    BE32(|payload| % Two32) + payload
  }

  /** Why a read came up short: `io.EOF` when the stream ended before any byte,
      `io.ErrUnexpectedEOF` when it ended after some but not enough, and
      `Transport` for any other error of the underlying reader (a reset
      connection, say), which `io.ReadFull` passes on unchanged. */
  datatype ReadError = EOF | UnexpectedEOF | Transport

  datatype Parsed =
    | Parsed(payload: seq<byte>, rest: seq<byte>)
    | ParseError(error: ReadError)

  /** The error a full read of `want` bytes reports when only `have` are available. */
  function ShortReadError(have: nat): ReadError {
    if have == 0 then EOF else UnexpectedEOF
  }

  /** One frame read from the front of `s`: the payload and the bytes after it, or
      the error of whichever read ran out. */
  function ParseFrame(s: seq<byte>): (r: Parsed)
    ensures r.ParseError? <==> |s| < 4 || |s| < 4 + ValueBE32(s[..4])
    ensures |s| < 4 ==> r == ParseError(ShortReadError(|s|))
    ensures r.Parsed? ==> s == s[..4] + r.payload + r.rest && |r.payload| == ValueBE32(s[..4])
  {
    if |s| < 4 then ParseError(ShortReadError(|s|))
    else
      var n := ValueBE32(s[..4]);
      if |s| - 4 < n then ParseError(ShortReadError(|s| - 4))
      else Parsed(s[4..4 + n], s[4 + n..])
  }

  /** Reading a frame back gives the payload and leaves everything after the frame
      untouched, for payloads whose length fits in 32 bits. */
  lemma FrameRoundTrip(payload: seq<byte>, rest: seq<byte>)
    requires |payload| < Two32
    ensures ParseFrame(Frame(payload) + rest) == Parsed(payload, rest)
  {
    var n := |payload|;
    var s := Frame(payload) + rest;
    assert n % Two32 == n;
    assert s[..4] == BE32(n) by {
      assert Frame(payload)[..4] == BE32(n);
    }
    ValueOfBE32(n);
    assert s[4..4 + n] == payload;
    assert s[4 + n..] == rest;
  }

  /** With a payload of 2^32 bytes or more, the truncated length makes the reader
      stop early: it returns only the first `len % 2^32` bytes and takes the rest of
      the payload for the next frame. */
  lemma TruncatedLengthSplitsPayload(payload: seq<byte>, rest: seq<byte>)
    requires |payload| >= Two32
    ensures var k := |payload| % Two32;
      ParseFrame(Frame(payload) + rest) == Parsed(payload[..k], payload[k..] + rest)
  {
    var k := |payload| % Two32;
    var s := Frame(payload) + rest;
    assert s[..4] == BE32(k);
    ValueOfBE32(k);
    assert s[4..4 + k] == payload[..k];
    assert s[4 + k..] == payload[k..] + rest;
  }

  /** Several frames one after the other. */
  function Frames(payloads: seq<seq<byte>>): (s: seq<byte>)
  {
    if payloads == [] then [] else Frame(payloads[0]) + Frames(payloads[1..])
  }

  /** Frames read one after the other until the stream is used up. */
  function ParseAll(s: seq<byte>): (r: Option<seq<seq<byte>>>)
    decreases |s|
  {
    if s == [] then Some([])
    else match ParseFrame(s)
      case ParseError(_) => None
      case Parsed(payload, rest) =>
        match ParseAll(rest)
        case None => None
        case Some(more) => Some([payload] + more)
  }

  predicate FitIn32(payloads: seq<seq<byte>>) {
    forall i :: 0 <= i < |payloads| ==> |payloads[i]| < Two32
  }

  /** Back-to-back frames come out in order, each with its own payload. */
  lemma {:induction false} ParseAllFrames(payloads: seq<seq<byte>>)
    requires FitIn32(payloads)
    ensures ParseAll(Frames(payloads)) == Some(payloads)
  {
    if payloads != [] {
      FrameRoundTrip(payloads[0], Frames(payloads[1..]));
      ParseAllFrames(payloads[1..]);
      assert [payloads[0]] + payloads[1..] == payloads;
    }
  }

  function Min(a: nat, b: nat): nat {
    if a <= b then a else b
  }

  /** How many of `want` bytes the next write call gets through, given the
      per-call limits still scripted; once the script is used up, writes go through
      in full. */
  function Allowed(quota: seq<nat>, want: nat): (n: nat)
    ensures n <= want
    ensures quota == [] ==> n == want
  {
    if quota == [] then want else Min(want, quota[0])
  }

  /** The script after one write call. */
  function NextQuota(quota: seq<nat>): seq<nat> {
    if quota == [] then [] else quota[1..]
  }

  /** The sending end of a stream (any `io.Writer`): the bytes it has accepted so
      far, and a script of how many bytes each of its next write calls accepts,
      which stands for whatever makes a real destination fail part-way. */
  class Writer {
    var written: seq<byte>
    var quota: seq<nat>

    constructor(quota: seq<nat>)
      ensures written == [] && this.quota == quota
    {
      written := [];
      this.quota := quota;
    }

    /** `io.Writer.Write`: the bytes the destination accepts are written; writing
        fewer than asked is an error. */
    method Write(bs: seq<byte>) returns (ok: bool)
      modifies this
      ensures written == old(written) + bs[..Allowed(old(quota), |bs|)]
      ensures quota == NextQuota(old(quota))
      ensures ok <==> Allowed(old(quota), |bs|) == |bs|
    {
      var n := Allowed(quota, |bs|);
      written := written + bs[..n];
      quota := NextQuota(quota);
      ok := n == |bs|;
    }
  }

  /** `SendJSON` once the message is marshalled: one write of the 32-bit length
      prefix, then, only if the prefix went through whole, one write of the payload. */
  method SendJSON(w: Writer, payload: seq<byte>) returns (ok: bool)
    modifies w
    ensures ok ==> w.written == old(w.written) + Frame(payload)
    ensures var k := Allowed(old(w.quota), 4);
      k < 4 ==> !ok && w.written == old(w.written) + Frame(payload)[..k] && w.quota == NextQuota(old(w.quota))
    ensures var k := Allowed(old(w.quota), 4);
      var m := Allowed(NextQuota(old(w.quota)), |payload|);
      k == 4 ==>
        (ok <==> m == |payload|)
        && w.written == old(w.written) + Frame(payload)[..4 + m]
        && w.quota == NextQuota(NextQuota(old(w.quota)))
  {
    var length := |payload| % Two32;
    ok := w.Write(BE32(length));
    if !ok {
      return;
    }
    ghost var m := Allowed(w.quota, |payload|);
    ok := w.Write(payload);
    assert Frame(payload)[..4 + m] == BE32(length) + payload[..m];
  }

  /** The receiving end of a stream: the bytes it delivers, whether it then fails with
      a transport error (`broken`) or ends cleanly, and how far it has been read. */
  class Reader {
    const data: seq<byte>
    const broken: bool
    var pos: nat

    ghost predicate Valid()
      reads this
    {
      pos <= |data|
    }

    /** The bytes not read yet. */
    function Remaining(): (r: seq<byte>)
      reads this
      requires Valid()
      ensures |r| == |data| - pos
    {
      data[pos..]
    }

    constructor(data: seq<byte>, broken: bool)
      ensures this.data == data && this.broken == broken && pos == 0 && Valid()
    {
      this.data := data;
      this.broken := broken;
      pos := 0;
    }

    /** The error a read reports when it needs more than the `have` bytes left: the
        transport's own error on a broken stream, `EOF` or `ErrUnexpectedEOF` on one
        that ended cleanly. */
    function ShortRead(have: nat): (e: ReadError)
      reads this
      ensures broken <==> e == Transport
      ensures !broken ==> e == ShortReadError(have)
    {
      if broken then Transport else ShortReadError(have)
    }

    /** `io.ReadFull(r, buf)`: fills `buf` from the stream (a broken stream that still
        holds enough bytes fills it without error), or takes everything left and
        reports why it ran short. */
    method ReadFull(buf: array<byte>) returns (err: Option<ReadError>)
      requires Valid()
      modifies this, buf
      ensures Valid()
      ensures buf.Length <= |old(Remaining())| ==>
        err == None && buf[..] == old(Remaining())[..buf.Length] && Remaining() == old(Remaining())[buf.Length..]
      ensures buf.Length > |old(Remaining())| ==>
        err == Some(ShortRead(|old(Remaining())|)) && Remaining() == []
        && buf[..|old(Remaining())|] == old(Remaining())
    {
      ghost var start := pos;
      ghost var rest := data[start..];
      var i := 0;
      while i < buf.Length && pos < |data|
        invariant 0 <= i <= buf.Length
        invariant pos == start + i <= |data|
        invariant buf[..i] == data[start..pos] == rest[..i]
      {
        buf[i] := data[pos];
        i := i + 1;
        pos := pos + 1;
      }
      if i < buf.Length {
        assert pos == |data| && i == |rest|;
        assert buf[..i] == rest;
        err := Some(ShortRead(i));
      } else {
        assert buf[..] == buf[..i];
        assert buf[..] == rest[..buf.Length];
        assert data[pos..] == rest[i..];
        err := None;
      }
    }
  }

  datatype Received = Payload(bytes: seq<byte>) | Failed(error: ReadError)

  /** `ReceiveJSON` up to the unmarshalling: the 4-byte length, then exactly that
      many payload bytes. It consumes one frame and nothing after it; on a short
      read it has consumed the whole stream and returns the error of the read that
      ran short, the transport's own error on a broken stream. */
  method ReceiveJSON(r: Reader) returns (result: Received)
    requires r.Valid()
    modifies r
    ensures r.Valid()
    ensures match ParseFrame(old(r.Remaining()))
      case Parsed(payload, rest) => result == Payload(payload) && r.Remaining() == rest
      case ParseError(e) => result == Failed(if r.broken then Transport else e) && r.Remaining() == []
  {
    ghost var s := r.Remaining();
    var prefix := new byte[4];
    var err := r.ReadFull(prefix);
    if err.Some? {
      return Failed(err.value);
    }
    var length := ValueBE32(prefix[..]);
    assert prefix[..] == s[..4];
    var buf := new byte[length];
    err := r.ReadFull(buf);
    if err.Some? {
      return Failed(err.value);
    }
    result := Payload(buf[..]);
  }

  /** The auth exchange of the relay in bytes: one side sends two messages over a
      stream that accepts them, the other side receives them in order and finds the
      stream used up. */
  method ExchangeScenario(request: seq<byte>, response: seq<byte>)
    returns (first: Received, second: Received, third: Received)
    requires |request| < Two32 && |response| < Two32
    ensures first == Payload(request) && second == Payload(response)
    ensures third == Failed(EOF)
  {
    var w := new Writer([]);
    var ok := SendJSON(w, request);
    assert w.quota == [] && w.written == Frame(request);
    ok := SendJSON(w, response);
    assert w.written == Frame(request) + Frame(response);
    first, second, third := ReceiveBackToBack(w.written, request, response);
  }

  /** Three receives from a stream holding two frames back to back. */
  method ReceiveBackToBack(stream: seq<byte>, request: seq<byte>, response: seq<byte>)
    returns (first: Received, second: Received, third: Received)
    requires |request| < Two32 && |response| < Two32
    requires stream == Frame(request) + Frame(response)
    ensures first == Payload(request) && second == Payload(response)
    ensures third == Failed(EOF)
  {
    var r := new Reader(stream, false);
    assert r.Remaining() == Frame(request) + Frame(response);
    FrameRoundTrip(request, Frame(response));
    first := ReceiveJSON(r);
    assert r.Remaining() == Frame(response) + [];
    FrameRoundTrip(response, []);
    second := ReceiveJSON(r);
    assert r.Remaining() == [];
    third := ReceiveJSON(r);
  }

  /** A connection reset part-way: a stream that fails after delivering a whole frame
      still yields that frame's payload, then the transport error. */
  method BrokenAfterFrame(request: seq<byte>) returns (whole: Received, after: Received)
    requires |request| < Two32
    ensures whole == Payload(request) && after == Failed(Transport)
  {
    var r := new Reader(Frame(request), true);
    assert r.Remaining() == Frame(request) + [];
    FrameRoundTrip(request, []);
    whole := ReceiveJSON(r);
    assert r.Remaining() == [];
    after := ReceiveJSON(r);
  }

  /** A stream that fails right after a length prefix announcing a non-empty payload
      reports the transport error, not `ErrUnexpectedEOF`. */
  method BrokenAfterPrefix(length: nat) returns (cut: Received)
    requires 0 < length < Two32
    ensures cut == Failed(Transport)
  {
    var r := new Reader(BE32(length), true);
    ValueOfBE32(length);
    assert r.Remaining() == BE32(length);
    assert r.Remaining()[..4] == BE32(length);
    cut := ReceiveJSON(r);
  }
}
