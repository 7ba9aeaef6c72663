/** The WebSocket relay server (bie-server/src/main.rs): a registry from tokens to
    session channels, a per-session forwarder that turns channel messages into
    WebSocket frames, an inbound watcher that turns any inbound event into a
    synthetic `Close`, the upload handler that pushes the body of the `file` part
    into a session's channel, and the health count.

    The two tasks of a session are written as separately callable steps, so any
    interleaving of them with uploads and with transport failures is a sequence of
    method calls. */
module RelayServer {
  import opened Common
  import opened BieCommon

  /** The length of a session token (`generate_secure_random_string(32)`). */
  const TokenLength: nat := 32

  /** A WebSocket frame as it reaches the downloading client. A binary frame carries
      the message whose CBOR serialisation is its payload. */
  datatype Frame =
    | Text(text: string)
    | Binary(msg: BieProtocol)
    | PingFrame(data: seq<byte>)
    | CloseFrame

  /** What the watcher reads from the WebSocket: a message (a close message or any
      other), or a read error. The end of the stream is `None` where one is read. */
  datatype Inbound = Received(isClose: bool) | ReadError

  /** The HTTP answers of the upload handler. */
  datatype StatusCode = Accepted | NotFound | InternalServerError

  function HttpStatus(s: StatusCode): (code: nat)
    ensures s.Accepted? <==> code == 202
    ensures s.NotFound? <==> code == 404
    ensures s.InternalServerError? <==> code == 500
  {
    match s
    case Accepted => 202
    case NotFound => 404
    case InternalServerError => 500
  }

  /** One item of the multipart form stream: a part with its name and body, or an
      error the form stream yields instead of a part. */
  datatype FormItem = Part(name: string, body: seq<BodyItem>) | FormError

  /** One item of a part's body stream: a chunk of bytes or a read error. */
  datatype BodyItem = Chunk(bytes: seq<byte>) | BodyError

  /** The session channel: an unbounded tokio mpsc channel. `closed` is set when the
      forwarder closes its receiving half or drops it on leaving; from then on every
      send fails. */
  class Channel {
    var queue: seq<BieProtocol>
    var closed: bool

    constructor ()
      ensures queue == [] && !closed
    {
      queue := [];
      closed := false;
    }

    /** `UnboundedSender::send`: never blocks, fails exactly when the receiver is gone. */
    method Send(m: BieProtocol) returns (ok: bool)
      modifies this
      ensures ok == !old(closed)
      ensures closed == old(closed)
      ensures queue == if ok then old(queue) + [m] else old(queue)
    {
      ok := !closed;
      if ok {
        queue := queue + [m];
      }
    }

    /** The next message, or `None` when the queue is empty: the receiver would wait. */
    method TryRecv() returns (m: Option<BieProtocol>)
      modifies this
      ensures closed == old(closed)
      ensures old(queue) == [] ==> m == None && queue == old(queue)
      ensures old(queue) != [] ==> m == Some(old(queue)[0]) && queue == old(queue)[1..]
    {
      if queue == [] {
        m := None;
      } else {
        m := Some(queue[0]);
        queue := queue[1..];
      }
    }

    /** `UnboundedReceiver::close`: buffered messages stay, later sends fail. */
    method Close()
      modifies this
      ensures closed && queue == old(queue)
    {
      closed := true;
    }
  }

  /** The write half of the session's WebSocket. `frames` is what has reached the
      client; `closed` is set once a close frame has been sent or received, after
      which the socket refuses to send anything; `healthy` is false once the
      transport has failed. */
  class Sink {
    var frames: seq<Frame>
    var closed: bool
    var healthy: bool

    constructor (healthy: bool)
      ensures frames == [] && !closed && this.healthy == healthy
    {
      frames := [];
      closed := false;
      this.healthy := healthy;
    }

    predicate Writable()
      reads this
    {
      healthy && !closed
    }

    /** Sending one message; sending a close message starts the closing handshake. */
    method Send(f: Frame) returns (ok: bool)
      modifies this
      ensures ok == old(Writable())
      ensures frames == if ok then old(frames) + [f] else old(frames)
      ensures closed == (old(closed) || (ok && f == CloseFrame)) && healthy == old(healthy)
    {
      ok := Writable();
      if ok {
        frames := frames + [f];
        if f == CloseFrame {
          closed := true;
        }
      }
    }

    /** `close()`: a close frame goes out unless one has already been sent or received;
        on a broken transport the flush fails. */
    method Close() returns (ok: bool)
      modifies this
      ensures ok == old(healthy)
      ensures frames == if old(Writable()) then old(frames) + [CloseFrame] else old(frames)
      ensures closed == (old(closed) || old(healthy)) && healthy == old(healthy)
    {
      ok := healthy;
      if ok {
        if !closed {
          frames := frames + [CloseFrame];
        }
        closed := true;
      }
    }

    /** Reading the peer's close message: the socket answers it with a close frame of
        its own, unless it has closed first or its transport has failed, and sends
        nothing after it. */
    method ReceiveClose()
      modifies this
      ensures frames == if old(Writable()) then old(frames) + [CloseFrame] else old(frames)
      ensures closed && healthy == old(healthy)
    {
      if Writable() {
        frames := frames + [CloseFrame];
      }
      closed := true;
    }

    /** The network fails underneath the socket. */
    method Break()
      modifies this
      ensures !healthy && frames == old(frames) && closed == old(closed)
    {
      healthy := false;
    }
  }

  /** The `Connections` map from token to the sending half of a session's channel. */
  class Registry {
    var connections: map<string, Channel>

    constructor ()
      ensures connections == map[]
    {
      connections := map[];
    }

    method Insert(token: string, channel: Channel)
      modifies this
      ensures connections == old(connections)[token := channel]
    {
      connections := connections[token := channel];
    }

    method Remove(token: string)
      modifies this
      ensures connections == old(connections) - {token}
    {
      connections := connections - {token};
    }

    method Get(token: string) returns (channel: Option<Channel>)
      ensures channel.Some? <==> token in connections
      ensures channel.Some? ==> channel.value == connections[token]
    {
      if token in connections {
        channel := Some(connections[token]);
      } else {
        channel := None;
      }
    }
  }

  /** `handle_health`: the number of registered sessions. */
  method HandleHealth(registry: Registry) returns (count: nat)
    ensures count == |registry.connections.Keys|
  {
    count := |registry.connections|;
  }

  /** Whether a message makes the forwarder return. */
  predicate Ends(m: BieProtocol) {
    m.EndOfFile? || m.Close?
  }

  predicate HasEnd(q: seq<BieProtocol>) {
    exists i :: 0 <= i < |q| && Ends(q[i])
  }

  lemma HasEndSnoc(p: seq<BieProtocol>, m: BieProtocol)
    ensures HasEnd(p + [m]) <==> HasEnd(p) || Ends(m)
  {
    if HasEnd(p) {
      var i :| 0 <= i < |p| && Ends(p[i]);
      assert (p + [m])[i] == p[i];
    }
    if Ends(m) {
      assert (p + [m])[|p|] == m;
    }
    if HasEnd(p + [m]) && !Ends(m) {
      var i :| 0 <= i < |p| + 1 && Ends((p + [m])[i]);
      assert i < |p| && (p + [m])[i] == p[i];
    }
  }

  /** The frames the forwarder writes for one message on a writable socket: closing
      the socket on `Close` sends a close frame too. */
  function Emitted(m: BieProtocol): seq<Frame> {
    match m
    case Token(t) => [Binary(Token(t))]
    case FileChunk(c) => [Binary(FileChunk(c))]
    case EndOfFile => [Binary(EndOfFile), CloseFrame]
    case Ping => [PingFrame([])]
    case Pong => []
    case Close => [CloseFrame]
  }

  /** Whether the forwarder is still running after handling `m`: it returns on
      `EndOfFile` and `Close`, and panics on the first write the socket refuses. */
  predicate Continues(m: BieProtocol, writable: bool) {
    !Ends(m) && (writable || Emitted(m) == [])
  }

  /** Whether some message of `q` stops the forwarder, on a socket that is writable
      or not: on a writable one exactly the ending messages do; on one that is not,
      every message but `Pong` does. */
  predicate HasStop(q: seq<BieProtocol>, writable: bool) {
    exists i :: 0 <= i < |q| && !Continues(q[i], writable)
  }

  lemma HasStopSnoc(p: seq<BieProtocol>, m: BieProtocol, writable: bool)
    ensures HasStop(p + [m], writable) <==> HasStop(p, writable) || !Continues(m, writable)
  {
    if HasStop(p, writable) {
      var i :| 0 <= i < |p| && !Continues(p[i], writable);
      assert (p + [m])[i] == p[i];
    }
    if !Continues(m, writable) {
      assert (p + [m])[|p|] == m;
    }
    if HasStop(p + [m], writable) && Continues(m, writable) {
      var i :| 0 <= i < |p| + 1 && !Continues((p + [m])[i], writable);
      assert i < |p| && (p + [m])[i] == p[i];
    }
  }

  lemma HasStopAppend(p: seq<BieProtocol>, r: seq<BieProtocol>, writable: bool)
    requires HasStop(p, writable)
    ensures HasStop(p + r, writable)
  {
    var i :| 0 <= i < |p| && !Continues(p[i], writable);
    assert (p + r)[i] == p[i];
  }

  /** On a writable socket the forwarder stops exactly at an ending message; on any
      socket an ending message stops it. */
  lemma StopsAtEnd(q: seq<BieProtocol>, writable: bool)
    ensures HasEnd(q) ==> HasStop(q, writable)
    ensures writable ==> (HasStop(q, writable) <==> HasEnd(q))
  {
    if HasEnd(q) {
      var i :| 0 <= i < |q| && Ends(q[i]);
      assert !Continues(q[i], writable);
    }
    if writable && HasStop(q, writable) {
      var i :| 0 <= i < |q| && !Continues(q[i], writable);
      assert Ends(q[i]);
    }
  }

  /** The frames the forwarder writes for the queue `q` when every write succeeds:
      each message in order, up to and including the first that ends it. */
  function Forwarded(q: seq<BieProtocol>): seq<Frame> {
    if q == [] then []
    else Emitted(q[0]) + (if Ends(q[0]) then [] else Forwarded(q[1..]))
  }

  lemma {:induction false} ForwardedSnoc(p: seq<BieProtocol>, m: BieProtocol)
    requires !HasEnd(p)
    ensures Forwarded(p + [m]) == Forwarded(p) + Emitted(m)
  {
    if p != [] {
      var tail := p[1..];
      assert p == [p[0]] + tail;
      HasEndCons(p[0], tail);
      assert (p + [m])[0] == p[0] && (p + [m])[1..] == tail + [m];
      ForwardedSnoc(tail, m);
      assert Forwarded(p + [m]) == Emitted(p[0]) + Forwarded(tail + [m]);
      assert Forwarded(p) == Emitted(p[0]) + Forwarded(tail);
    } else {
      assert [m][1..] == [];
    }
  }

  lemma HasEndCons(m: BieProtocol, p: seq<BieProtocol>)
    ensures HasEnd([m] + p) <==> Ends(m) || HasEnd(p)
  {
    if Ends(m) {
      assert ([m] + p)[0] == m;
    }
    if HasEnd(p) {
      var i :| 0 <= i < |p| && Ends(p[i]);
      assert ([m] + p)[i + 1] == p[i];
    }
    if HasEnd([m] + p) && !Ends(m) {
      var i :| 0 <= i < |p| + 1 && Ends(([m] + p)[i]);
      assert 0 < i && ([m] + p)[i] == p[i - 1];
    }
  }

  lemma {:induction false} ForwardedAfterEnd(p: seq<BieProtocol>, r: seq<BieProtocol>)
    requires HasEnd(p)
    ensures Forwarded(p + r) == Forwarded(p)
  {
    assert p != [];
    if !Ends(p[0]) {
      assert (p + r)[1..] == p[1..] + r;
      var i :| 0 <= i < |p| && Ends(p[i]);
      assert p[1..][i - 1] == p[i];
      ForwardedAfterEnd(p[1..], r);
    }
  }

  /** The chunk payloads of the binary `FileChunk` frames among `fs`, in order. */
  function FramePayloads(fs: seq<Frame>): seq<seq<byte>> {
    if fs == [] then []
    else (if fs[0].Binary? && fs[0].msg.FileChunk? then [fs[0].msg.chunk] else []) + FramePayloads(fs[1..])
  }

  /** The chunk payloads of the `FileChunk` messages of `q` before the first message that ends the forwarder. */
  function QueuedPayloads(q: seq<BieProtocol>): seq<seq<byte>> {
    if q == [] || Ends(q[0]) then []
    else (if q[0].FileChunk? then [q[0].chunk] else []) + QueuedPayloads(q[1..])
  }

  lemma {:induction false} FramePayloadsAppend(a: seq<Frame>, b: seq<Frame>)
    ensures FramePayloads(a + b) == FramePayloads(a) + FramePayloads(b)
  {
    if a == [] {
      assert a + b == b;
    } else {
      assert (a + b)[1..] == a[1..] + b;
      FramePayloadsAppend(a[1..], b);
    }
  }

  /** FIFO delivery: the forwarder writes one binary frame per `FileChunk`, in queue
      order, carrying the chunk's bytes unchanged, and nothing after the first
      `EndOfFile` or `Close`. */
  lemma {:induction false} ForwardedPayloads(q: seq<BieProtocol>)
    ensures FramePayloads(Forwarded(q)) == QueuedPayloads(q)
  {
    if q != [] {
      FramePayloadsAppend(Emitted(q[0]), if Ends(q[0]) then [] else Forwarded(q[1..]));
      if !Ends(q[0]) {
        ForwardedPayloads(q[1..]);
      }
    }
  }

  /** A close frame is written only for an ending message (`EndOfFile` or `Close`), as
      the very last frame: no frame follows it. */
  lemma {:induction false} CloseFrameIsLast(q: seq<BieProtocol>, i: nat)
    requires i < |Forwarded(q)| && Forwarded(q)[i] == CloseFrame
    ensures i == |Forwarded(q)| - 1
    ensures HasEnd(q)
  {
    assert q != [];
    var e := Emitted(q[0]);
    if Ends(q[0]) {
      assert Forwarded(q) == e;
    } else {
      assert Forwarded(q) == e + Forwarded(q[1..]);
      assert |e| <= 1 && (|e| == 1 ==> e[0] != CloseFrame);
      assert i >= |e|;
      assert Forwarded(q[1..])[i - |e|] == CloseFrame;
      CloseFrameIsLast(q[1..], i - |e|);
      var j :| 0 <= j < |q[1..]| && Ends(q[1..][j]);
      assert Ends(q[j + 1]);
    }
  }

  /** The forwarder, started on frames `frames0` over a socket that was `writable` and
      `healthy`, has handled the messages `seen` and is left `forwarding` or not, with
      the socket `closed` or not and having received `frames`. */
  ghost predicate DrainedState(seen: seq<BieProtocol>, writable: bool, healthy: bool, frames0: seq<Frame>,
                               forwarding: bool, closed: bool, frames: seq<Frame>)
  {
    && forwarding == !HasStop(seen, writable)
    && (forwarding ==> !HasEnd(seen) && (healthy && !closed) == writable)
    && frames == frames0 + (if writable then Forwarded(seen) else [])
    && (healthy && (HasEnd(seen) || !writable) ==> closed)
  }

  /** Handling one more message `m` as `ForwarderStep` does keeps `DrainedState`. */
  lemma DrainedNext(seen: seq<BieProtocol>, m: BieProtocol, writable: bool, healthy: bool, frames0: seq<Frame>,
                    frames: seq<Frame>, closed: bool, frames': seq<Frame>, closed': bool, forwarding': bool)
    requires DrainedState(seen, writable, healthy, frames0, true, closed, frames)
    requires frames' == (if writable then frames + Emitted(m) else frames)
    requires closed' == (closed || (Ends(m) && healthy))
    requires forwarding' == Continues(m, writable)
    ensures DrainedState(seen + [m], writable, healthy, frames0, forwarding', closed', frames')
  {
    HasStopSnoc(seen, m, writable);
    HasEndSnoc(seen, m);
    if writable {
      ForwardedSnoc(seen, m);
      assert frames' == frames0 + (Forwarded(seen) + Emitted(m));
    }
  }

  /** One session of `handle_connection`: its token, its channel, the write half of
      its socket, and which of its three activities still run: the forwarder task,
      the watcher task, and the handler itself, which joins the forwarder and then
      removes the token from the registry. */
  class Session {
    const token: string
    const channel: Channel
    const sink: Sink
    var forwarding: bool
    var watching: bool
    var handling: bool

    /** The channel is closed exactly when the forwarder has ended, and the handler
        outlives the forwarder. */
    ghost predicate Valid()
      reads this, channel
    {
      && forwarding == !channel.closed
      && (forwarding ==> handling)
    }

    constructor (token: string, channel: Channel, sink: Sink)
      requires !channel.closed
      ensures this.token == token && this.channel == channel && this.sink == sink
      ensures forwarding && watching && handling && Valid()
    {
      this.token := token;
      this.channel := channel;
      this.sink := sink;
      forwarding := true;
      watching := true;
      handling := true;
    }

    /** One iteration of the forwarder loop: take the next message, if any, and write
        its frames. The task ends on `EndOfFile` and `Close`, and panics on the first
        write the socket refuses (the source unwraps every write); either way its
        receiving half of the channel is gone afterwards. */
    method ForwarderStep()
      requires Valid() && forwarding
      modifies this, channel, sink
      ensures Valid() && watching == old(watching) && handling == old(handling)
      ensures sink.healthy == old(sink.healthy)
      ensures old(channel.queue) == [] ==>
        forwarding && channel.queue == [] && sink.frames == old(sink.frames) && sink.closed == old(sink.closed)
      ensures old(channel.queue) != [] ==>
        var m := old(channel.queue)[0];
        && channel.queue == old(channel.queue)[1..]
        && sink.frames == (if old(sink.Writable()) then old(sink.frames) + Emitted(m) else old(sink.frames))
        && sink.closed == (old(sink.closed) || (Ends(m) && old(sink.healthy)))
        && forwarding == Continues(m, old(sink.Writable()))
    {
      var next := channel.TryRecv();
      if next.None? {
        return;
      }
      var stop := false;
      match next.value {
        case Token(t) =>
          var ok := sink.Send(Binary(Token(t)));
          stop := !ok;
        case FileChunk(c) =>
          var ok := sink.Send(Binary(FileChunk(c)));
          stop := !ok;
        case EndOfFile =>
          var ok := sink.Send(Binary(EndOfFile));
          if ok {
            ok := sink.Send(CloseFrame);
          }
          if ok {
            channel.Close();
            ok := sink.Close();
          }
          stop := true;
        case Ping =>
          var ok := sink.Send(PingFrame([]));
          stop := !ok;
        case Pong =>
        case Close =>
          channel.Close();
          var _ := sink.Close();
          stop := true;
      }
      if stop {
        channel.Close();
        forwarding := false;
      }
    }

    /** The forwarder loop `while let Some(Ok(msg)) = client_rcv.recv()` run over every
        message queued so far. On a writable socket it writes `Forwarded` of the queue
        and closes the socket at the first ending message; on a socket that refuses
        writes it writes nothing and ends at the first message other than `Pong`. The
        loop never sees the channel exhausted: the connection handler keeps a sender
        alive until it has joined the forwarder. */
    method RunForwarder()
      requires Valid() && forwarding
      modifies this, channel, sink
      ensures Valid() && watching == old(watching) && handling == old(handling)
      ensures sink.healthy == old(sink.healthy)
      ensures old(sink.Writable()) ==> sink.frames == old(sink.frames) + Forwarded(old(channel.queue))
      ensures !old(sink.Writable()) ==> sink.frames == old(sink.frames)
      ensures forwarding == !HasStop(old(channel.queue), old(sink.Writable()))
      ensures old(sink.healthy) && HasEnd(old(channel.queue)) ==> sink.closed
      ensures forwarding ==> channel.queue == [] && !HasEnd(old(channel.queue))
    {
      ghost var q := channel.queue;
      ghost var writable := sink.Writable();
      ghost var seen: seq<BieProtocol> := [];
      while forwarding && channel.queue != []
        invariant Valid()
        invariant watching == old(watching) && handling == old(handling)
        invariant q == seen + channel.queue
        invariant Drained(seen, writable, old(sink.healthy), old(sink.frames))
        decreases |channel.queue|
      {
        seen := ForwardNext(seen, writable, old(sink.healthy), old(sink.frames));
      }
      if forwarding {
        assert seen == q;
      } else {
        StopsAtEnd(seen, writable);
        HasStopAppend(seen, channel.queue, writable);
        if writable {
          ForwardedAfterEnd(seen, channel.queue);
        }
      }
    }

    /** The forwarder has handled the messages `seen`, starting from the frames
        `frames0` on a socket that was `writable` and `healthy`. */
    ghost predicate Drained(seen: seq<BieProtocol>, writable: bool, healthy: bool, frames0: seq<Frame>)
      reads this, sink
    {
      && sink.healthy == healthy
      && DrainedState(seen, writable, healthy, frames0, forwarding, sink.closed, sink.frames)
    }

    /** One turn of the forwarder loop, with the bookkeeping that carries `Drained`
        over the message it handles. */
    method ForwardNext(ghost seen: seq<BieProtocol>, ghost writable: bool, ghost healthy: bool, ghost frames0: seq<Frame>)
      returns (ghost seen': seq<BieProtocol>)
      requires Valid() && forwarding && channel.queue != []
      requires Drained(seen, writable, healthy, frames0)
      modifies this, channel, sink
      ensures Valid() && watching == old(watching) && handling == old(handling)
      ensures seen' == seen + [old(channel.queue)[0]] && channel.queue == old(channel.queue)[1..]
      ensures Drained(seen', writable, healthy, frames0)
    {
      var m := channel.queue[0];
      ghost var frames, closed := sink.frames, sink.closed;
      ForwarderStep();
      seen' := seen + [m];
      DrainedNext(seen, m, writable, healthy, frames0, frames, closed, sink.frames, sink.closed, forwarding);
    }

    /** The inbound watcher. Its loop ends at the first item whatever it is: a close
        message, any other message or a read error each push one `Close` onto the
        channel (a failed push is ignored); the end of the stream pushes nothing.
        Reading a close message also makes the socket answer it and refuse further
        writes. */
    method WatcherStep(next: Option<Inbound>)
      requires watching
      modifies this, channel, sink
      ensures !watching && forwarding == old(forwarding) && handling == old(handling)
      ensures channel.closed == old(channel.closed)
      ensures channel.queue ==
        if next.Some? && !old(channel.closed) then old(channel.queue) + [Close] else old(channel.queue)
      ensures sink.healthy == old(sink.healthy)
      ensures next == Some(Received(true)) ==>
        sink.closed && sink.frames == if old(sink.Writable()) then old(sink.frames) + [CloseFrame] else old(sink.frames)
      ensures next != Some(Received(true)) ==> sink.closed == old(sink.closed) && sink.frames == old(sink.frames)
    {
      if next == Some(Received(true)) {
        sink.ReceiveClose();
      }
      if next.Some? {
        var _ := channel.Send(Close);
      }
      watching := false;
    }

    /** The watcher with the eviction the relay's cancellation calls for: besides
        queuing `Close`, a disconnect (any inbound item) removes the token at once,
        so no upload can still find the session while the forwarder is yet to read
        the `Close`. */
    method WatcherStepEvicting(next: Option<Inbound>, registry: Registry)
      requires watching
      modifies this, channel, sink, registry
      ensures !watching && forwarding == old(forwarding) && handling == old(handling)
      ensures channel.closed == old(channel.closed)
      ensures channel.queue ==
        if next.Some? && !old(channel.closed) then old(channel.queue) + [Close] else old(channel.queue)
      ensures sink.healthy == old(sink.healthy)
      ensures next == Some(Received(true)) ==>
        sink.closed && sink.frames == if old(sink.Writable()) then old(sink.frames) + [CloseFrame] else old(sink.frames)
      ensures next != Some(Received(true)) ==> sink.closed == old(sink.closed) && sink.frames == old(sink.frames)
      ensures registry.connections ==
        if next.Some? then old(registry.connections) - {token} else old(registry.connections)
    {
      WatcherStep(next);
      if next.Some? {
        registry.Remove(token);
      }
    }

    /** The end of `handle_connection`: once the forwarder task has ended, however it
        ended (`EndOfFile`, `Close` or a panic), the handler's join returns and the
        token is removed from the registry; no other entry changes. */
    method JoinAndUnregister(registry: Registry)
      requires Valid() && !forwarding && handling
      modifies this, registry
      ensures Valid() && !handling && !forwarding && watching == old(watching)
      ensures registry.connections == old(registry.connections) - {token}
      ensures forall t :: t in old(registry.connections) && t != token ==>
        t in registry.connections && registry.connections[t] == old(registry.connections)[t]
    {
      registry.Remove(token);
      handling := false;
    }
  }

  /** The opening of `handle_connection`: generate the token from the supplied random
      bytes and send it as the first frame, in text. If that send fails the socket is
      closed and nothing is registered; otherwise the token is registered with the
      new session's channel and both tasks start. */
  method Connect(random: seq<byte>, sink: Sink, registry: Registry) returns (session: Session?)
    requires |random| == TokenLength
    modifies sink, registry
    ensures sink.healthy == old(sink.healthy)
    ensures var token := GenerateSecureRandomString(TokenLength, random);
      if old(sink.Writable()) then
        && session != null && fresh(session) && fresh(session.channel)
        && session.token == token && session.sink == sink
        && session.Valid() && session.forwarding && session.watching && session.handling
        && session.channel.queue == []
        && sink.frames == old(sink.frames) + [Text(token)] && sink.closed == old(sink.closed)
        && registry.connections == old(registry.connections)[token := session.channel]
      else
        && session == null
        && sink.frames == old(sink.frames)
        && sink.closed == (old(sink.closed) || old(sink.healthy))
        && registry.connections == old(registry.connections)
  {
    var token := GenerateSecureRandomString(TokenLength, random);
    var ok := sink.Send(Text(token));
    if !ok {
      var _ := sink.Close();
      return null;
    }
    var channel := new Channel();
    session := new Session(token, channel, sink);
    registry.Insert(token, channel);
  }

  /** The `FileChunk` messages for a part's body: one per non-empty chunk, with the
      chunk's bytes, up to the first read error. */
  function ChunkMessages(body: seq<BodyItem>): seq<BieProtocol> {
    if body == [] || body[0].BodyError? then []
    else (if body[0].bytes == [] then [] else [FileChunk(body[0].bytes)]) + ChunkMessages(body[1..])
  }

  /** The messages an upload pushes for its whole form: the chunks of every part
      named `file`; other parts and form errors contribute nothing. */
  function FormMessages(form: seq<FormItem>): seq<BieProtocol> {
    PrefixMessages(form, |form|)
  }

  /** The messages pushed for the first `n` items of the form. */
  function PrefixMessages(form: seq<FormItem>, n: nat): seq<BieProtocol>
    requires n <= |form|
  {
    if n == 0 then [] else PrefixMessages(form, n - 1) + PartMessages(form[n - 1])
  }

  /** The name of the form field whose parts are relayed. */
  const FileField: string := "file"

  /** Only the part named `file` is relayed. */
  predicate IsFilePart(item: FormItem) {
    item.Part? && item.name == FileField
  }

  function PartMessages(item: FormItem): seq<BieProtocol> {
    if IsFilePart(item) then ChunkMessages(item.body) else []
  }

  /** The bytes of a body before its first read error, chunk after chunk. */
  function BodyBytes(body: seq<BodyItem>): seq<byte> {
    if body == [] || body[0].BodyError? then [] else body[0].bytes + BodyBytes(body[1..])
  }

  /** The bytes carried by the `FileChunk` messages of `q`, concatenated. */
  function ChunkBytes(q: seq<BieProtocol>): seq<byte> {
    if q == [] then [] else (if q[0].FileChunk? then q[0].chunk else []) + ChunkBytes(q[1..])
  }

  lemma {:induction false} ChunkBytesAppend(a: seq<BieProtocol>, b: seq<BieProtocol>)
    ensures ChunkBytes(a + b) == ChunkBytes(a) + ChunkBytes(b)
  {
    if a == [] {
      assert a + b == b;
    } else {
      assert (a + b)[1..] == a[1..] + b;
      ChunkBytesAppend(a[1..], b);
    }
  }

  /** Every message an upload pushes for a part is a `FileChunk` with at least one byte. */
  lemma {:induction false} ChunkMessagesAreChunks(body: seq<BodyItem>)
    ensures forall i :: 0 <= i < |ChunkMessages(body)| ==>
      ChunkMessages(body)[i].FileChunk? && ChunkMessages(body)[i].chunk != []
  {
    if body != [] && body[0].Chunk? {
      ChunkMessagesAreChunks(body[1..]);
    }
  }

  /** The pushed chunks of a part carry exactly the part's bytes before its first read error. */
  lemma {:induction false} ChunkMessagesCarryBody(body: seq<BodyItem>)
    ensures ChunkBytes(ChunkMessages(body)) == BodyBytes(body)
  {
    if body != [] && body[0].Chunk? {
      var head := if body[0].bytes == [] then [] else [FileChunk(body[0].bytes)];
      ChunkBytesAppend(head, ChunkMessages(body[1..]));
      ChunkMessagesCarryBody(body[1..]);
    }
  }

  /** The bytes of every part named `file`, each up to its first read error, in form order. */
  function FileBytes(form: seq<FormItem>): seq<byte> {
    PrefixBytes(form, |form|)
  }

  /** The bytes of the `file` parts among the first `n` items of the form. */
  function PrefixBytes(form: seq<FormItem>, n: nat): seq<byte>
    requires n <= |form|
  {
    if n == 0 then []
    else
      var last := form[n - 1];
      PrefixBytes(form, n - 1) + (if IsFilePart(last) then BodyBytes(last.body) else [])
  }

  /** An upload pushes exactly the bytes of the `file` parts before their read errors. */
  lemma FormMessagesCarryFile(form: seq<FormItem>)
    ensures ChunkBytes(FormMessages(form)) == FileBytes(form)
    ensures forall i :: 0 <= i < |FormMessages(form)| ==> FormMessages(form)[i].FileChunk?
  {
    PrefixCarriesFile(form, |form|);
    PrefixOnlyChunks(form, |form|);
  }

  lemma {:induction false} PrefixCarriesFile(form: seq<FormItem>, n: nat)
    requires n <= |form|
    ensures ChunkBytes(PrefixMessages(form, n)) == PrefixBytes(form, n)
  {
    if n != 0 {
      var last := form[n - 1];
      PrefixCarriesFile(form, n - 1);
      ChunkBytesAppend(PrefixMessages(form, n - 1), PartMessages(last));
      if IsFilePart(last) {
        ChunkMessagesCarryBody(last.body);
      }
    }
  }

  lemma {:induction false} PrefixOnlyChunks(form: seq<FormItem>, n: nat)
    requires n <= |form|
    ensures forall i :: 0 <= i < |PrefixMessages(form, n)| ==> PrefixMessages(form, n)[i].FileChunk?
  {
    if n != 0 {
      var init: seq<BieProtocol>, part: seq<BieProtocol> := PrefixMessages(form, n - 1), PartMessages(form[n - 1]);
      PrefixOnlyChunks(form, n - 1);
      if IsFilePart(form[n - 1]) {
        ChunkMessagesAreChunks(form[n - 1].body);
      }
      assert PrefixMessages(form, n) == init + part;
      forall i | 0 <= i < |init + part| ensures (init + part)[i].FileChunk? {
        if i >= |init| {
          assert (init + part)[i] == part[i - |init|];
        }
      }
    }
  }

  /** What an upload has pushed on reaching item `i` of the form and, in a `file` part,
      item `j` of its body, when every push so far has succeeded. */
  function SentBy(form: seq<FormItem>, i: nat, j: nat): seq<BieProtocol>
    requires i <= |form|
  {
    PrefixMessages(form, i)
      + (if i < |form| && IsFilePart(form[i]) && j <= |form[i].body| then ChunkMessages(form[i].body[..j]) else [])
  }

  /** The length of the body relayed at item `i`: that of a `file` part, zero for
      anything else. */
  function BodyLengthAt(form: seq<FormItem>, i: nat): nat {
    if i < |form| && IsFilePart(form[i]) then |form[i].body| else 0
  }

  /** A position an upload can reach: item `i` of the form and, in a `file` part, item
      `j` of the body, every earlier body item being a chunk. */
  ghost predicate Positioned(form: seq<FormItem>, i: nat, j: nat) {
    && i <= |form|
    && j <= BodyLengthAt(form, i)
    && (i < |form| && IsFilePart(form[i]) ==> forall k :: 0 <= k < j ==> form[i].body[k].Chunk?)
  }

  /** The chunks pushed for the first `j` body items are the first chunks of the part. */
  lemma {:induction false} ChunkMessagesPrefix(body: seq<BodyItem>, j: nat)
    requires j <= |body|
    ensures ChunkMessages(body[..j]) <= ChunkMessages(body)
  {
    if j != 0 && body[0].Chunk? {
      assert body[..j][1..] == body[1..][..j - 1];
      ChunkMessagesPrefix(body[1..], j - 1);
    }
  }

  /** A message that extends a prefix of `all` is the next message of `all`. */
  lemma NextOfPrefix(p: seq<BieProtocol>, m: BieProtocol, all: seq<BieProtocol>)
    requires p + [m] <= all
    ensures p <= all && |p| < |all| && all[|p|] == m
  {
    assert (p + [m])[|p|] == m;
  }

  lemma PrefixOfAppend(a: seq<BieProtocol>, b: seq<BieProtocol>, c: seq<BieProtocol>)
    requires a <= b
    ensures a <= b + c
  {
    assert (b + c)[..|a|] == b[..|a|];
  }

  lemma PrefixTrans(a: seq<BieProtocol>, b: seq<BieProtocol>, c: seq<BieProtocol>)
    requires a <= b && b <= c
    ensures a <= c
  {
    assert c[..|a|] == c[..|b|][..|a|];
  }

  lemma AppendPrefix(a: seq<BieProtocol>, b: seq<BieProtocol>, c: seq<BieProtocol>)
    requires b <= c
    ensures a + b <= a + c
  {
    assert (a + c)[..|a + b|] == a + c[..|b|];
  }

  /** The messages of each item of the form, item by item. */
  function PartsOf(form: seq<FormItem>): (parts: seq<seq<BieProtocol>>)
    ensures |parts| == |form|
    ensures forall k :: 0 <= k < |form| ==> parts[k] == PartMessages(form[k])
  {
    seq(|form|, k requires 0 <= k < |form| => PartMessages(form[k]))
  }

  /** The first `n` of `parts`, concatenated. */
  function Flatten(parts: seq<seq<BieProtocol>>, n: nat): seq<BieProtocol>
    requires n <= |parts|
  {
    if n == 0 then [] else Flatten(parts, n - 1) + parts[n - 1]
  }

  lemma {:induction false} FlattenGrow(parts: seq<seq<BieProtocol>>, i: nat, n: nat)
    requires i <= n <= |parts|
    ensures Flatten(parts, i) <= Flatten(parts, n)
    decreases n
  {
    if i < n {
      FlattenGrow(parts, i, n - 1);
      PrefixOfAppend(Flatten(parts, i), Flatten(parts, n - 1), parts[n - 1]);
    } else {
      PrefixRefl(Flatten(parts, i));
    }
  }

  lemma {:induction false} PrefixMessagesFlatten(form: seq<FormItem>, n: nat)
    requires n <= |form|
    ensures PrefixMessages(form, n) == Flatten(PartsOf(form), n)
  {
    if n != 0 {
      PrefixMessagesFlatten(form, n - 1);
    }
  }

  /** The messages of the first `i` items of the form are a prefix of those of the
      first `n`: an upload only ever adds to what it has pushed. */
  lemma PrefixMessagesGrow(form: seq<FormItem>, i: nat, n: nat)
    requires i <= n <= |form|
    ensures PrefixMessages(form, i) <= PrefixMessages(form, n)
  {
    PrefixMessagesFlatten(form, i);
    PrefixMessagesFlatten(form, n);
    FlattenGrow(PartsOf(form), i, n);
  }

  lemma PrefixRefl(a: seq<BieProtocol>)
    ensures a <= a
  {
    assert a[..|a|] == a;
  }

  /** Whatever point an upload has reached, what it has pushed so far is a prefix of the
      messages of the whole form. */
  lemma SentByIsPrefix(form: seq<FormItem>, i: nat, j: nat)
    requires i <= |form|
    ensures SentBy(form, i, j) <= FormMessages(form)
  {
    var done := PrefixMessages(form, i);
    if i < |form| {
      var part := PartMessages(form[i]);
      var now := if IsFilePart(form[i]) && j <= |form[i].body| then ChunkMessages(form[i].body[..j]) else [];
      if IsFilePart(form[i]) && j <= |form[i].body| {
        ChunkMessagesPrefix(form[i].body, j);
      }
      assert now <= part;
      AppendPrefix(done, now, part);
      assert SentBy(form, i, j) == done + now;
      assert PrefixMessages(form, i + 1) == done + part;
      PrefixMessagesGrow(form, i + 1, |form|);
      PrefixTrans(done + now, done + part, FormMessages(form));
    } else {
      assert SentBy(form, i, j) == done + [];
    }
  }

  /** Leaving item `i` of the form, whether it is no `file` part, its body has ended or
      failed, or its rest is abandoned on a closed channel, keeps the successful
      pushes' record exactly as long as the part was complete. */
  lemma SentByNextItem(form: seq<FormItem>, i: nat, j: nat)
    requires Positioned(form, i, j) && i < |form|
    requires IsFilePart(form[i]) ==> j == |form[i].body| || form[i].body[j].BodyError?
    ensures Positioned(form, i + 1, 0)
    ensures SentBy(form, i + 1, 0) == SentBy(form, i, j)
  {
    if IsFilePart(form[i]) {
      ChunkMessagesStopsAtError(form[i].body, j);
    }
    if i + 1 < |form| && IsFilePart(form[i + 1]) {
      assert form[i + 1].body[..0] == [];
    }
  }

  /** Abandoning the rest of item `i` reaches the next item. */
  lemma NextItemPositioned(form: seq<FormItem>, i: nat, j: nat)
    requires Positioned(form, i, j) && i < |form|
    ensures Positioned(form, i + 1, 0)
  {
  }

  /** Stepping over one more chunk of a `file` part adds that chunk's message, if any. */
  lemma SentByNextChunk(form: seq<FormItem>, i: nat, j: nat)
    requires Positioned(form, i, j) && i < |form| && IsFilePart(form[i])
    requires j < |form[i].body| && form[i].body[j].Chunk?
    ensures Positioned(form, i, j + 1)
    ensures var bytes := form[i].body[j].bytes;
      SentBy(form, i, j + 1) == SentBy(form, i, j) + (if bytes == [] then [] else [FileChunk(bytes)])
  {
    var body := form[i].body;
    ChunkMessagesSnoc(body[..j], body[j]);
    assert body[..j + 1] == body[..j] + [body[j]];
  }

  /** `handle_upload` once its lookup has found the token's channel: the form, the
      channel it pushes to, the item of the form it is at and, in a `file` part, the
      item of that part's body. `pushed` is what it has pushed so far. Its pushes
      interleave with the forwarder's and the watcher's steps: the registry's read
      guard keeps the token registered, not its channel open. */
  class Upload {
    const form: seq<FormItem>
    const channel: Channel
    var item: nat
    var chunk: nat
    ghost var pushed: seq<BieProtocol>

    /** The length of the body being relayed. */
    function BodyLength(): nat
      reads this
    {
      BodyLengthAt(form, item)
    }

    /** What has been pushed is always a prefix of the form's messages; while the
        channel is open, every push so far has succeeded, so it is everything up to
        the current position. */
    ghost predicate Valid()
      reads this, channel
    {
      && Positioned(form, item, chunk)
      && pushed <= FormMessages(form)
      && (!channel.closed ==> pushed == SentBy(form, item, chunk))
    }

    /** The whole form has been read. */
    predicate Done()
      reads this
    {
      item == |form|
    }

    constructor (form: seq<FormItem>, channel: Channel)
      ensures this.form == form && this.channel == channel
      ensures item == 0 && chunk == 0 && pushed == [] && Valid()
    {
      this.form := form;
      this.channel := channel;
      item := 0;
      chunk := 0;
      pushed := [];
    }

    /** One turn of `form.for_each`: an item that is not a `file` part is skipped, a
        part ends at the end of its body or at its first read error, an empty chunk is
        stepped over, and a non-empty one is pushed whole as one `FileChunk`
        (`copy_to_slice` of `remaining()` bytes empties it at once). A failed push
        abandons the rest of the part: the `return` ends only this part's closure. A
        push that succeeds pushes the next message of the form. */
    method Step()
      requires Valid() && !Done()
      modifies this, channel
      ensures Valid()
      ensures channel.closed == old(channel.closed)
      ensures var cur := form[old(item)];
        if !IsFilePart(cur) || old(chunk) == |cur.body| || cur.body[old(chunk)].BodyError? then
          item == old(item) + 1 && chunk == 0 && pushed == old(pushed) && channel.queue == old(channel.queue)
        else if cur.body[old(chunk)].bytes == [] then
          item == old(item) && chunk == old(chunk) + 1 && pushed == old(pushed) && channel.queue == old(channel.queue)
        else if channel.closed then
          item == old(item) + 1 && chunk == 0 && pushed == old(pushed) && channel.queue == old(channel.queue)
        else
          var m := FileChunk(cur.body[old(chunk)].bytes);
          && item == old(item) && chunk == old(chunk) + 1
          && pushed == old(pushed) + [m] && channel.queue == old(channel.queue) + [m]
      ensures pushed != old(pushed) ==>
        |old(pushed)| < |FormMessages(form)| && pushed == old(pushed) + [FormMessages(form)[|old(pushed)|]]
    {
      var current := form[item];
      if !IsFilePart(current) || chunk == |current.body| || current.body[chunk].BodyError? {
        NextItem();
      } else {
        TakeChunk();
      }
    }

    /** The next body item of a `file` part is a chunk: an empty one is stepped over, a
        non-empty one is pushed whole, and a failed push abandons the rest of the part. */
    method TakeChunk()
      requires Valid() && !Done() && IsFilePart(form[item])
      requires chunk < |form[item].body| && form[item].body[chunk].Chunk?
      modifies this, channel
      ensures Valid()
      ensures channel.closed == old(channel.closed)
      ensures var bytes := form[old(item)].body[old(chunk)].bytes;
        if bytes == [] then
          item == old(item) && chunk == old(chunk) + 1 && pushed == old(pushed) && channel.queue == old(channel.queue)
        else if channel.closed then
          item == old(item) + 1 && chunk == 0 && pushed == old(pushed) && channel.queue == old(channel.queue)
        else
          && item == old(item) && chunk == old(chunk) + 1
          && pushed == old(pushed) + [FileChunk(bytes)] && channel.queue == old(channel.queue) + [FileChunk(bytes)]
      ensures pushed != old(pushed) ==>
        |old(pushed)| < |FormMessages(form)| && pushed == old(pushed) + [FormMessages(form)[|old(pushed)|]]
    {
      var bytes := form[item].body[chunk].bytes;
      SentByNextChunk(form, item, chunk);
      if bytes == [] {
        chunk := chunk + 1;
        return;
      }
      var buffer := bytes;
      var ok := channel.Send(FileChunk(buffer));
      if ok {
        SentByIsPrefix(form, item, chunk + 1);
        NextOfPrefix(pushed, FileChunk(buffer), FormMessages(form));
        pushed := pushed + [FileChunk(buffer)];
        chunk := chunk + 1;
      } else {
        NextItem();
      }
    }

    /** Moving on to the next item of the form: the current one is no `file` part, its
        body has ended or failed, or a push has failed on a closed channel. */
    method NextItem()
      requires Valid() && !Done()
      requires var cur := form[item];
        || !IsFilePart(cur) || chunk == |cur.body| || cur.body[chunk].BodyError? || channel.closed
      modifies this
      ensures Valid()
      ensures item == old(item) + 1 && chunk == 0 && pushed == old(pushed)
    {
      if !channel.closed {
        SentByNextItem(form, item, chunk);
      } else {
        NextItemPositioned(form, item, chunk);
      }
      item, chunk := item + 1, 0;
    }

    /** The `EndOfFile` push after the form: 202 when it succeeds, 500 when the channel
        is closed by then. An upload answered 202 has pushed every message of the form,
        the channel having been open throughout; one answered 500 has pushed a prefix
        of them. */
    method Finish() returns (status: StatusCode)
      requires Valid() && Done()
      modifies channel
      ensures Valid() && channel.closed == old(channel.closed)
      ensures status == if channel.closed then InternalServerError else Accepted
      ensures channel.queue == if channel.closed then old(channel.queue) else old(channel.queue) + [EndOfFile]
      ensures status == Accepted ==> pushed == FormMessages(form)
    {
      var ok := channel.Send(EndOfFile);
      status := if ok then Accepted else InternalServerError;
    }
  }

  /** The lookup of `handle_upload`: an unknown token is answered 404 before anything is
      read from the form; a known one starts an upload into that token's channel. */
  method BeginUpload(token: string, form: seq<FormItem>, registry: Registry) returns (upload: Upload?)
    ensures upload == null <==> token !in registry.connections
    ensures upload != null ==>
      && fresh(upload) && upload.form == form && upload.channel == registry.connections[token]
      && upload.item == 0 && upload.chunk == 0 && upload.pushed == [] && upload.Valid()
  {
    var found := registry.Get(token);
    if found.None? {
      return null;
    }
    upload := new Upload(form, found.value);
  }

  /** `handle_upload` run without interruption. An unknown token answers 404 and touches
      nothing. For a known token whose channel is open the queue gains one `FileChunk`
      per non-empty chunk of every `file` part, then `EndOfFile`, and the answer is
      202; if the channel is closed, nothing is queued and the answer is 500. */
  method HandleUpload(token: string, form: seq<FormItem>, registry: Registry) returns (status: StatusCode)
    modifies if token in registry.connections then {registry.connections[token]} else {}
    ensures token !in registry.connections ==> status == NotFound
    ensures token in registry.connections ==>
      var channel := registry.connections[token];
      && channel.closed == old(channel.closed)
      && (old(channel.closed) ==> status == InternalServerError && channel.queue == old(channel.queue))
      && (!old(channel.closed) ==>
            status == Accepted && channel.queue == old(channel.queue) + FormMessages(form) + [EndOfFile])
  {
    var upload := BeginUpload(token, form, registry);
    if upload == null {
      return NotFound;
    }
    var channel := upload.channel;
    ghost var before := channel.queue;
    while !upload.Done()
      invariant upload.Valid() && upload.form == form && upload.channel == channel
      invariant channel.closed == old(channel.closed)
      invariant channel.queue == before + upload.pushed
      invariant channel.closed ==> upload.pushed == []
      decreases |form| - upload.item, upload.BodyLength() - upload.chunk
    {
      upload.Step();
    }
    status := upload.Finish();
  }

  lemma {:induction false} ChunkMessagesSnoc(p: seq<BodyItem>, b: BodyItem)
    requires forall k :: 0 <= k < |p| ==> p[k].Chunk?
    requires b.Chunk?
    ensures ChunkMessages(p + [b]) == ChunkMessages(p) + (if b.bytes == [] then [] else [FileChunk(b.bytes)])
  {
    if p != [] {
      assert (p + [b])[1..] == p[1..] + [b];
      ChunkMessagesSnoc(p[1..], b);
    } else {
      assert [b][1..] == [];
    }
  }

  lemma {:induction false} ChunkMessagesStopsAtError(body: seq<BodyItem>, j: nat)
    requires j <= |body|
    requires forall k :: 0 <= k < j ==> body[k].Chunk?
    requires j == |body| || body[j].BodyError?
    ensures ChunkMessages(body) == ChunkMessages(body[..j])
  {
    if j == 0 {
    } else {
      assert body[1..][..j - 1] == body[..j][1..];
      ChunkMessagesStopsAtError(body[1..], j - 1);
    }
  }

  /** A client connects to a fresh server over a working socket: it has received its
      token, which is registered with an empty open channel, and both tasks run. */
  method ConnectFresh(random: seq<byte>) returns (registry: Registry, sink: Sink, session: Session)
    requires |random| == TokenLength
    ensures fresh(registry) && fresh(sink) && fresh(session) && fresh(session.channel)
    ensures var token := GenerateSecureRandomString(TokenLength, random);
      && session.token == token && session.sink == sink
      && session.Valid() && session.forwarding && session.watching && session.handling
      && session.channel.queue == [] && sink.Writable() && sink.frames == [Text(token)]
      && registry.connections == map[token := session.channel]
  {
    registry := new Registry();
    sink := new Sink(true);
    var connected := Connect(random, sink, registry);
    session := connected;
  }

  /** The end-to-end scenario: a client connects, a third party uploads a form to its
      token, and the forwarder drains the channel. The upload is accepted, the client
      receives the token as text first, then exactly the bytes of the `file` parts in
      binary chunk frames, then `EndOfFile` and a close frame; afterwards the token
      is no longer registered. */
  method Scenario(random: seq<byte>, form: seq<FormItem>)
    returns (status: StatusCode, frames: seq<Frame>, stillRegistered: bool)
    requires |random| == TokenLength
    ensures status == Accepted
    ensures |frames| >= 3 && frames[0] == Text(GenerateSecureRandomString(TokenLength, random))
    ensures frames[|frames| - 2..] == [Binary(EndOfFile), CloseFrame]
    ensures ChunkBytes(MessagesOf(frames[1..|frames| - 2])) == FileBytes(form)
    ensures !stillRegistered
  {
    var registry, sink, session := ConnectFresh(random);
    var token := session.token;
    assert sink.frames == [Text(token)] && sink.healthy;
    assert registry.connections[token] == session.channel;
    ghost var q := FormMessages(form) + [EndOfFile];
    status := HandleUpload(token, form, registry);
    assert [] + q == q;
    assert session.channel.queue == q;
    UploadDelivered(form);
    session.RunForwarder();
    assert sink.frames == [Text(token)] + Forwarded(q);
    session.JoinAndUnregister(registry);
    frames := sink.frames;
    stillRegistered := token in registry.connections;
    ClientView(form, token, frames);
  }

  lemma ClientView(form: seq<FormItem>, token: string, frames: seq<Frame>)
    requires frames == [Text(token)] + Forwarded(FormMessages(form) + [EndOfFile])
    ensures |frames| >= 3 && frames[0] == Text(token)
    ensures frames[|frames| - 2..] == [Binary(EndOfFile), CloseFrame]
    ensures ChunkBytes(MessagesOf(frames[1..|frames| - 2])) == FileBytes(form)
  {
    var fs := Forwarded(FormMessages(form) + [EndOfFile]);
    UploadDelivered(form);
    AfterText(token, fs, frames);
  }

  /** Slicing the frames behind a leading text frame. */
  lemma AfterText(token: string, fs: seq<Frame>, frames: seq<Frame>)
    requires frames == [Text(token)] + fs && |fs| >= 2
    ensures |frames| >= 3 && frames[0] == Text(token)
    ensures frames[1..|frames| - 2] == fs[..|fs| - 2] && frames[|frames| - 2..] == fs[|fs| - 2..]
  {
  }

  /** The first half of the disconnect: a client that receives its token and then
      closes. The socket answers the close, the watcher pushes `Close`, and the
      forwarder, reading it, closes the channel and ends without writing anything more. */
  method ClosedAfterToken(random: seq<byte>) returns (registry: Registry, sink: Sink, session: Session)
    requires |random| == TokenLength
    ensures fresh(registry) && fresh(sink) && fresh(session) && fresh(session.channel)
    ensures var token := GenerateSecureRandomString(TokenLength, random);
      && session.token == token && session.sink == sink
      && session.Valid() && !session.forwarding && session.handling
      && session.channel.closed
      && sink.frames == [Text(token), CloseFrame]
      && registry.connections == map[token := session.channel]
  {
    registry, sink, session := ConnectFresh(random);
    session.WatcherStep(Some(Received(true)));
    assert session.channel.queue == [Close] && !sink.Writable();
    session.ForwarderStep();
  }

  /** The downloading client disconnects before any upload. Its close is answered, and
      the watcher turns it into a `Close`, on which the forwarder closes the channel. An
      upload that still finds the token, before the handler has removed it, is answered
      500; once the token is removed an upload is answered 404. The client has received
      its token and the answer to its close, nothing else. */
  method DisconnectScenario(random: seq<byte>, form: seq<FormItem>)
    returns (during: StatusCode, after: StatusCode, frames: seq<Frame>)
    requires |random| == TokenLength
    ensures during == InternalServerError && after == NotFound
    ensures frames == [Text(GenerateSecureRandomString(TokenLength, random)), CloseFrame]
  {
    var registry, sink, session := ClosedAfterToken(random);
    var token := session.token;
    assert token in registry.connections && registry.connections[token].closed;
    during := HandleUpload(token, form, registry);
    assert during == InternalServerError;
    assert session.Valid() && !session.forwarding && session.handling;
    session.JoinAndUnregister(registry);
    assert token !in registry.connections;
    after := HandleUpload(token, form, registry);
    frames := sink.frames;
  }

  /** The downloading client leaves while an upload is under way. The first chunk is
      pushed and forwarded; then the client's close arrives and is answered, and the
      watcher's `Close` makes the forwarder close the channel and end. The upload's
      next push fails, which abandons the part, and its `EndOfFile` push fails too: the
      answer is 500. The client has received its token, the first chunk and a close
      frame; the upload queued only a proper prefix of the form's messages. */
  method MidUploadDisconnect(random: seq<byte>, first: seq<byte>, second: seq<byte>)
    returns (status: StatusCode, frames: seq<Frame>, ghost pushed: seq<BieProtocol>)
    requires |random| == TokenLength && first != [] && second != []
    ensures status == InternalServerError
    ensures frames == [Text(GenerateSecureRandomString(TokenLength, random)), Binary(FileChunk(first)), CloseFrame]
    ensures pushed == [FileChunk(first)]
    ensures pushed < FormMessages([Part(FileField, [Chunk(first), Chunk(second)])])
  {
    var registry, sink, session, upload := FirstChunkForwarded(random, first, second);
    session.WatcherStep(Some(Received(true)));
    assert session.channel.queue == [Close];
    session.ForwarderStep();
    assert session.channel.closed && !session.forwarding;
    status := AbandonAfterDisconnect(upload, first, second);
    session.JoinAndUnregister(registry);
    frames := sink.frames;
    pushed := upload.pushed;
    TwoChunks(first, second);
  }

  /** The rest of the upload in `MidUploadDisconnect`, once the channel is closed: the
      push of the second chunk fails, which abandons the part and ends the form, and
      the `EndOfFile` push fails too. */
  method AbandonAfterDisconnect(upload: Upload, first: seq<byte>, second: seq<byte>) returns (status: StatusCode)
    requires first != [] && second != []
    requires upload.Valid() && upload.channel.closed
    requires upload.form == [Part(FileField, [Chunk(first), Chunk(second)])]
    requires upload.item == 0 && upload.chunk == 1 && upload.pushed == [FileChunk(first)]
    modifies upload, upload.channel
    ensures status == InternalServerError && upload.pushed == [FileChunk(first)] && upload.channel.closed
  {
    upload.Step();
    assert upload.Done();
    status := upload.Finish();
  }

  /** The first half of `MidUploadDisconnect`: the client has its token, the upload has
      pushed its first chunk and the forwarder has written it. */
  method FirstChunkForwarded(random: seq<byte>, first: seq<byte>, second: seq<byte>)
    returns (registry: Registry, sink: Sink, session: Session, upload: Upload)
    requires |random| == TokenLength && first != [] && second != []
    ensures fresh(registry) && fresh(sink) && fresh(session) && fresh(session.channel) && fresh(upload)
    ensures var token := GenerateSecureRandomString(TokenLength, random);
      && session.token == token && session.sink == sink
      && session.Valid() && session.forwarding && session.watching && session.handling
      && session.channel.queue == [] && sink.Writable()
      && sink.frames == [Text(token), Binary(FileChunk(first))]
      && registry.connections == map[token := session.channel]
    ensures upload.form == [Part(FileField, [Chunk(first), Chunk(second)])] && upload.channel == session.channel
    ensures upload.Valid() && upload.item == 0 && upload.chunk == 1 && upload.pushed == [FileChunk(first)]
  {
    registry, sink, session := ConnectFresh(random);
    var token := session.token;
    var form := [Part(FileField, [Chunk(first), Chunk(second)])];
    var started := BeginUpload(token, form, registry);
    upload := started;
    assert upload.channel == session.channel && !upload.channel.closed;
    upload.Step();
    assert upload.pushed == [FileChunk(first)] && session.channel.queue == [FileChunk(first)];
    session.ForwarderStep();
  }

  lemma TwoChunks(first: seq<byte>, second: seq<byte>)
    requires first != [] && second != []
    ensures FormMessages([Part(FileField, [Chunk(first), Chunk(second)])]) == [FileChunk(first), FileChunk(second)]
  {
    var body := [Chunk(first), Chunk(second)];
    assert body[1..] == [Chunk(second)];
    assert ChunkMessages([Chunk(second)]) == [FileChunk(second)];
    assert ChunkMessages(body) == [FileChunk(first), FileChunk(second)];
    var form := [Part(FileField, body)];
    assert IsFilePart(form[0]) && PartMessages(form[0]) == ChunkMessages(body);
    assert PrefixMessages(form, 1) == PrefixMessages(form, 0) + PartMessages(form[0]);
  }

  /** The client closes right after receiving its token, and an upload arrives before
      the forwarder has run. The close has been answered and `Close` queued, but the
      channel is still open, so every push succeeds and the upload is answered 202. The
      forwarder then stops at `Close`: the client receives nothing of the file. */
  method CloseBeforeUpload(random: seq<byte>, form: seq<FormItem>)
    returns (status: StatusCode, frames: seq<Frame>, stillRegistered: bool)
    requires |random| == TokenLength
    ensures status == Accepted
    ensures frames == [Text(GenerateSecureRandomString(TokenLength, random)), CloseFrame]
    ensures !stillRegistered
  {
    var registry, sink, session := ConnectFresh(random);
    var token := session.token;
    assert registry.connections[token] == session.channel;
    session.WatcherStep(Some(Received(true)));
    assert session.channel.queue == [Close] && sink.frames == [Text(token), CloseFrame];
    status := UploadBehindClose(token, form, registry, session.channel);
    session.ForwarderStep();
    session.JoinAndUnregister(registry);
    frames := sink.frames;
    stillRegistered := token in registry.connections;
  }

  /** An upload to a session whose client has closed but whose forwarder has yet to
      read the `Close`: every push succeeds, behind the `Close`. */
  method UploadBehindClose(token: string, form: seq<FormItem>, registry: Registry, channel: Channel)
    returns (status: StatusCode)
    requires token in registry.connections && registry.connections[token] == channel
    requires !channel.closed && channel.queue == [Close]
    modifies channel
    ensures status == Accepted && !channel.closed
    ensures |channel.queue| > 1 && channel.queue[0] == Close
  {
    status := HandleUpload(token, form, registry);
    assert channel.queue == [Close] + FormMessages(form) + [EndOfFile];
  }

  /** `CloseBeforeUpload` with the evicting watcher: the client's close removes the
      token at once, so the upload that arrives before the forwarder has run is
      answered 404 rather than accepted for a client that is gone. */
  method CloseBeforeUploadEvicted(random: seq<byte>, form: seq<FormItem>)
    returns (status: StatusCode, frames: seq<Frame>, stillRegistered: bool)
    requires |random| == TokenLength
    ensures status == NotFound
    ensures frames == [Text(GenerateSecureRandomString(TokenLength, random)), CloseFrame]
    ensures !stillRegistered
  {
    var registry, sink, session := ConnectFresh(random);
    var token := session.token;
    session.WatcherStepEvicting(Some(Received(true)), registry);
    assert token !in registry.connections;
    status := HandleUpload(token, form, registry);
    assert session.channel.queue == [Close];
    session.ForwarderStep();
    session.JoinAndUnregister(registry);
    frames := sink.frames;
    stillRegistered := token in registry.connections;
  }

  /** The client's network fails after it has received its token. The upload is
      still queued and answered 202, but the forwarder's first write fails, its
      unwrap panics and the task ends; the handler's join returns all the same and
      the token is removed. The client has received only its token. */
  method BrokenSocketScenario(random: seq<byte>, form: seq<FormItem>)
    returns (status: StatusCode, frames: seq<Frame>, stillRegistered: bool)
    requires |random| == TokenLength
    ensures status == Accepted
    ensures frames == [Text(GenerateSecureRandomString(TokenLength, random))]
    ensures !stillRegistered
  {
    var registry, sink, session := ConnectFresh(random);
    var token := session.token;
    assert registry.connections[token] == session.channel;
    sink.Break();
    status := HandleUpload(token, form, registry);
    assert [] + (FormMessages(form) + [EndOfFile]) == FormMessages(form) + [EndOfFile];
    assert status == Accepted;
    assert session.channel.queue == FormMessages(form) + [EndOfFile];
    assert sink.frames == [Text(token)] && !sink.healthy;
    UploadDelivered(form);
    session.RunForwarder();
    assert !session.forwarding && sink.frames == [Text(token)];
    session.JoinAndUnregister(registry);
    frames := sink.frames;
    stillRegistered := token in registry.connections;
  }

  /** The messages inside the binary frames of `fs`, in order. */
  function MessagesOf(fs: seq<Frame>): seq<BieProtocol> {
    if fs == [] then [] else (if fs[0].Binary? then [fs[0].msg] else []) + MessagesOf(fs[1..])
  }

  /** What the forwarder writes for a whole upload: the chunk frames, then `EndOfFile`
      and a close frame, and it stops there. */
  lemma {:induction false} UploadDelivered(form: seq<FormItem>)
    ensures var fs := Forwarded(FormMessages(form) + [EndOfFile]);
      && |fs| >= 2 && fs[|fs| - 2..] == [Binary(EndOfFile), CloseFrame]
      && ChunkBytes(MessagesOf(fs[..|fs| - 2])) == FileBytes(form)
      && HasEnd(FormMessages(form) + [EndOfFile])
  {
    var q := FormMessages(form);
    FormMessagesCarryFile(form);
    ChunksForwarded(q);
    assert !HasEnd(q);
    ForwardedSnoc(q, EndOfFile);
    var fs := Forwarded(q + [EndOfFile]);
    assert fs[..|fs| - 2] == Forwarded(q);
    assert (q + [EndOfFile])[|q|] == EndOfFile;
  }

  /** A queue of chunks is forwarded one binary frame per chunk, with its message. */
  lemma {:induction false} ChunksForwarded(q: seq<BieProtocol>)
    requires forall i :: 0 <= i < |q| ==> q[i].FileChunk?
    ensures !HasEnd(q)
    ensures MessagesOf(Forwarded(q)) == q
  {
    if q != [] {
      ChunksForwarded(q[1..]);
      assert !HasEnd(q) by {
        forall i | 0 <= i < |q| ensures !Ends(q[i]) { }
      }
      assert Forwarded(q) == [Binary(q[0])] + Forwarded(q[1..]);
      assert MessagesOf(Forwarded(q)) == [q[0]] + MessagesOf(Forwarded(q[1..]));
    }
  }
}
