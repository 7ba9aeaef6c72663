/** The SNI-routed TCP relay (cmd/relay/main.go). A receiver registers over a
    multiplexed session and is issued a token; a sender connects with the token as the
    first label of its TLS server name, and the relay pipes the sender to the
    receiver's data stream once. The connection store is the shared state; the
    sessions, streams and the TLS peek are replaced by their outcomes. */
module SniRelay {
  import opened Common
  import Base32
  import Bielog

  /** Number of random bytes behind a token (`tokenSize`). */
  const TokenSize: nat := 32

  /** A receiver's data stream, as the store holds it. */
  type StreamId = nat

  /** `generateSecureToken` once `crypto/rand` has filled its buffer: the unpadded
      base32 encoding of the 32 random bytes. */
  function GenerateSecureToken(random: seq<byte>): (xid: string)
    requires |random| == TokenSize
    ensures |xid| == 52
    ensures forall i :: 0 <= i < |xid| ==> Base32.IsBase32Char(xid[i])
  {
    Base32.Encode(random)
  }

  /** The issued token: `shardID + "-" + xid`, lower-cased as a whole. */
  function MakeToken(shardId: string, xid: string): (token: string)
    ensures |token| == |shardId| + 1 + |xid|
    ensures token[|shardId|] == '-'
    ensures token[..|shardId|] == Lower(shardId) && token[|shardId| + 1..] == Lower(xid)
    ensures IsLowerString(token)
  {
    LowerIsLower(shardId + "-" + xid);
    LowerAppend(shardId, "-" + xid);
    LowerAppend("-", xid);
    Lower(shardId + "-" + xid)
  }

  /** Lower-casing is one-to-one on base32 text, which has no lower-case letters. */
  lemma LowerInjectiveOnBase32(x: string, y: string)
    requires |x| == |y|
    requires forall i :: 0 <= i < |x| ==> Base32.IsBase32Char(x[i])
    requires forall i :: 0 <= i < |y| ==> Base32.IsBase32Char(y[i])
    requires Lower(x) == Lower(y)
    ensures x == y
  {
    forall i | 0 <= i < |x| ensures x[i] == y[i] {
      assert LowerChar(x[i]) == LowerChar(y[i]);
    }
  }

  /** Within one shard, distinct random buffers give distinct tokens. */
  lemma TokensOfShardAreDistinct(shardId: string, a: seq<byte>, b: seq<byte>)
    requires |a| == TokenSize && |b| == TokenSize
    requires MakeToken(shardId, GenerateSecureToken(a)) == MakeToken(shardId, GenerateSecureToken(b))
    ensures a == b
  {
    var x, y := GenerateSecureToken(a), GenerateSecureToken(b);
    assert Lower(x) == MakeToken(shardId, x)[|shardId| + 1..];
    assert Lower(y) == MakeToken(shardId, y)[|shardId| + 1..];
    LowerInjectiveOnBase32(x, y);
    Base32.EncodeInjective(a, b);
  }

  /** The token holds no `'.'` when the shard identifier holds none, so it survives
      being the first label of a host name. */
  lemma TokenHasNoDot(shardId: string, random: seq<byte>)
    requires |random| == TokenSize
    requires HasNoDot(shardId)
    ensures HasNoDot(MakeToken(shardId, GenerateSecureToken(random)))
  {
    var xid := GenerateSecureToken(random);
    var token := MakeToken(shardId, xid);
    forall i | 0 <= i < |token| ensures token[i] != '.' {
      if i < |shardId| {
        assert token[i] == token[..|shardId|][i] == LowerChar(shardId[i]);
      } else if i > |shardId| {
        assert token[i] == token[|shardId| + 1..][i - |shardId| - 1] == LowerChar(xid[i - |shardId| - 1]);
      }
    }
  }

  predicate HasNoDot(s: string) {
    forall i :: 0 <= i < |s| ==> s[i] != '.'
  }

  /** `strings.Split(s, ".")[0]`: everything before the first `'.'`, or all of `s`. */
  function FirstLabel(s: string): (first: string)
    ensures |first| <= |s| && first == s[..|first|]
    ensures HasNoDot(first)
    ensures |first| < |s| ==> s[|first|] == '.'
    ensures HasNoDot(s) ==> first == s
  {
    if s == [] || s[0] == '.' then [] else [s[0]] + FirstLabel(s[1..])
  }

  /** The token a sender asks for: the first label of its lower-cased server name. */
  function TokenFromServerName(serverName: string): (token: string)
    ensures IsLowerString(token) && HasNoDot(token)
    ensures |token| <= |serverName|
  {
    var first := FirstLabel(Lower(serverName));
    LowerIsLower(serverName);
    assert forall i :: 0 <= i < |first| ==> first[i] == Lower(serverName)[i];
    first
  }

  lemma {:induction false} FirstLabelOfDotted(token: string, rest: string)
    requires HasNoDot(token)
    ensures FirstLabel(token + "." + rest) == token
  {
    if token != [] {
      assert (token + "." + rest)[1..] == token[1..] + "." + rest;
      FirstLabelOfDotted(token[1..], rest);
    }
  }

  /** The client's host name `token + "." + domain` routes back to the token
      (cmd/cli/main.go builds it; the relay splits it). */
  lemma ServerNameRoundTrip(token: string, domain: string)
    requires IsLowerString(token) && HasNoDot(token)
    ensures TokenFromServerName(token + "." + domain) == token
  {
    LowerAppend(token + ".", domain);
    LowerAppend(token, ".");
    LowerOfLower(token);
    assert Lower(".") == ".";
    FirstLabelOfDotted(token, Lower(domain));
  }

  /** The relay's token → data stream table (`connectionStore`); each method is one
      critical section of its mutex. */
  class ConnectionStore {
    var connections: map<string, StreamId>

    constructor()
      ensures connections == map[]
    {
      connections := map[];
    }

    /** Registration of a receiver's data stream under its token. */
    method Register(token: string, stream: StreamId)
      modifies this
      ensures connections == old(connections)[token := stream]
    {
      connections := connections[token := stream];
    }

    /** Lookup and delete under one lock: the stream is handed out at most once. */
    method Take(token: string) returns (stream: Option<StreamId>)
      modifies this
      ensures token in old(connections) ==> stream == Some(old(connections)[token])
      ensures token !in old(connections) ==> stream == None && connections == old(connections)
      ensures connections == old(connections) - {token}
    {
      if token !in connections {
        return None;
      }
      stream := Some(connections[token]);
      connections := connections - {token};
    }

    /** Deletion of a token at receiver teardown; a no-op once a sender took it. */
    method Expire(token: string)
      modifies this
      ensures connections == old(connections) - {token}
      ensures token !in old(connections) ==> connections == old(connections)
    {
      connections := connections - {token};
    }
  }

  /** How far a receiver's setup gets before the registration completes: the smux
      session, the auth stream and the request read; the token response; the data
      stream. */
  datatype Setup =
    | FailsBeforeRequest
    | FailsSendingToken
    | FailsOpeningStream
    | Succeeds(stream: StreamId)

  /** `registerReceiver` up to the registration. `issued` is the token the client
      was sent; the store changes only when the data stream opened. */
  method RegisterReceiver(store: ConnectionStore, shardId: string, random: seq<byte>, setup: Setup)
    returns (issued: Option<string>)
    requires |random| == TokenSize
    modifies store
    ensures var token := MakeToken(shardId, GenerateSecureToken(random));
      match setup
      case FailsBeforeRequest => issued == None && store.connections == old(store.connections)
      case FailsSendingToken => issued == None && store.connections == old(store.connections)
      case FailsOpeningStream => issued == Some(token) && store.connections == old(store.connections)
      case Succeeds(stream) => issued == Some(token) && store.connections == old(store.connections)[token := stream]
  {
    if setup.FailsBeforeRequest? {
      return None;
    }
    var xid := GenerateSecureToken(random);
    var token := MakeToken(shardId, xid);
    if setup.FailsSendingToken? {
      return None;
    }
    issued := Some(token);
    if setup.FailsOpeningStream? {
      return;
    }
    store.Register(token, setup.stream);
  }

  /** The end of `registerReceiver` once its session has closed. */
  method ReceiverTeardown(store: ConnectionStore, token: string)
    modifies store
    ensures store.connections == old(store.connections) - {token}
  {
    store.Expire(token);
  }

  datatype SenderOutcome =
    | NoSni
    | NoReceiver(token: string)
    | Piped(token: string, receiver: StreamId)

  /** `forwardSender` up to the pipe. `peeked` is the server name the ClientHello
      peek returned, `None` when the peek failed. */
  method ForwardSender(store: ConnectionStore, peeked: Option<string>) returns (outcome: SenderOutcome)
    modifies store
    ensures (peeked.None? || peeked.value == "") ==> outcome == NoSni && store.connections == old(store.connections)
    ensures peeked.Some? && peeked.value != "" ==>
      var token := TokenFromServerName(peeked.value);
      (token in old(store.connections) ==>
         outcome == Piped(token, old(store.connections)[token]) && store.connections == old(store.connections) - {token})
      && (token !in old(store.connections) ==>
         outcome == NoReceiver(token) && store.connections == old(store.connections))
  {
    if peeked.None? || peeked.value == "" {
      return NoSni;
    }
    var token := TokenFromServerName(peeked.value);
    var receiver := store.Take(token);
    if receiver.None? {
      return NoReceiver(token);
    }
    outcome := Piped(token, receiver.value);
  }

  /** A receiver registers, the client publishes `token + "." + domain`, and two
      senders connect with that server name: the first is piped to the receiver's
      stream, the second finds nothing, and teardown leaves the store empty. */
  method RelayScenario(shardId: string, random: seq<byte>, domain: string, stream: StreamId)
    returns (first: SenderOutcome, second: SenderOutcome, remaining: map<string, StreamId>)
    requires |random| == TokenSize
    requires HasNoDot(shardId)
    ensures first == Piped(MakeToken(shardId, GenerateSecureToken(random)), stream)
    ensures second == NoReceiver(MakeToken(shardId, GenerateSecureToken(random)))
    ensures remaining == map[]
  {
    var store := new ConnectionStore();
    var issued := RegisterReceiver(store, shardId, random, Succeeds(stream));
    var token := issued.value;
    TokenHasNoDot(shardId, random);
    ServerNameRoundTrip(token, domain);
    first := ForwardSender(store, Some(token + "." + domain));
    second := ForwardSender(store, Some(token + "." + domain));
    ReceiverTeardown(store, token);
    remaining := store.connections;
  }

  /** The logging set-up at the start of `main` as written: the configured logger
      is built, but the context is given what `FromCtx` finds in the still empty
      context, which is the fallback logger. */
  function ContextLoggerAsWritten(logType: string, logLevel: string): (ctx: Bielog.Context)
    ensures Bielog.FromCtx(ctx) == Some(Bielog.DefaultLogger)
  {
    var empty := Bielog.Background;
    Bielog.CtxWithLogger(empty, Bielog.FromCtx(empty))
  }

  /** Whatever level is configured, the logger in the context has none set (so it
      logs at `Info`), and it writes text even when JSON is configured. */
  lemma ContextLoggerIgnoresConfiguration(logType: string, logLevel: string)
    ensures var logger := Bielog.FromCtx(ContextLoggerAsWritten(logType, logLevel));
      logger != Some(Bielog.NewLogger(logType, logLevel, None))
      && logger.value.options.level == None
      && logger.value.handler == Bielog.TextHandler
  {
  }

  /** The set-up as evidently intended: the context carries the configured logger. */
  function ContextLogger(logType: string, logLevel: string): (ctx: Bielog.Context)
    ensures Bielog.FromCtx(ctx) == Some(Bielog.NewLogger(logType, logLevel, None))
    ensures Bielog.FromCtx(ctx).value.options.level == Some(Bielog.ParseLogLevel(logLevel))
  {
    Bielog.CtxWithLogger(Bielog.Background, Some(Bielog.NewLogger(logType, logLevel, None)))
  }
}
