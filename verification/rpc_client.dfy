/** The client façade `RPCClient`: at most one local (in-process) and one remote (broker)
    transport handle, the synchronous `Call`, the fire-and-forget `CallNR`, and `Done`.
    Transports are oracles: each says how it answers an envelope, so every operation here is
    a total function of the client, the arguments, the clock reading and the correlation id. */
module RpcClient {
  import opened Wrappers
  import opened Marshaler
  import opened Envelope
  import Base64

  /** Which of the two transports a call went through. */
  datatype Side = Local | Remote

  /** The value/error pair a transport delivers on a call's result channel. */
  datatype ResultInfo<R> = ResultInfo(result: Option<R>, error: string)

  /** What the one-shot result channel ends with: one delivered value, or closed without one. */
  datatype Channel<R> = Delivered(info: ResultInfo<R>) | ClosedEmpty

  /** A transport's answer to `Call`: an immediate dispatch error (or none), and how the
      result channel ends if it is read. */
  datatype TransportReply<R> = TransportReply(err: Option<string>, channel: Channel<R>)

  /** A transport handle, by its behaviour: its answers to `Call` and `CallNR` for each
      envelope, and the error (if any) its `Done` returns. */
  datatype Transport<R> = Transport(
    call: CallInfo -> TransportReply<R>,
    callNR: CallInfo -> Option<string>,
    done: Option<string>)

  datatype Client<R> = Client(remote: Option<Transport<R>>, local: Option<Transport<R>>)

  const ConnectionFailed: string := "rpc service connection failed"
  const ClientClosed: string := "client closed"

  /** `NewRPCClient`: a client with neither transport; Go's always-nil error is dropped. */
  function NewRPCClient<R>(): (c: Client<R>)
    ensures c.remote.None? && c.local.None?
    ensures Select(c).None?
  {
    Client(None, None)
  }

  /** The transport a call goes through: local whenever present, remote otherwise. */
  function Select<R>(c: Client<R>): (s: Option<Side>)
    ensures s == Some(Local) <==> c.local.Some?
    ensures s == Some(Remote) <==> c.local.None? && c.remote.Some?
    ensures s.None? <==> c.local.None? && c.remote.None?
  {
    if c.local.Some? then Some(Local)
    else if c.remote.Some? then Some(Remote)
    else None
  }

  function HandleOf<R>(c: Client<R>, side: Side): Transport<R>
    requires if side == Local then c.local.Some? else c.remote.Some?
  {
    if side == Local then c.local.value else c.remote.value
  }

  /** An envelope handed to the transport on `side`. */
  datatype Handoff = Handoff(side: Side, envelope: CallInfo)

  /** The terminal states of one `Call`. */
  datatype CallOutcome<R> =
    | MarshalFailed(err: MarshalError)
    | NoTransport
    | DispatchFailed(msg: string)
    | ChannelClosed
    | Resolved(info: ResultInfo<R>)

  /** One `Call`: its outcome, and the envelope handed to a transport, if any was. */
  datatype CallRun<R> = CallRun(outcome: CallOutcome<R>, handoff: Option<Handoff>)

  /** `RPCClient.Call(fn, params...)` with correlation id `cid`, clock reading `nowNs` and the
      configured `rpcExpired` seconds. */
  function Call<R>(c: Client<R>, fn: string, params: seq<Arg>, cid: string, nowNs: int, rpcExpired: nat): (run: CallRun<R>)
    // marshal errors come first, whatever the transports
    ensures Marshal(params).Failure? ==>
      run == CallRun(MarshalFailed(Marshal(params).error), None)
    ensures Marshal(params).Success? && Select(c).None? ==> run == CallRun(NoTransport, None)
    // a transport is consulted exactly when the arguments marshal and one is present
    ensures run.handoff.Some? <==> Marshal(params).Success? && Select(c).Some?
    ensures run.handoff.Some? ==> Some(run.handoff.value.side) == Select(c)
    ensures run.handoff.None? <==> run.outcome.MarshalFailed? || run.outcome.NoTransport?
    // the envelope handed over
    ensures run.handoff.Some? ==>
      var e := run.handoff.value.envelope;
      && e.fn == fn && e.reply && e.cid == cid
      && e.expired == ExpiredAt(nowNs, rpcExpired)
      && e.args == Marshal(params).value.args
      && e.argsType == Marshal(params).value.argsType
      && Unmarshal(e.argsType, e.args) == Some(params)
    // how the transport's answer becomes the outcome
    ensures run.handoff.Some? ==>
      var h := run.handoff.value;
      var reply := HandleOf(c, h.side).call(h.envelope);
      && (reply.err.Some? ==> run.outcome == DispatchFailed(reply.err.value))
      && (reply.err.None? && reply.channel.ClosedEmpty? ==> run.outcome == ChannelClosed)
      && (reply.err.None? && reply.channel.Delivered? ==> run.outcome == Resolved(reply.channel.info))
  {
    match Marshal(params)
    case Failure(e) => CallRun(MarshalFailed(e), None)
    case Success(m) =>
      var envelope := CallEnvelope(fn, m, cid, nowNs, rpcExpired);
      match Select(c)
      case None => CallRun(NoTransport, None)
      case Some(side) =>
        MarshalRoundTrip(params);
        var reply := HandleOf(c, side).call(envelope);
        var outcome :=
          if reply.err.Some? then DispatchFailed(reply.err.value)
          else match reply.channel
            case ClosedEmpty => ChannelClosed
            case Delivered(info) => Resolved(info);
        CallRun(outcome, Some(Handoff(side, envelope)))
  }

  /** The error part of what Go's `Call` and `CallNR` return: either the formatted
      unsupported-argument message, kept as its index and kind, or plain text. */
  datatype ErrorText = ArgsNotAllowed(index: nat, kind: string) | Text(msg: string)

  /** Go's `(interface{}, string)` return of `Call`: a result only when one was delivered. */
  function CallReturn<R>(o: CallOutcome<R>): (r: (Option<R>, ErrorText))
    ensures r.0.Some? ==> o.Resolved?
    ensures o.NoTransport? ==> r.1 == Text(ConnectionFailed)
    ensures o.ChannelClosed? ==> r.1 == Text(ClientClosed)
    ensures o.MarshalFailed? ==> r == (None, ArgsNotAllowed(o.err.index, o.err.kind))
    ensures o.DispatchFailed? ==> r == (None, Text(o.msg))
    ensures o.Resolved? ==> r == (o.info.result, Text(o.info.error))
  {
    match o
    case MarshalFailed(e) => (None, ArgsNotAllowed(e.index, e.kind))
    case NoTransport => (None, Text(ConnectionFailed))
    case DispatchFailed(msg) => (None, Text(msg))
    case ChannelClosed => (None, Text(ClientClosed))
    case Resolved(info) => (info.result, Text(info.error))
  }

  /** The terminal states of one `CallNR`. */
  datatype CallNROutcome =
    | NRMarshalFailed(err: MarshalError)
    | NRNoTransport
    | NRDispatchFailed(msg: string)
    | Handed

  datatype CallNRRun = CallNRRun(outcome: CallNROutcome, handoff: Option<Handoff>)

  /** `RPCClient.CallNR(fn, params...)`: as `Call`, but with `Reply` false, no result channel,
      and, as the code stands, no `ArgsType` in the envelope. */
  function CallNR<R>(c: Client<R>, fn: string, params: seq<Arg>, cid: string, nowNs: int, rpcExpired: nat): (run: CallNRRun)
    ensures Marshal(params).Failure? ==>
      run == CallNRRun(NRMarshalFailed(Marshal(params).error), None)
    ensures Marshal(params).Success? && Select(c).None? ==> run == CallNRRun(NRNoTransport, None)
    ensures run.handoff.Some? <==> Marshal(params).Success? && Select(c).Some?
    ensures run.handoff.Some? ==> Some(run.handoff.value.side) == Select(c)
    ensures run.handoff.None? <==> run.outcome.NRMarshalFailed? || run.outcome.NRNoTransport?
    ensures run.handoff.Some? ==>
      var e := run.handoff.value.envelope;
      && e.fn == fn && !e.reply && e.cid == cid
      && e.expired == ExpiredAt(nowNs, rpcExpired)
      && e.args == Marshal(params).value.args
      && e.argsType.None?
    ensures run.handoff.Some? ==>
      var h := run.handoff.value;
      var err := HandleOf(c, h.side).callNR(h.envelope);
      && (err.Some? ==> run.outcome == NRDispatchFailed(err.value))
      && (err.None? ==> run.outcome == Handed)
  {
    match Marshal(params)
    case Failure(e) => CallNRRun(NRMarshalFailed(e), None)
    case Success(m) =>
      var envelope := CallNREnvelope(fn, m, cid, nowNs, rpcExpired);
      match Select(c)
      case None => CallNRRun(NRNoTransport, None)
      case Some(side) =>
        var err := HandleOf(c, side).callNR(envelope);
        var outcome := if err.Some? then NRDispatchFailed(err.value) else Handed;
        CallNRRun(outcome, Some(Handoff(side, envelope)))
  }

  /** Go's `error` return of `CallNR`: nil exactly when the envelope was handed over. */
  function CallNRReturn(o: CallNROutcome): (r: Option<ErrorText>)
    ensures r.None? <==> o.Handed?
    ensures o.NRNoTransport? ==> r == Some(Text(ConnectionFailed))
    ensures o.NRDispatchFailed? ==> r == Some(Text(o.msg))
    ensures o.NRMarshalFailed? ==> r == Some(ArgsNotAllowed(o.err.index, o.err.kind))
  {
    match o
    case NRMarshalFailed(e) => Some(ArgsNotAllowed(e.index, e.kind))
    case NRNoTransport => Some(Text(ConnectionFailed))
    case NRDispatchFailed(msg) => Some(Text(msg))
    case Handed => None
  }

  /** The transports `Done` shuts down, in order, and the error it returns. */
  datatype DoneRun = DoneRun(shutdown: seq<Side>, err: Option<string>)

  /** `RPCClient.Done`: shut down remote, then local; each result overwrites the last. */
  function Done<R>(c: Client<R>): (d: DoneRun)
    ensures d.shutdown == (if c.remote.Some? then [Remote] else []) + (if c.local.Some? then [Local] else [])
    ensures |d.shutdown| == 0 ==> d.err.None?
    ensures |d.shutdown| > 0 ==> d.err == HandleOf(c, d.shutdown[|d.shutdown| - 1]).done
  {
    var afterRemote := if c.remote.Some? then c.remote.value.done else None;
    var afterLocal := if c.local.Some? then c.local.value.done else afterRemote;
    DoneRun((if c.remote.Some? then [Remote] else []) + (if c.local.Some? then [Local] else []), afterLocal)
  }

  /** What `NewAMQPClient` or `NewLocalClient` would return if called: a handle (possibly
      nil) and an error (possibly nil). */
  datatype Dial<R> = Dial(handle: Option<Transport<R>>, err: Option<string>)

  /** The broker configuration handed to `NewRemoteClient`; only the transport reads it. */
  datatype RabbitmqInfo = RabbitmqInfo(uri: string)

  /** The server handed to `NewLocalClient`, by whether it owns an in-process local server. */
  datatype RpcServer = RpcServer(hasLocalServer: bool)

  /** A client after a set-up call, and that call's error. */
  datatype Setup<R> = Setup(client: Client<R>, err: Option<string>)

  /** `NewRemoteClient`: dials only when configuration is given and no remote handle exists. */
  function NewRemoteClient<R>(c: Client<R>, info: Option<RabbitmqInfo>, dial: Dial<R>): (r: Setup<R>)
    ensures r.client.local == c.local
    ensures info.None? || c.remote.Some? ==> r == Setup(c, None)
    ensures info.Some? && c.remote.None? ==> r.client.remote == dial.handle && r.err == dial.err
  {
    if info.Some? && c.remote.None? then Setup(c.(remote := dial.handle), dial.err)
    else Setup(c, None)
  }

  /** `NewLocalClient`: binds only when the server owns a local server and no local handle
      exists. */
  function NewLocalClient<R>(c: Client<R>, server: Option<RpcServer>, dial: Dial<R>): (r: Setup<R>)
    ensures r.client.remote == c.remote
    ensures server.None? || !server.value.hasLocalServer || c.local.Some? ==> r == Setup(c, None)
    ensures server.Some? && server.value.hasLocalServer && c.local.None? ==>
      r.client.local == dial.handle && r.err == dial.err
  {
    if server.Some? && server.value.hasLocalServer && c.local.None? then
      Setup(c.(local := dial.handle), dial.err)
    else Setup(c, None)
  }

  /** With a local handle present, the remote handle plays no part in a call. */
  lemma LocalShadowsRemote<R>(c: Client<R>, other: Option<Transport<R>>, fn: string, params: seq<Arg>, cid: string, nowNs: int, rpcExpired: nat)
    requires c.local.Some?
    ensures Call(c, fn, params, cid, nowNs, rpcExpired) == Call(c.(remote := other), fn, params, cid, nowNs, rpcExpired)
    ensures CallNR(c, fn, params, cid, nowNs, rpcExpired) == CallNR(c.(remote := other), fn, params, cid, nowNs, rpcExpired)
  {
  }

  /** Bad arguments fail the same way on every client, configured or not. */
  lemma MarshalErrorPrecedes<R>(c1: Client<R>, c2: Client<R>, fn: string, params: seq<Arg>, cid: string, nowNs: int, rpcExpired: nat)
    requires Marshal(params).Failure?
    ensures Call(c1, fn, params, cid, nowNs, rpcExpired) == Call(c2, fn, params, cid, nowNs, rpcExpired)
    ensures CallNR(c1, fn, params, cid, nowNs, rpcExpired) == CallNR(c2, fn, params, cid, nowNs, rpcExpired)
  {
  }

  /** A fresh client hands nothing to any transport. */
  lemma FreshClientCannotDispatch<R>(fn: string, params: seq<Arg>, cid: string, nowNs: int, rpcExpired: nat)
    ensures var run := Call(NewRPCClient<R>(), fn, params, cid, nowNs, rpcExpired);
      run.handoff.None? && CallReturn(run.outcome).0.None?
    ensures CallNR(NewRPCClient<R>(), fn, params, cid, nowNs, rpcExpired).handoff.None?
  {
  }

  /** `Done` reports the local shutdown's result whenever a local handle exists, so a
      failed remote shutdown goes unreported when the local one succeeds. */
  lemma DoneLocalResultWins<R>(c: Client<R>)
    requires c.local.Some?
    ensures Done(c).err == c.local.value.done
  {
  }

  /** One of the two set-up calls. */
  datatype Setter<R> =
    | SetRemote(info: Option<RabbitmqInfo>, remoteDial: Dial<R>)
    | SetLocal(server: Option<RpcServer>, localDial: Dial<R>)

  function Apply<R>(c: Client<R>, op: Setter<R>): Client<R> {
    match op
    case SetRemote(info, dial) => NewRemoteClient(c, info, dial).client
    case SetLocal(server, dial) => NewLocalClient(c, server, dial).client
  }

  /** The client after a sequence of set-up calls, in order. */
  function ApplyAll<R>(c: Client<R>, ops: seq<Setter<R>>): Client<R>
    decreases |ops|
  {
    if |ops| == 0 then c else ApplyAll(Apply(c, ops[0]), ops[1..])
  }

  /** Each handle is set at most once: once present, no later set-up call changes it. */
  lemma {:induction false} HandlesSetOnce<R>(c: Client<R>, ops: seq<Setter<R>>)
    ensures c.remote.Some? ==> ApplyAll(c, ops).remote == c.remote
    ensures c.local.Some? ==> ApplyAll(c, ops).local == c.local
    decreases |ops|
  {
    if |ops| > 0 {
      HandlesSetOnce(Apply(c, ops[0]), ops[1..]);
    }
  }

  /** `CallNR` with `ArgsType` filled in as `Call` does: the envelope the rest of the protocol
      expects. */
  function CallNRTyped<R>(c: Client<R>, fn: string, params: seq<Arg>, cid: string, nowNs: int, rpcExpired: nat): (run: CallNRRun)
    ensures run.handoff.Some? <==> Marshal(params).Success? && Select(c).Some?
    ensures run.handoff.Some? ==>
      var e := run.handoff.value.envelope;
      && e.argsType == Marshal(params).value.argsType
      && Unmarshal(e.argsType, e.args) == Some(params)
    ensures run.handoff.Some? ==>
      run.handoff.value.envelope == CallNR(c, fn, params, cid, nowNs, rpcExpired).handoff.value.envelope.(argsType := Marshal(params).value.argsType)
    ensures run.outcome.NRMarshalFailed? || run.outcome.NRNoTransport? ==>
      run == CallNR(c, fn, params, cid, nowNs, rpcExpired)
    ensures run.handoff.Some? ==> Some(run.handoff.value.side) == Select(c)
    ensures run.handoff.Some? ==>
      var h := run.handoff.value;
      var err := HandleOf(c, h.side).callNR(h.envelope);
      && (err.Some? ==> run.outcome == NRDispatchFailed(err.value))
      && (err.None? ==> run.outcome == Handed)
  {
    match Marshal(params)
    case Failure(e) => CallNRRun(NRMarshalFailed(e), None)
    case Success(m) =>
      var envelope := CallNREnvelope(fn, m, cid, nowNs, rpcExpired).(argsType := m.argsType);
      match Select(c)
      case None => CallNRRun(NRNoTransport, None)
      case Some(side) =>
        MarshalRoundTrip(params);
        var err := HandleOf(c, side).callNR(envelope);
        var outcome := if err.Some? then NRDispatchFailed(err.value) else Handed;
        CallNRRun(outcome, Some(Handoff(side, envelope)))
  }

  /** As written, a `CallNR` envelope carrying a byte-slice argument cannot be read back: the
      base64 text arrives untagged, indistinguishable from a string argument. */
  lemma CallNRLosesByteArgs<R>(c: Client<R>, fn: string, params: seq<Arg>, cid: string, nowNs: int, rpcExpired: nat, i: nat)
    requires i < |params| && params[i].Bytes?
    requires Marshal(params).Success? && Select(c).Some?
    ensures var e := CallNR(c, fn, params, cid, nowNs, rpcExpired).handoff.value.envelope;
      Unmarshal(e.argsType, e.args) != Some(params)
  {
    var e := CallNR(c, fn, params, cid, nowNs, rpcExpired).handoff.value.envelope;
    assert e.args[i].Str?;
  }

  /** As written, `CallNR` with a byte slice and `CallNR` with that slice's base64url text
      as a string build the same envelope and end the same way: no receiver can tell the two
      argument lists apart. */
  lemma CallNRBytesLookLikeText<R>(c: Client<R>, fn: string, b: seq<Base64.byte>, cid: string, nowNs: int, rpcExpired: nat)
    ensures [Bytes(b)] != [Str(Base64.Encode(b))]
    ensures CallNR(c, fn, [Bytes(b)], cid, nowNs, rpcExpired) == CallNR(c, fn, [Str(Base64.Encode(b))], cid, nowNs, rpcExpired)
  {
    var p, q := [Bytes(b)], [Str(Base64.Encode(b))];
    assert Marshal(p).Success? && Marshal(q).Success?;
    assert Marshal(p).value.args == Marshal(q).value.args;
  }
}
