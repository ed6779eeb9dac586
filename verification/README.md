# RPC client call envelope — a Dafny model

This project models the client side of mqant's RPC dispatcher, `RPCClient` in
`rpc/rpc_client.go`. The client owns at most one local (in-process) and one remote
(broker) transport handle. It offers three operations:

- `Call`: synchronous, waits for a reply;
- `CallNR`: fire-and-forget;
- `Done`: shuts down both transports.

Before either call goes out, the variadic arguments are marshaled into two parallel
sequences: type tags (`ArgsType`) and wire values (`Args`). Byte slices are sent as padded
URL-safe base64 text. The call is then stamped with an absolute expiry in epoch
milliseconds and a correlation id, and handed to the local transport, or failing that to
the remote one.

Modules, one per component:

- `Wrappers` (`wrappers.dfy`): `Option` (Go `nil`) and `Result`.
- `Base64` (`base64.dfy`): the base64url encoder of section 5 of RFC 4648, with the `=`
  padding of section 3.2, as `base64.URLEncoding.EncodeToString` applies it. Bytes are
  `bv8`. Encoding has two layers: bytes to 6-bit symbols, three bytes to four symbols, and
  symbols to characters, one at a time. A strict decoder inverts each layer, and the two
  functions are proved to be inverse bijections.
- `Marshaler` (`marshal.dfy`): the argument variant `Arg`, the eight-value `Tag`
  vocabulary, and the marshal loop in two forms: the recursive `MarshalEach`/`Marshal` and
  the imperative `MarshalArgs`, shaped like the Go loop. `Unmarshal` is a reference
  inverse: it reads the arguments back from the tags and wire values.
- `Envelope` (`envelope.dfy`): the `CallInfo` record, and the `Expired` arithmetic with
  Go's truncating integer division.
- `RpcClient` (`rpc_client.dfy`): transports as oracles, transport selection, `Call`,
  `CallNR`, `Done`, and the set-once guards of `NewRemoteClient` / `NewLocalClient`.
- `Scenarios` (`scenarios.dfy`): concrete calls against stub transports.

The model takes three things as parameters:

- the clock, as `nowNs`, nanoseconds since the Unix epoch;
- the correlation id, as `cid`;
- the configured `RpcExpired`, in seconds.

A transport is a datatype `Transport`. It holds its answer to `Call` for each envelope: an
immediate dispatch error or none, plus how the one-shot result channel ends (one delivered
value, or closed empty). It also holds its answer to `CallNR`, and the error its `Done`
returns. With these parameters, every operation is a total function.

Three points of the code that the model keeps as they are:

- `CallNR` computes the tags (lines 157-188) but leaves them out of the envelope it builds
  (lines 196-202). A byte-slice argument therefore arrives as untagged base64 text. See
  "Findings".
- `Done` (lines 58-66) returns the local shutdown's result whenever a local handle exists,
  so a remote shutdown error is lost when the local shutdown succeeds.
- The `INT` tag is given to Go's `int` (line 85). That type is platform-sized; the model
  takes it as 64 bits.

## Model

| member | source | states |
|---|---|---|
| `Base64.Encode` | rpc/rpc_client.go:97-101 | the text of n bytes has length 4·⌈n/3⌉; every character is from the A-Z a-z 0-9 `-` `_` alphabet, except `=` padding, which appears only in the last two places |
| `Base64.DecodeEncode` | rpc/rpc_client.go:97-101 | decoding the base64url text of any byte slice gives back exactly that byte slice |
| `Base64.EncodeDecode` | rpc/rpc_client.go:97-101 | every text the strict decoder accepts is the encoding of its decoded bytes: one text per byte string |
| `Base64.SextetsShape` | rpc/rpc_client.go:100 | n bytes give 4·⌈n/3⌉ symbols, and a pad symbol can appear only in the last two places |
| `Base64.JoinSextets` | rpc/rpc_client.go:100 | joining the 6-bit symbols of any byte string, four at a time, gives back that byte string |
| `Base64.SextetsJoin` | rpc/rpc_client.go:100 | every symbol sequence that joins successfully is the symbol sequence of the bytes it joins to |
| `Base64.EncodeInjective` | rpc/rpc_client.go:178-182 | two byte slices with the same base64url text are equal |
| `Base64.DecodeIffEncode` | rpc/rpc_client.go:178-182 | decode(s) = b exactly when encode(b) = s, in both directions |
| `Marshaler.MarshalEach` | rpc/rpc_client.go:77-112 | the loop succeeds iff every argument is of a supported kind; on success both output sequences have the argument count, each tag is its argument's kind, and each value is its wire value; on failure the error names the first unsupported index and its kind |
| `Marshaler.Marshal` | rpc/rpc_client.go:72-113 | as `MarshalEach`, and: the tag sequence is absent iff there are no arguments, while the value sequence is always present; tags are the eight-kind table, with both map kinds tagged MAP |
| `Marshaler.MarshalArgs` | rpc/rpc_client.go:72-113 | the imperative loop (nil tags, slot-by-slot fill, early return on the first bad kind) computes exactly `Marshal` |
| `Marshaler.WireRoundTrip` | rpc/rpc_client.go:78-107 | every supported argument is recovered from its tag and wire value: bytes from their base64url text, others unchanged |
| `Marshaler.MarshalRoundTrip` | rpc/rpc_client.go:72-113 | the arguments are recovered from the marshaled tags and values: marshaling loses nothing |
| `Marshaler.MarshalInjective` | rpc/rpc_client.go:72-113 | two argument lists that marshal to the same tags and values are equal |
| `Envelope.TruncDiv` | rpc/rpc_client.go:120 | Go's integer division truncates toward zero: the quotient brackets the dividend from below for non-negative, from above for negative dividends |
| `Envelope.ExpiredAt` | rpc/rpc_client.go:120 | for a clock after the epoch, `Expired` = nowNs/10^6 + RpcExpired·1000 exactly, and it is the whole-millisecond floor of the deadline in nanoseconds |
| `Envelope.ExpiredAtMonotonic` | rpc/rpc_client.go:200 | a later clock reading never gives an earlier expiry |
| `RpcClient.NewRPCClient` | rpc/rpc_client.go:31-34 | a new client has neither handle, so no transport is selected; Go's always-nil error is dropped |
| `RpcClient.Select` | rpc/rpc_client.go:127-136 | local is chosen iff present; remote iff local is absent and remote present; none iff both are absent |
| `RpcClient.Call` | rpc/rpc_client.go:71-147 | a marshal error wins over everything and nothing is handed over; with no transport, the outcome is "no transport"; otherwise the selected transport gets an envelope with the name, Reply=true, the tags, the wire values (from which the arguments are recoverable), the expiry and the id; a dispatch error is returned without reading the channel, a closed channel gives "client closed", and a delivered pair is returned as is |
| `RpcClient.CallReturn` | rpc/rpc_client.go:108-146 | only a delivered reply yields a result, and its (result, error) pair is returned as is; an unsupported argument gives no result and the index and type of that argument; no transport gives "rpc service connection failed"; a dispatch error gives no result and the error's own text; a closed channel gives "client closed" |
| `RpcClient.CallNR` | rpc/rpc_client.go:152-219 | same precedence and selection as `Call`; the envelope has Reply=false and no `ArgsType`; the outcome is the transport's dispatch error or success |
| `RpcClient.CallNRReturn` | rpc/rpc_client.go:189-218 | `CallNR` returns nil exactly when the envelope was handed over without a dispatch error; an unsupported argument gives its index and type; no transport gives "rpc service connection failed"; a dispatch error is returned as itself |
| `RpcClient.Done` | rpc/rpc_client.go:58-66 | remote, then local, are shut down, each only if present; the result is that of the last shutdown attempted, or nil when there was none |
| `RpcClient.DoneLocalResultWins` | rpc/rpc_client.go:62-64 | with a local handle, `Done` returns the local shutdown's result, whatever the remote's was |
| `RpcClient.NewRemoteClient` | rpc/rpc_client.go:36-45 | with no configuration or with a remote handle already set, nothing changes and no error is returned; otherwise the remote handle and the error are the dial's; the local handle is never touched |
| `RpcClient.NewLocalClient` | rpc/rpc_client.go:47-56 | with no server, a server without a local server, or a local handle already set, nothing changes; otherwise the local handle and the error are the dial's; the remote handle is never touched |
| `RpcClient.HandlesSetOnce` | rpc/rpc_client.go:38-50 | across any sequence of set-up calls, a handle once present never changes |
| `RpcClient.LocalShadowsRemote` | rpc/rpc_client.go:128-136 | with a local handle, `Call` and `CallNR` give the same run whatever the remote handle is |
| `RpcClient.MarshalErrorPrecedes` | rpc/rpc_client.go:108-109 | with an unsupported argument, `Call` and `CallNR` give the same run on every client, configured or not |
| `RpcClient.FreshClientCannotDispatch` | rpc/rpc_client.go:31-34 | a newly made client hands nothing to any transport and returns no result |
| `RpcClient.CallNRLosesByteArgs` | rpc/rpc_client.go:196-202 | as written, a `CallNR` envelope with a byte-slice argument cannot be read back into its arguments by the reference reader `Unmarshal`; `CallNRBytesLookLikeText` is the statement that holds for any reader |
| `RpcClient.CallNRBytesLookLikeText` | rpc/rpc_client.go:178-202 | as written, `CallNR` with a byte slice and `CallNR` with that slice's base64url text as a string are different argument lists that give the same envelope and the same outcome on every client |
| `RpcClient.CallNRTyped` | rpc/rpc_client.go:115-122 | the corrected `CallNR` envelope carries the tags, and the arguments are recoverable from it; the envelope differs from `CallNR`'s only in `ArgsType`; it goes to the same selected transport, and the outcome is that transport's dispatch error or success, with marshal-error and no-transport runs identical to `CallNR`'s |
| `Scenarios.EncodeTwoBytes` | rpc/rpc_client.go:178-182 | the bytes 01 02 are sent as "AQI=" |
| `Scenarios.EncodeUrlSafeChars` | rpc/rpc_client.go:100 | the bytes fb ff encode to "-_8=", with the URL-safe characters in place of `+` and `/` |
| `Scenarios.EncodeBlockThenTail` | rpc/rpc_client.go:100 | "foob" encodes to "Zm9vYg==": a full block, then one byte and two pads |
| `Scenarios.SumGoesLocal` | rpc/rpc_client.go:85-87 | `Call("Sum", 1, 2)` with both transports goes to the local one, with tags [INT, INT], and returns its delivered result |
| `Scenarios.BrokerDown` | rpc/rpc_client.go:138-140 | a dispatch error "broker down" is returned as `(nil, "broker down")` |
| `Scenarios.NotifyBytes` | rpc/rpc_client.go:178-202 | as written, `CallNR("Notify", bytes 01 02)` sends Args ["AQI="] with no `ArgsType` |

## Findings

| source | as written | input that shows it | evidently intended | confidence | as-written member | corrected member |
|---|---|---|---|---|---|---|
| rpc/rpc_client.go:196-202 | `CallNR` builds its envelope without `ArgsType`, although it computes the tags | `CallNR("Notify", []byte{1, 2})` and `CallNR("Notify", "AQI=")` send the same envelope, Args ["AQI="] with no `ArgsType`, so no receiver can tell the byte slice from the string | set `ArgsType` as `Call` does (lines 115-122) | medium, not executed | `RpcClient.CallNRBytesLookLikeText` | `RpcClient.CallNRTyped` |

## Left out

- `NewAMQPClient` and the `LocalClient` internals: the broker protocol and the in-process registry are outside this file. Each transport is an oracle with fixed answers to `Call`, `CallNR` and `Done`.
- Channel blocking and concurrency. The one-shot channel is reduced to how it ends. A transport that neither delivers nor closes, which would block `Call` forever, is not modelled.
- `uuid.Rand().Hex()` and `time.Now()`: the correlation id and the clock are parameters. Probabilistic uniqueness of ids is not a provable property.
- `fmt.Sprintf` and `reflect.TypeOf` text. The unsupported-argument error is kept as its index and the type's name (`ArgsNotAllowed`), not as formatted text.
- `log.Error` on dial failure: logging only.
- The string values of the tag constants: they are defined in a file that is not part of this model. `Tag` is an eight-constructor enum.
- `conf.RpcExpired` is a natural-number parameter. Negative values are not modelled.
- `Envelope.ExpiredAt`: it is computed on unbounded integers. Overflow of `time.Duration` or of `UnixNano` beyond int64 is not modelled. The exact identity with nowNs/10^6 + RpcExpired·1000 is stated only for clocks at or after the epoch. Before the epoch, Go's truncating division can differ from it.
- Float arguments are opaque bit patterns: the client only tags them and passes them on.
- `Marshaler.Unmarshal` and `Base64.Decode` are reference inverses, not code of this file. The server-side decoding is not part of this model. The base64 decoder is strict: it rejects non-zero padding bits.
- `Done` called twice: transports' shutdown results are fixed, so a second `Done` returns what the first did. A transport's own behaviour after shutdown is not modelled.
