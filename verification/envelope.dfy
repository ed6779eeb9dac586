/** The call envelope (`CallInfo`) and its construction: function name, marshaled arguments,
    reply flag, absolute expiry in epoch milliseconds and correlation id. */
module Envelope {
  import opened Wrappers
  import opened Marshaler

  /** The wire-level request record, field for field. */
  datatype CallInfo = CallInfo(
    fn: string,
    args: seq<Arg>,
    argsType: Option<seq<Tag>>,
    reply: bool,
    expired: int,
    cid: string)

  const NanosPerSecond: int := 1_000_000_000
  const NanosPerMilli: int := 1_000_000

  /** Go's integer division, which truncates toward zero (Dafny's `/` is Euclidean). */
  function TruncDiv(a: int, d: int): (q: int)
    requires d > 0
    ensures a >= 0 ==> q * d <= a < (q + 1) * d
    ensures a < 0 ==> (q - 1) * d < a <= q * d
  {
    if a >= 0 then a / d else -((-a) / d)
  }

  /** The `Expired` stamp: the instant `rpcExpired` seconds after `nowNs` (nanoseconds since
      the Unix epoch), in whole milliseconds since the epoch. */
  function ExpiredAt(nowNs: int, rpcExpired: nat): (ms: int)
    ensures nowNs >= 0 ==> ms == nowNs / NanosPerMilli + rpcExpired * 1000
    ensures nowNs >= 0 ==> ms * NanosPerMilli <= nowNs + rpcExpired * NanosPerSecond < (ms + 1) * NanosPerMilli
  {
    TruncDiv(nowNs + rpcExpired * NanosPerSecond, NanosPerMilli)
  }

  /** A later clock reading never gives an earlier deadline. */
  lemma ExpiredAtMonotonic(now1: int, now2: int, rpcExpired: nat)
    requires now1 <= now2
    ensures ExpiredAt(now1, rpcExpired) <= ExpiredAt(now2, rpcExpired)
  {
  }

  /** The envelope `Call` builds: a reply is awaited and the tags are attached. */
  function CallEnvelope(fn: string, m: Marshaled, cid: string, nowNs: int, rpcExpired: nat): CallInfo {
    CallInfo(fn, m.args, m.argsType, true, ExpiredAt(nowNs, rpcExpired), cid)
  }

  /** The envelope `CallNR` builds: no reply, and `ArgsType` is never set. */
  function CallNREnvelope(fn: string, m: Marshaled, cid: string, nowNs: int, rpcExpired: nat): CallInfo {
    CallInfo(fn, m.args, None, false, ExpiredAt(nowNs, rpcExpired), cid)
  }
}
