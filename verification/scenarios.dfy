/** Concrete calls through the model, with stub transports. */
module Scenarios {
  import opened Wrappers
  import Base64
  import opened Marshaler
  import opened Envelope
  import opened RpcClient

  /** The text of one quantum of four symbols. */
  lemma RenderQuantum(xs: seq<Base64.symbol>)
    requires |xs| == 4
    ensures Base64.Render(xs) == [Base64.CharOfSymbol(xs[0]), Base64.CharOfSymbol(xs[1]),
                                  Base64.CharOfSymbol(xs[2]), Base64.CharOfSymbol(xs[3])]
  {
  }

  /** Two bytes encode to three characters and one pad. */
  lemma EncodeTwoBytes()
    ensures Base64.Encode([1, 2]) == "AQI="
  {
    Base64.SextetsOfTwo([1, 2]);
    assert Base64.Sextets([1, 2]) == [0, 16, 8, Base64.PadSymbol];
    RenderQuantum([0, 16, 8, Base64.PadSymbol]);
    assert Base64.IndexChar(0) == 'A' && Base64.IndexChar(16) == 'Q' && Base64.IndexChar(8) == 'I';
  }

  /** 0xfb 0xff shows the URL-safe characters `-` and `_` where standard base64 has `+`
      and `/`. */
  lemma EncodeUrlSafeChars()
    ensures Base64.Encode([0xfb, 0xff]) == "-_8="
  {
    Base64.SextetsOfTwo([0xfb, 0xff]);
    assert Base64.Sextets([0xfb, 0xff]) == [62, 63, 60, Base64.PadSymbol];
    RenderQuantum([62, 63, 60, Base64.PadSymbol]);
    assert Base64.IndexChar(62) == '-' && Base64.IndexChar(63) == '_' && Base64.IndexChar(60) == '8';
  }

  /** Four bytes: one full quantum, then one byte with two pads. */
  lemma EncodeBlockThenTail()
    ensures Base64.Encode([0x66, 0x6f, 0x6f, 0x62]) == "Zm9vYg=="
  {
    var b: seq<Base64.byte> := [0x66, 0x6f, 0x6f, 0x62];
    Base64.SextetsOfMore(b);
    assert b[3..] == [0x62];
    Base64.SextetsOfOne(b[3..]);
    var q: seq<Base64.symbol> := [25, 38, 61, 47];
    var t: seq<Base64.symbol> := [24, 32, Base64.PadSymbol, Base64.PadSymbol];
    assert Base64.Quad(0x66, 0x6f, 0x6f) == q;
    assert Base64.Sextets(b) == q + t;
    var s := Base64.Render(q + t);
    assert Base64.IndexChar(25) == 'Z' && Base64.IndexChar(38) == 'm' && Base64.IndexChar(61) == '9';
    assert Base64.IndexChar(47) == 'v' && Base64.IndexChar(24) == 'Y' && Base64.IndexChar(32) == 'g';
    assert s[0] == 'Z' && s[1] == 'm' && s[2] == '9' && s[3] == 'v';
    assert s[4] == 'Y' && s[5] == 'g' && s[6] == '=' && s[7] == '=';
    assert s == "Zm9vYg==";
  }

  /** A transport whose every call delivers `info`, and whose `CallNR` and `Done` succeed. */
  function Answering<R>(info: ResultInfo<R>): Transport<R> {
    Transport(e => TransportReply(None, Delivered(info)), e => None, None)
  }

  /** A transport that rejects every call with `msg`. */
  function Rejecting<R>(msg: string): Transport<R> {
    Transport(e => TransportReply(Some(msg), ClosedEmpty), e => Some(msg), Some(msg))
  }

  /** `Call("Sum", 1, 2)` on a client with both transports goes to the local one, tags both
      arguments INT, and returns what that transport delivers. */
  lemma SumGoesLocal(nowNs: int, rpcExpired: nat)
    ensures
      var c := Client(Some(Rejecting<int>("unused")), Some(Answering(ResultInfo(Some(3), ""))));
      var run := Call(c, "Sum", [Int(1), Int(2)], "cid-1", nowNs, rpcExpired);
      && run.handoff == Some(Handoff(Local, CallInfo("Sum", [Int(1), Int(2)], Some([INT, INT]), true, ExpiredAt(nowNs, rpcExpired), "cid-1")))
      && CallReturn(run.outcome) == (Some(3), Text(""))
  {
    var params := [Int(1), Int(2)];
    var m := Marshal(params).value;
    assert m.argsType.value == [INT, INT];
    assert m.args == params;
  }

  /** A dispatch error is returned as the error text, with no result. */
  lemma BrokerDown(nowNs: int, rpcExpired: nat)
    ensures
      var c := Client(Some(Rejecting<int>("broker down")), None);
      CallReturn(Call(c, "Echo", [Str("hello")], "cid-2", nowNs, rpcExpired).outcome) == (None, Text("broker down"))
  {
  }

  /** As written, `CallNR("Notify", bytes 01 02)` sends the base64url text untagged. */
  lemma NotifyBytes(nowNs: int, rpcExpired: nat)
    ensures
      var c := Client(None, Some(Answering<int>(ResultInfo(None, ""))));
      var run := CallNR(c, "Notify", [Bytes([1, 2])], "cid-3", nowNs, rpcExpired);
      && run.handoff.Some?
      && run.handoff.value.envelope.args == [Str("AQI=")]
      && run.handoff.value.envelope.argsType == None
      && CallNRReturn(run.outcome) == None
  {
    EncodeTwoBytes();
  }
}
