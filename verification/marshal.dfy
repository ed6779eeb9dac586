/** The argument marshaler of `RPCClient.Call` and `RPCClient.CallNR`: it turns the variadic
    call arguments into the envelope's parallel `ArgsType` (type tags) and `Args` (wire values). */
module Marshaler {
  import opened Wrappers
  import Base64

  /** Go's `int64`; Go's platform `int` is taken to be 64 bits wide as well. */
  type int64 = x: int | -0x8000_0000_0000_0000 <= x < 0x8000_0000_0000_0000

  /** The closed type-tag vocabulary written into `ArgsType`. */
  datatype Tag = STRING | BOOL | INT | LONG | FLOAT | DOUBLE | BYTES | MAP

  /** A call argument, classified by its Go dynamic type. Floats are carried as opaque bit
      patterns: the marshaler only tags them and passes them on. */
  datatype Arg =
    | Str(s: string)                        // string
    | Bool(b: bool)                         // bool
    | Int(i: int64)                         // int
    | Long(l: int64)                        // int64
    | Float32(bits32: bv32)                 // float32
    | Float64(bits64: bv64)                 // float64
    | Bytes(bytes: seq<Base64.byte>)        // []byte
    | MapAny(entries: map<string, Arg>)     // map[string]interface{}
    | MapStr(pairs: map<string, string>)    // map[string]string
    | Other(kind: string)                   // any other dynamic type, named by its type

  /** The tag of a supported argument; `None` for a kind the marshaler rejects. */
  function TagOf(a: Arg): Option<Tag> {
    match a
    case Str(_) => Some(STRING)
    case Bool(_) => Some(BOOL)
    case Int(_) => Some(INT)
    case Long(_) => Some(LONG)
    case Float32(_) => Some(FLOAT)
    case Float64(_) => Some(DOUBLE)
    case Bytes(_) => Some(BYTES)
    case MapAny(_) => Some(MAP)
    case MapStr(_) => Some(MAP)
    case Other(_) => None
  }

  predicate Supported(a: Arg) {
    TagOf(a).Some?
  }

  /** What goes on the wire for an argument: byte slices become base64url text, every other
      argument is passed through unchanged. */
  function WireValue(a: Arg): Arg {
    if a.Bytes? then Str(Base64.Encode(a.bytes)) else a
  }

  /** "args[k] [kind] Types not allowed": the index and the dynamic type of the argument. */
  datatype MarshalError = MarshalError(index: nat, kind: string)

  /** The marshaled arguments: `argsType` is absent (Go `nil`) when there are no arguments,
      while `args` is always a present, possibly empty, sequence. */
  datatype Marshaled = Marshaled(argsType: Option<seq<Tag>>, args: seq<Arg>)

  /** The first unsupported argument of `params`, if there is one, is at index `k`. */
  predicate FirstUnsupportedAt(params: seq<Arg>, k: nat) {
    && k < |params|
    && !Supported(params[k])
    && forall j :: 0 <= j < k ==> Supported(params[j])
  }

  /** The tag and wire-value loop over `params`, argument by argument, stopping at the first
      argument of an unsupported kind. */
  function MarshalEach(params: seq<Arg>): (r: Result<(seq<Tag>, seq<Arg>), MarshalError>)
    ensures r.Success? <==> forall i :: 0 <= i < |params| ==> Supported(params[i])
    ensures r.Success? ==>
      && |r.value.0| == |params| && |r.value.1| == |params|
      && (forall i :: 0 <= i < |params| ==> Some(r.value.0[i]) == TagOf(params[i]))
      && (forall i :: 0 <= i < |params| ==> r.value.1[i] == WireValue(params[i]))
    ensures r.Failure? ==>
      && FirstUnsupportedAt(params, r.error.index)
      && r.error.kind == params[r.error.index].kind
    decreases |params|
  {
    if |params| == 0 then Success(([], []))
    else
      var k := |params| - 1;
      match MarshalEach(params[..k])
      case Failure(e) => Failure(e)
      case Success(done) =>
        match TagOf(params[k])
        case None => Failure(MarshalError(k, params[k].kind))
        case Some(t) => Success((done.0 + [t], done.1 + [WireValue(params[k])]))
  }

  /** Marshal the arguments of one call. */
  function Marshal(params: seq<Arg>): (r: Result<Marshaled, MarshalError>)
    ensures r.Success? <==> forall i :: 0 <= i < |params| ==> Supported(params[i])
    ensures r.Success? ==>
      && (r.value.argsType.None? <==> |params| == 0)
      && |r.value.args| == |params|
      && (forall i :: 0 <= i < |params| ==> r.value.args[i] == WireValue(params[i]))
    ensures r.Success? && r.value.argsType.Some? ==>
      && |r.value.argsType.value| == |params|
      && forall i :: 0 <= i < |params| ==> Some(r.value.argsType.value[i]) == TagOf(params[i])
    ensures r.Failure? ==>
      && FirstUnsupportedAt(params, r.error.index)
      && r.error.kind == params[r.error.index].kind
  {
    match MarshalEach(params)
    case Failure(e) => Failure(e)
    case Success(each) =>
      Success(Marshaled(if |params| == 0 then None else Some(each.0), each.1))
  }

  /** The marshaling loop as the client writes it: `ArgsType` stays nil for zero arguments,
      otherwise slot k of both slices is filled in turn, and the first unsupported argument
      returns its error at once. */
  method MarshalArgs(params: seq<Arg>) returns (r: Result<Marshaled, MarshalError>)
    ensures r == Marshal(params)
  {
    var argsType: seq<Tag> := [];
    var args: seq<Arg> := [];
    var k := 0;
    while k < |params|
      invariant k <= |params|
      invariant MarshalEach(params[..k]) == Success((argsType, args))
    {
      assert params[..k + 1][..k] == params[..k];
      var t := TagOf(params[k]);
      if t.None? {
        return Failure(MarshalError(k, params[k].kind));
      }
      argsType := argsType + [t.value];
      args := args + [WireValue(params[k])];
      k := k + 1;
    }
    assert params[..k] == params;
    r := Success(Marshaled(if |params| == 0 then None else Some(argsType), args));
  }

  /** The receiving side's reading of one tagged wire value: BYTES text is base64url-decoded
      back to bytes; any other tag must match the value's own kind. */
  function DecodeArg(t: Tag, v: Arg): Option<Arg> {
    if t == BYTES then
      if v.Str? then
        match Base64.Decode(v.s)
        case None => None
        case Some(b) => Some(Bytes(b))
      else None
    else if TagOf(v) == Some(t) then Some(v)
    else None
  }

  function DecodeArgs(tags: seq<Tag>, values: seq<Arg>): (r: Option<seq<Arg>>)
    requires |tags| == |values|
    ensures r.Some? <==> forall i :: 0 <= i < |tags| ==> DecodeArg(tags[i], values[i]).Some?
    ensures r.Some? ==>
      && |r.value| == |tags|
      && forall i :: 0 <= i < |tags| ==> DecodeArg(tags[i], values[i]) == Some(r.value[i])
    decreases |tags|
  {
    if |tags| == 0 then Some([])
    else
      match DecodeArg(tags[0], values[0])
      case None => None
      case Some(a) =>
        match DecodeArgs(tags[1..], values[1..])
        case None => None
        case Some(rest) => Some([a] + rest)
  }

  /** The reference inverse of `Marshal`: recovers the call arguments from an envelope's
      `ArgsType` and `Args`. Without tags the values are taken as they are. */
  function Unmarshal(argsType: Option<seq<Tag>>, args: seq<Arg>): Option<seq<Arg>> {
    match argsType
    case None => Some(args)
    case Some(tags) => if |tags| == |args| then DecodeArgs(tags, args) else None
  }

  /** Each supported argument is recovered from its tag and its wire value. */
  lemma WireRoundTrip(a: Arg)
    requires Supported(a)
    ensures DecodeArg(TagOf(a).value, WireValue(a)) == Some(a)
  {
    if a.Bytes? {
      Base64.DecodeEncode(a.bytes);
    }
  }

  /** Marshaling loses nothing: the arguments are recovered from what it produces, bytes
      included. */
  lemma MarshalRoundTrip(params: seq<Arg>)
    requires Marshal(params).Success?
    ensures Unmarshal(Marshal(params).value.argsType, Marshal(params).value.args) == Some(params)
  {
    var m := Marshal(params).value;
    if |params| > 0 {
      var tags := m.argsType.value;
      forall i | 0 <= i < |params|
        ensures DecodeArg(tags[i], m.args[i]) == Some(params[i])
      {
        WireRoundTrip(params[i]);
      }
      var r := DecodeArgs(tags, m.args).value;
      assert r == params;
    }
  }

  /** Distinct argument lists never marshal to the same tags and wire values. */
  lemma MarshalInjective(p: seq<Arg>, q: seq<Arg>)
    requires Marshal(p).Success? && Marshal(p) == Marshal(q)
    ensures p == q
  {
    MarshalRoundTrip(p);
    MarshalRoundTrip(q);
  }
}
