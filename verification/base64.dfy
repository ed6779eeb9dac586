/** URL-safe base64 with padding: the alphabet of section 5 of RFC 4648 ("base64url", with
    `-` and `_` in place of `+` and `/`) and the `=` padding of section 3.2. This is the
    encoding the client applies to every byte-slice argument.

    Encoding is split in two layers: bytes to 6-bit symbols (pure arithmetic, three bytes
    to four symbols), and symbols to characters (one at a time). Each layer has its inverse. */
module Base64 {
  import opened Wrappers

  /** One byte of a Go `[]byte`. */
  type byte = bv8

  /** A 6-bit group (0..63), or 64 standing for the pad. */
  type symbol = x: bv8 | x <= 64

  const PadSymbol: symbol := 64
  const Pad: char := '='

  /** The 64 characters of the URL- and filename-safe alphabet (RFC 4648, table 2). */
  predicate IsAlphabetChar(c: char) {
    ('A' <= c <= 'Z') || ('a' <= c <= 'z') || ('0' <= c <= '9') || c == '-' || c == '_'
  }

  /** The alphabet character at index `n`: A-Z, a-z, 0-9, then `-` and `_`. */
  function IndexChar(n: int): (c: char)
    requires 0 <= n < 64
    ensures IsAlphabetChar(c)
  {
    if n < 26 then ('A' as int + n) as char
    else if n < 52 then ('a' as int + (n - 26)) as char
    else if n < 62 then ('0' as int + (n - 52)) as char
    else if n == 62 then '-'
    else '_'
  }

  /** The index of an alphabet character. */
  function CharIndex(c: char): (n: int)
    requires IsAlphabetChar(c)
    ensures 0 <= n < 64 && IndexChar(n) == c
  {
    if 'A' <= c <= 'Z' then c as int - 'A' as int
    else if 'a' <= c <= 'z' then c as int - 'a' as int + 26
    else if '0' <= c <= '9' then c as int - '0' as int + 52
    else if c == '-' then 62
    else 63
  }

  lemma CharIndexOfIndexChar(n: int)
    requires 0 <= n < 64
    ensures CharIndex(IndexChar(n)) == n
  {
  }

  /** An alphabet index survives the trip to a byte and back. */
  lemma IndexToByte(n: int)
    ensures 0 <= n < 64 ==> (n as bv8) < 64 && (n as bv8) as int == n
  {
  }

  /** A byte below 64 survives the trip to an alphabet index and back. */
  lemma ByteToIndex(x: bv8)
    ensures x < 64 ==> 0 <= x as int < 64 && (x as int) as bv8 == x
  {
  }

  /** The character a symbol is written as. */
  function CharOfSymbol(x: symbol): char {
    if x == PadSymbol then Pad else IndexChar(x as int)
  }

  /** The symbol a character of encoded text stands for; `None` outside the alphabet. */
  function SymbolOf(c: char): Option<symbol> {
    if IsAlphabetChar(c) then
      IndexToByte(CharIndex(c));
      Some(CharIndex(c) as bv8)
    else if c == Pad then Some(PadSymbol)
    else None
  }

  lemma SymbolOfCharOfSymbol(x: symbol)
    ensures SymbolOf(CharOfSymbol(x)) == Some(x)
  {
    if x != PadSymbol {
      ByteToIndex(x);
      CharIndexOfIndexChar(x as int);
    }
  }

  lemma CharOfSymbolOf(c: char)
    requires SymbolOf(c).Some?
    ensures CharOfSymbol(SymbolOf(c).value) == c
  {
    if IsAlphabetChar(c) {
      IndexToByte(CharIndex(c));
    }
  }

  /* ---------- bytes and symbols ---------- */

  /** Three bytes, 24 bits, as four 6-bit values. */
  function Quad(b0: byte, b1: byte, b2: byte): seq<symbol> {
    [b0 >> 2, ((b0 & 3) << 4) | (b1 >> 4), ((b1 & 15) << 2) | (b2 >> 6), b2 & 63]
  }

  /** The symbols of `b`: each full group of three bytes gives four 6-bit values; a final
      one or two bytes give two or three values, the last zero-filled, then pads. */
  function Sextets(b: seq<byte>): seq<symbol>
    decreases |b|
  {
    if |b| == 0 then []
    else if |b| == 1 then [b[0] >> 2, (b[0] & 3) << 4, PadSymbol, PadSymbol]
    else if |b| == 2 then [b[0] >> 2, ((b[0] & 3) << 4) | (b[1] >> 4), (b[1] & 15) << 2, PadSymbol]
    else Quad(b[0], b[1], b[2]) + Sextets(b[3..])
  }

  /** Four 6-bit values back to three bytes. */
  function JoinBlock(x0: symbol, x1: symbol, x2: symbol, x3: symbol): Option<seq<byte>> {
    if x0 < 64 && x1 < 64 && x2 < 64 && x3 < 64 then
      Some([(x0 << 2) | (x1 >> 4), ((x1 & 15) << 4) | (x2 >> 2), ((x2 & 3) << 6) | x3])
    else None
  }

  /** The last quantum, which may end in one or two pads. Bits that padding discards must be
      zero, so that every accepted text is the encoding of exactly one byte string. */
  function JoinFinal(x0: symbol, x1: symbol, x2: symbol, x3: symbol): Option<seq<byte>> {
    if x2 == PadSymbol && x3 == PadSymbol then
      if x0 < 64 && x1 < 64 && x1 & 15 == 0 then Some([(x0 << 2) | (x1 >> 4)]) else None
    else if x3 == PadSymbol then
      if x0 < 64 && x1 < 64 && x2 < 64 && x2 & 3 == 0 then
        Some([(x0 << 2) | (x1 >> 4), ((x1 & 15) << 4) | (x2 >> 2)])
      else None
    else JoinBlock(x0, x1, x2, x3)
  }

  /** Symbols back to bytes, four at a time; only the last quantum may hold pads. */
  function Join(xs: seq<symbol>): (r: Option<seq<byte>>)
    decreases |xs|
  {
    if |xs| == 0 then Some([])
    else if |xs| < 4 then None
    else if |xs| == 4 then JoinFinal(xs[0], xs[1], xs[2], xs[3])
    else match JoinBlock(xs[0], xs[1], xs[2], xs[3])
      case None => None
      case Some(head) =>
        match Join(xs[4..])
        case None => None
        case Some(rest) => Some(head + rest)
  }

  /* ---------- symbols and characters ---------- */

  function Render(xs: seq<symbol>): (s: string)
    ensures |s| == |xs|
    ensures forall i :: 0 <= i < |xs| ==> s[i] == CharOfSymbol(xs[i])
  {
    seq(|xs|, i requires 0 <= i < |xs| => CharOfSymbol(xs[i]))
  }

  function Symbols(s: string): (r: Option<seq<symbol>>)
    ensures r.Some? <==> forall i :: 0 <= i < |s| ==> SymbolOf(s[i]).Some?
    ensures r.Some? ==> |r.value| == |s| && forall i :: 0 <= i < |s| ==> SymbolOf(s[i]) == Some(r.value[i])
  {
    if forall i :: 0 <= i < |s| ==> SymbolOf(s[i]).Some? then
      Some(seq(|s|, i requires 0 <= i < |s| && SymbolOf(s[i]).Some? => SymbolOf(s[i]).value))
    else None
  }

  /* ---------- the codec ---------- */

  /** Padded URL-safe base64 text of `b`, as Go's `base64.URLEncoding.EncodeToString`. */
  function Encode(b: seq<byte>): (s: string)
    ensures |s| == 4 * ((|b| + 2) / 3)
    ensures forall i :: 0 <= i < |s| ==> IsAlphabetChar(s[i]) || (s[i] == Pad && |s| - 2 <= i)
  {
    SextetsShape(b);
    Render(Sextets(b))
  }

  /** Strict decoder for padded URL-safe base64: the receiving side's inverse of `Encode`. */
  function Decode(s: string): Option<seq<byte>> {
    match Symbols(s)
    case None => None
    case Some(xs) => Join(xs)
  }

  /* ---------- round trips, layer by layer ---------- */

  lemma SymbolsRender(xs: seq<symbol>)
    ensures Symbols(Render(xs)) == Some(xs)
  {
    var s := Render(xs);
    forall i | 0 <= i < |s|
      ensures SymbolOf(s[i]) == Some(xs[i])
    {
      SymbolOfCharOfSymbol(xs[i]);
    }
    var r := Symbols(s).value;
    assert forall i :: 0 <= i < |s| ==> r[i] == xs[i];
    assert r == xs;
  }

  lemma RenderSymbols(s: string)
    requires Symbols(s).Some?
    ensures Render(Symbols(s).value) == s
  {
    var xs := Symbols(s).value;
    forall i | 0 <= i < |s|
      ensures CharOfSymbol(xs[i]) == s[i]
    {
      assert SymbolOf(s[i]) == Some(xs[i]);
      CharOfSymbolOf(s[i]);
    }
  }

  lemma SextetsOfOne(b: seq<byte>)
    requires |b| == 1
    ensures Sextets(b) == [b[0] >> 2, (b[0] & 3) << 4, PadSymbol, PadSymbol]
  {
  }

  lemma SextetsOfTwo(b: seq<byte>)
    requires |b| == 2
    ensures Sextets(b) == [b[0] >> 2, ((b[0] & 3) << 4) | (b[1] >> 4), (b[1] & 15) << 2, PadSymbol]
  {
  }

  lemma SextetsOfMore(b: seq<byte>)
    requires |b| >= 3
    ensures Sextets(b) == Quad(b[0], b[1], b[2]) + Sextets(b[3..])
  {
  }

  /** Four symbols per started group of three bytes; pads only in the last two places. */
  lemma {:induction false} SextetsShape(b: seq<byte>)
    ensures |Sextets(b)| == 4 * ((|b| + 2) / 3)
    ensures forall i :: 0 <= i < |Sextets(b)| && Sextets(b)[i] == PadSymbol ==> |Sextets(b)| - 2 <= i
    decreases |b|
  {
    if |b| >= 3 {
      SextetsShape(b[3..]);
      SextetsOfMore(b);
      var q, rest := Quad(b[0], b[1], b[2]), Sextets(b[3..]);
      forall i | 0 <= i < |q + rest| && (q + rest)[i] == PadSymbol
        ensures |q + rest| - 2 <= i
      {
        if i >= 4 {
          assert (q + rest)[i] == rest[i - 4];
        }
      }
    }
  }

  lemma JoinOne(b0: byte)
    ensures JoinFinal(b0 >> 2, (b0 & 3) << 4, PadSymbol, PadSymbol) == Some([b0])
  {
  }

  lemma JoinTwo(b0: byte, b1: byte)
    ensures JoinFinal(b0 >> 2, ((b0 & 3) << 4) | (b1 >> 4), (b1 & 15) << 2, PadSymbol) == Some([b0, b1])
  {
  }

  lemma JoinQuad(b0: byte, b1: byte, b2: byte)
    ensures var q := Quad(b0, b1, b2); JoinBlock(q[0], q[1], q[2], q[3]) == Some([b0, b1, b2])
  {
  }

  /** `Join` reads a single quantum as the final one. */
  lemma JoinQuantum(xs: seq<symbol>)
    requires |xs| == 4
    ensures Join(xs) == JoinFinal(xs[0], xs[1], xs[2], xs[3])
  {
  }

  /** `Join` reads a longer sequence as a full block followed by the rest. */
  lemma JoinCons(xs: seq<symbol>, head: seq<byte>, rest: seq<byte>)
    requires |xs| > 4
    requires JoinBlock(xs[0], xs[1], xs[2], xs[3]) == Some(head)
    requires Join(xs[4..]) == Some(rest)
    ensures Join(xs) == Some(head + rest)
  {
  }

  /** `Join` accepts a longer sequence only if its first block and the rest are accepted. */
  lemma JoinConsInv(xs: seq<symbol>)
    requires |xs| > 4 && Join(xs).Some?
    ensures JoinBlock(xs[0], xs[1], xs[2], xs[3]).Some? && Join(xs[4..]).Some?
    ensures Join(xs).value == JoinBlock(xs[0], xs[1], xs[2], xs[3]).value + Join(xs[4..]).value
  {
  }

  lemma JoinOfOne(b: seq<byte>)
    requires |b| == 1
    ensures Join(Sextets(b)) == Some(b)
  {
    SextetsOfOne(b);
    JoinQuantum(Sextets(b));
    JoinOne(b[0]);
    assert b == [b[0]];
  }

  lemma JoinOfTwo(b: seq<byte>)
    requires |b| == 2
    ensures Join(Sextets(b)) == Some(b)
  {
    SextetsOfTwo(b);
    JoinQuantum(Sextets(b));
    JoinTwo(b[0], b[1]);
    assert b == [b[0], b[1]];
  }

  lemma JoinOfThree(b: seq<byte>)
    requires |b| == 3
    ensures Join(Sextets(b)) == Some(b)
  {
    SextetsOfMore(b);
    assert Sextets(b[3..]) == [];
    var xs := Sextets(b);
    assert xs == Quad(b[0], b[1], b[2]);
    JoinQuantum(xs);
    JoinQuad(b[0], b[1], b[2]);
    assert b == [b[0], b[1], b[2]];
  }

  lemma LongSextetsLength(b: seq<byte>)
    requires |b| > 3
    ensures |Sextets(b)| > 4
  {
    SextetsOfMore(b);
    SextetsShape(b[3..]);
  }

  lemma LongFirstBlock(b: seq<byte>)
    requires |b| > 3
    ensures var xs := Sextets(b); JoinBlock(xs[0], xs[1], xs[2], xs[3]) == Some([b[0], b[1], b[2]])
  {
    var xs := Sextets(b);
    SextetsOfMore(b);
    assert xs[..4] == Quad(b[0], b[1], b[2]);
    JoinQuad(b[0], b[1], b[2]);
  }

  lemma LongRest(b: seq<byte>)
    requires |b| > 3
    ensures Sextets(b)[4..] == Sextets(b[3..])
  {
    SextetsOfMore(b);
  }

  /** The first quantum joins to the first three bytes, and the rest joins as before. */
  lemma JoinFirstBlockThenRest(b: seq<byte>)
    requires |b| > 3
    requires Join(Sextets(b[3..])) == Some(b[3..])
    ensures Join(Sextets(b)) == Some([b[0], b[1], b[2]] + b[3..])
  {
    LongSextetsLength(b);
    LongFirstBlock(b);
    LongRest(b);
    JoinCons(Sextets(b), [b[0], b[1], b[2]], b[3..]);
  }

  /** The inductive step of `JoinSextets`, for more than three bytes. */
  lemma JoinSextetsStep(b: seq<byte>)
    requires |b| > 3
    requires Join(Sextets(b[3..])) == Some(b[3..])
    ensures Join(Sextets(b)) == Some(b)
  {
    JoinFirstBlockThenRest(b);
    SplitAfterThree(b);
  }

  /** A string of more than three bytes is its first three bytes followed by the rest. */
  lemma SplitAfterThree(b: seq<byte>)
    requires |b| > 3
    ensures [b[0], b[1], b[2]] + b[3..] == b
  {
  }

  /** Joining undoes splitting: the symbols of any byte string give back that string. */
  lemma {:induction false} JoinSextets(b: seq<byte>)
    ensures Join(Sextets(b)) == Some(b)
    decreases |b|
  {
    if |b| == 0 {
    } else if |b| == 1 {
      JoinOfOne(b);
    } else if |b| == 2 {
      JoinOfTwo(b);
    } else if |b| == 3 {
      JoinOfThree(b);
    } else {
      JoinSextets(b[3..]);
      JoinSextetsStep(b);
    }
  }

  lemma SplitBlock(x0: symbol, x1: symbol, x2: symbol, x3: symbol)
    requires JoinBlock(x0, x1, x2, x3).Some?
    ensures var b := JoinBlock(x0, x1, x2, x3).value; Quad(b[0], b[1], b[2]) == [x0, x1, x2, x3]
  {
  }

  lemma SextetsFinalOne(x0: symbol, x1: symbol)
    requires JoinFinal(x0, x1, PadSymbol, PadSymbol).Some?
    ensures Sextets(JoinFinal(x0, x1, PadSymbol, PadSymbol).value) == [x0, x1, PadSymbol, PadSymbol]
  {
    SextetsOfOne(JoinFinal(x0, x1, PadSymbol, PadSymbol).value);
  }

  lemma SextetsFinalTwo(x0: symbol, x1: symbol, x2: symbol)
    requires x2 != PadSymbol && JoinFinal(x0, x1, x2, PadSymbol).Some?
    ensures Sextets(JoinFinal(x0, x1, x2, PadSymbol).value) == [x0, x1, x2, PadSymbol]
  {
    SextetsOfTwo(JoinFinal(x0, x1, x2, PadSymbol).value);
  }

  lemma SextetsFinalThree(x0: symbol, x1: symbol, x2: symbol, x3: symbol)
    requires x3 != PadSymbol && JoinBlock(x0, x1, x2, x3).Some?
    ensures Sextets(JoinBlock(x0, x1, x2, x3).value) == [x0, x1, x2, x3]
  {
    var b := JoinBlock(x0, x1, x2, x3).value;
    SplitBlock(x0, x1, x2, x3);
    SextetsOfMore(b);
    assert b[3..] == [];
  }

  lemma SextetsFinal(x0: symbol, x1: symbol, x2: symbol, x3: symbol)
    requires JoinFinal(x0, x1, x2, x3).Some?
    ensures Sextets(JoinFinal(x0, x1, x2, x3).value) == [x0, x1, x2, x3]
  {
    if x2 == PadSymbol && x3 == PadSymbol {
      SextetsFinalOne(x0, x1);
    } else if x3 == PadSymbol {
      SextetsFinalTwo(x0, x1, x2);
    } else {
      SextetsFinalThree(x0, x1, x2, x3);
    }
  }

  lemma SextetsLong(xs: seq<symbol>)
    requires |xs| > 4 && Join(xs).Some?
    requires Sextets(Join(xs[4..]).value) == xs[4..]
    ensures Sextets(Join(xs).value) == xs
  {
    JoinConsInv(xs);
    var head := JoinBlock(xs[0], xs[1], xs[2], xs[3]).value;
    var rest := Join(xs[4..]).value;
    var b := Join(xs).value;
    assert b == head + rest;
    assert b[3..] == rest;
    SplitBlock(xs[0], xs[1], xs[2], xs[3]);
    SextetsOfMore(b);
    assert xs == xs[..4] + xs[4..];
  }

  /** Every symbol sequence `Join` accepts is the splitting of what it joins to. */
  lemma {:induction false} SextetsJoin(xs: seq<symbol>)
    requires Join(xs).Some?
    ensures Sextets(Join(xs).value) == xs
    decreases |xs|
  {
    if |xs| == 0 {
    } else if |xs| == 4 {
      SextetsFinal(xs[0], xs[1], xs[2], xs[3]);
    } else {
      SextetsJoin(xs[4..]);
      SextetsLong(xs);
    }
  }

  /* ---------- the codec's properties ---------- */

  /** Decoding undoes encoding: every byte string survives the trip to text and back. */
  lemma DecodeEncode(b: seq<byte>)
    ensures Decode(Encode(b)) == Some(b)
  {
    SymbolsRender(Sextets(b));
    JoinSextets(b);
  }

  /** Every text the decoder accepts is the encoding of what it decodes to: there is one
      encoding per byte string. */
  lemma EncodeDecode(s: string)
    requires Decode(s).Some?
    ensures Encode(Decode(s).value) == s
  {
    var xs := Symbols(s).value;
    SextetsJoin(xs);
    RenderSymbols(s);
  }

  /** Encoding is injective: two byte strings with the same text are equal. */
  lemma EncodeInjective(a: seq<byte>, b: seq<byte>)
    requires Encode(a) == Encode(b)
    ensures a == b
  {
    DecodeEncode(a);
    DecodeEncode(b);
  }

  /** `Decode` and `Encode` are inverse bijections between byte strings and accepted texts. */
  lemma DecodeIffEncode(s: string, b: seq<byte>)
    ensures Decode(s) == Some(b) <==> Encode(b) == s
  {
    DecodeEncode(b);
    if Decode(s).Some? {
      EncodeDecode(s);
    }
  }
}
