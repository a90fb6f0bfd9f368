/** Base64 with the standard alphabet and '=' padding (section 4 of RFC 4648), as Go's
    `base64.StdEncoding` encodes and decodes it. */
module Base64 {
  import opened Wrappers
  import opened Bytes
  import opened Errors

  const Pad: Byte := 61   // '='
  const CR: Byte := 13
  const LF: Byte := 10

  /** The alphabet character for a six-bit value. */
  function Char(v: int): (c: Byte)
    requires 0 <= v < 64
    ensures IsAlphabet(c)
  {
    if v < 26 then 65 + v          // 'A'..'Z'
    else if v < 52 then 71 + v     // 'a'..'z'
    else if v < 62 then v - 4      // '0'..'9'
    else if v == 62 then 43        // '+'
    else 47                        // '/'
  }

  predicate IsAlphabet(c: Byte)
  {
    65 <= c <= 90 || 97 <= c <= 122 || 48 <= c <= 57 || c == 43 || c == 47
  }

  /** The six-bit value of an alphabet character. */
  function Value(c: Byte): (v: int)
    requires IsAlphabet(c)
    ensures 0 <= v < 64 && Char(v) == c
  {
    if 65 <= c <= 90 then c - 65
    else if 97 <= c <= 122 then c - 71
    else if 48 <= c <= 57 then c + 4
    else if c == 43 then 62
    else 63
  }

  lemma CharValue(v: int)
    requires 0 <= v < 64
    ensures IsAlphabet(Char(v)) && Value(Char(v)) == v
  {
  }

  /** The four six-bit groups of the 24 bits `b0 b1 b2`, high bits first. */
  function Sextet0(b0: Byte): (x: int)
    ensures 0 <= x < 64
  {
    b0 / 4
  }

  function Sextet1(b0: Byte, b1: Byte): (x: int)
    ensures 0 <= x < 64
  {
    b0 % 4 * 16 + b1 / 16
  }

  function Sextet2(b1: Byte, b2: Byte): (x: int)
    ensures 0 <= x < 64
  {
    b1 % 16 * 4 + b2 / 64
  }

  function Sextet3(b2: Byte): (x: int)
    ensures 0 <= x < 64
  {
    b2 % 64
  }

  /** The four characters for three bytes. */
  function EncodeTriple(b0: Byte, b1: Byte, b2: Byte): seq<Byte>
  {
    [Char(Sextet0(b0)), Char(Sextet1(b0, b1)), Char(Sextet2(b1, b2)), Char(Sextet3(b2))]
  }

  /** The on-the-wire text of `s`: groups of four characters, the last one padded (a
      missing byte counts as zero bits). */
  function Encode(s: seq<Byte>): (r: seq<Byte>)
    ensures |r| % 4 == 0 && (s != [] <==> r != [])
    ensures forall i :: 0 <= i < |r| ==> IsAlphabet(r[i]) || r[i] == Pad
  {
    if |s| == 0 then []
    else if |s| == 1 then [Char(Sextet0(s[0])), Char(Sextet1(s[0], 0)), Pad, Pad]
    else if |s| == 2 then [Char(Sextet0(s[0])), Char(Sextet1(s[0], s[1])), Char(Sextet2(s[1], 0)), Pad]
    else
      var q, rest := EncodeTriple(s[0], s[1], s[2]), Encode(s[3..]);
      assert forall i :: 4 <= i < |q + rest| ==> (q + rest)[i] == rest[i - 4];
      q + rest
  }

  /** The three bytes of four alphabet characters. */
  function DecodeQuad(c0: Byte, c1: Byte, c2: Byte, c3: Byte): seq<Byte>
    requires IsAlphabet(c0) && IsAlphabet(c1) && IsAlphabet(c2) && IsAlphabet(c3)
  {
    var v0, v1, v2, v3 := Value(c0), Value(c1), Value(c2), Value(c3);
    [v0 * 4 + v1 / 16, v1 % 16 * 16 + v2 / 4, v2 % 4 * 64 + v3]
  }

  /** The last group, which may end in "=" or "==". Like Go's non-strict decoder, bits
      beyond the last whole byte are dropped without being checked. */
  function DecodeLast(q: seq<Byte>): Option<seq<Byte>>
    requires |q| == 4
  {
    if !IsAlphabet(q[0]) || !IsAlphabet(q[1]) then None
    else if q[2] == Pad then
      if q[3] == Pad then Some([Value(q[0]) * 4 + Value(q[1]) / 16]) else None
    else if !IsAlphabet(q[2]) then None
    else if q[3] == Pad then
      Some([Value(q[0]) * 4 + Value(q[1]) / 16, Value(q[1]) % 16 * 16 + Value(q[2]) / 4])
    else if IsAlphabet(q[3]) then Some(DecodeQuad(q[0], q[1], q[2], q[3]))
    else None
  }

  /** Decoding of text without line breaks: None is Go's CorruptInputError. */
  function Decode(s: seq<Byte>): (r: Option<seq<Byte>>)
    ensures r.Some? ==> |s| % 4 == 0
  {
    if |s| == 0 then Some([])
    else if |s| < 4 then None
    else if |s| == 4 then DecodeLast(s)
    else if IsAlphabet(s[0]) && IsAlphabet(s[1]) && IsAlphabet(s[2]) && IsAlphabet(s[3]) then
      match Decode(s[4..])
      case None => None
      case Some(rest) => Some(DecodeQuad(s[0], s[1], s[2], s[3]) + rest)
    else None
  }

  /** Go's decoder skips carriage returns and line feeds wherever they occur. */
  function DropNewlines(s: seq<Byte>): (r: seq<Byte>)
    ensures CR !in r && LF !in r
    ensures CR !in s && LF !in s ==> r == s
  {
    if s == [] then []
    else if s[0] == CR || s[0] == LF then DropNewlines(s[1..])
    else [s[0]] + DropNewlines(s[1..])
  }

  /** `base64.StdEncoding.DecodeString`: None is Go's CorruptInputError. */
  function StdDecode(s: seq<Byte>): Option<seq<Byte>>
  {
    Decode(DropNewlines(s))
  }

  /** What a reader hands out until it fails or ends: its bytes and its failure, if any. */
  datatype Decoded = Decoded(data: seq<Byte>, failure: Option<Error>)

  /** Reading a `base64.NewDecoder(base64.StdEncoding, r)` to its end, where `r` yields
      `s`: the whole groups (CR and LF dropped) are decoded; one to three bytes left over
      at the end are `io.ErrUnexpectedEOF`, after the bytes of the whole groups. */
  function StreamDecode(s: seq<Byte>): (r: Decoded)
    ensures r.failure.None? <==> StdDecode(s).Some?
    ensures r.failure.None? ==> r.data == StdDecode(s).value
    ensures r.failure == Some(UnexpectedEOF) <==>
      (var t := DropNewlines(s); |t| % 4 != 0 && Decode(t[..|t| - |t| % 4]).Some?)
    ensures r.failure == Some(UnexpectedEOF) ==>
      (var t := DropNewlines(s); r.data == Decode(t[..|t| - |t| % 4]).value)
    ensures r.failure.Some? ==> r.failure == Some(UnexpectedEOF) || r.failure == Some(CorruptInput)
  {
    var t := DropNewlines(s);
    var k := |t| - |t| % 4;
    assert k == |t| ==> t[..k] == t;
    match Decode(t[..k])
    case None => Decoded([], Some(CorruptInput))
    case Some(d) => if k == |t| then Decoded(d, None) else Decoded(d, Some(UnexpectedEOF))
  }

  /** The bit arithmetic of one group: splitting three bytes into four sextets and
      joining the sextets again gives the bytes back. */
  lemma TripleArith(b0: Byte, b1: Byte, b2: Byte)
    ensures Sextet0(b0) * 4 + Sextet1(b0, b1) / 16 == b0
    ensures Sextet1(b0, b1) % 16 * 16 + Sextet2(b1, b2) / 4 == b1
    ensures Sextet2(b1, b2) % 4 * 64 + Sextet3(b2) == b2
  {
  }

  /** Decoding four characters recovers the sextets they were made of. */
  lemma DecodeChars(x0: int, x1: int, x2: int, x3: int)
    requires 0 <= x0 < 64 && 0 <= x1 < 64 && 0 <= x2 < 64 && 0 <= x3 < 64
    ensures Value(Char(x0)) == x0 && Value(Char(x1)) == x1
    ensures Value(Char(x2)) == x2 && Value(Char(x3)) == x3
  {
    CharValue(x0);
    CharValue(x1);
    CharValue(x2);
    CharValue(x3);
  }

  lemma TripleRoundTrip(b0: Byte, b1: Byte, b2: Byte)
    ensures var q := EncodeTriple(b0, b1, b2);
      IsAlphabet(q[0]) && IsAlphabet(q[1]) && IsAlphabet(q[2]) && IsAlphabet(q[3]) &&
      DecodeQuad(q[0], q[1], q[2], q[3]) == [b0, b1, b2]
  {
    var x0, x1, x2, x3 := Sextet0(b0), Sextet1(b0, b1), Sextet2(b1, b2), Sextet3(b2);
    DecodeChars(x0, x1, x2, x3);
    TripleArith(b0, b1, b2);
  }

  /** A single trailing byte travels as two characters and "==". */
  lemma OneByteRoundTrip(b0: Byte)
    ensures Decode(Encode([b0])) == Some([b0])
  {
    var x0, x1 := Sextet0(b0), Sextet1(b0, 0);
    DecodeChars(x0, x1, 0, 0);
    TripleArith(b0, 0, 0);
    assert Encode([b0]) == [Char(x0), Char(x1), Pad, Pad];
  }

  /** Two trailing bytes travel as three characters and "=". */
  lemma TwoByteRoundTrip(b0: Byte, b1: Byte)
    ensures Decode(Encode([b0, b1])) == Some([b0, b1])
  {
    var x0, x1, x2 := Sextet0(b0), Sextet1(b0, b1), Sextet2(b1, 0);
    DecodeChars(x0, x1, x2, 0);
    TripleArith(b0, b1, 0);
    var e := Encode([b0, b1]);
    assert e == [Char(x0), Char(x1), Char(x2), Pad];
    assert Decode(e) == DecodeLast(e);
  }

  /** Decoding a full group ahead of decodable text. */
  lemma DecodeGroup(q: seq<Byte>, rest: seq<Byte>, t: seq<Byte>)
    requires |q| == 4 && IsAlphabet(q[0]) && IsAlphabet(q[1]) && IsAlphabet(q[2]) && IsAlphabet(q[3])
    requires Decode(rest) == Some(t)
    ensures Decode(q + rest) == Some(DecodeQuad(q[0], q[1], q[2], q[3]) + t)
  {
    if rest == [] {
      assert q + rest == q && t == [];
      assert q[2] != Pad && q[3] != Pad;
      assert Decode(q) == DecodeLast(q);
      assert DecodeQuad(q[0], q[1], q[2], q[3]) + t == DecodeQuad(q[0], q[1], q[2], q[3]);
    } else {
      assert (q + rest)[4..] == rest;
      assert (q + rest)[..4] == q;
    }
  }

  /** Decoding what was encoded gives the bytes back. */
  lemma {:induction false} RoundTrip(s: seq<Byte>)
    ensures Decode(Encode(s)) == Some(s)
    decreases |s|
  {
    if |s| == 1 {
      OneByteRoundTrip(s[0]);
      assert s == [s[0]];
    } else if |s| == 2 {
      TwoByteRoundTrip(s[0], s[1]);
      assert s == [s[0], s[1]];
    } else if |s| >= 3 {
      RoundTrip(s[3..]);
      assert s == [s[0], s[1], s[2]] + s[3..];
      GroupRoundTrip(s[0], s[1], s[2], s[3..]);
    }
  }

  /** One more leading group keeps the round trip. */
  lemma GroupRoundTrip(b0: Byte, b1: Byte, b2: Byte, rest: seq<Byte>)
    requires Decode(Encode(rest)) == Some(rest)
    ensures Decode(Encode([b0, b1, b2] + rest)) == Some([b0, b1, b2] + rest)
  {
    var s := [b0, b1, b2] + rest;
    assert s[0] == b0 && s[1] == b1 && s[2] == b2 && s[3..] == rest;
    var q := EncodeTriple(b0, b1, b2);
    TripleRoundTrip(b0, b1, b2);
    DecodeGroup(q, Encode(rest), rest);
    assert Encode(s) == q + Encode(rest);
  }

  lemma EncodeClean(s: seq<Byte>)
    ensures Quote !in Encode(s) && CR !in Encode(s) && LF !in Encode(s)
  {
  }

  /** Whole groups followed by one to three bytes: `w` is exactly the whole-group part. */
  lemma WholeGroups(w: seq<Byte>, x: seq<Byte>)
    requires |w| % 4 == 0 && 0 < |x| < 4
    ensures var t := w + x; |t| % 4 == |x| && t[..|t| - |t| % 4] == w
  {
    var t := w + x;
    var m := |w| / 4;
    assert |t| == 4 * m + |x|;
    assert |t| % 4 == |x|;
    assert t[..|w|] == w;
  }

  /** The decoder's reading of text whose whole groups decode and that ends one to three
      bytes into a group. */
  lemma StreamDecodeCut(s: seq<Byte>, w: seq<Byte>, x: seq<Byte>)
    requires DropNewlines(s) == w + x && |w| % 4 == 0 && 0 < |x| < 4 && Decode(w).Some?
    ensures StreamDecode(s) == Decoded(Decode(w).value, Some(UnexpectedEOF))
  {
    WholeGroups(w, x);
  }

  /** A stream cut off one to three bytes into a group: the whole groups before the cut
      come out, followed by `io.ErrUnexpectedEOF`. */
  lemma TruncatedStream(s: seq<Byte>, x: seq<Byte>)
    requires 0 < |x| < 4 && CR !in x && LF !in x
    ensures StreamDecode(Encode(s) + x) == Decoded(s, Some(UnexpectedEOF))
  {
    var e := Encode(s);
    EncodeClean(s);
    RoundTrip(s);
    assert CR !in e + x && LF !in e + x;
    StreamDecodeCut(e + x, e, x);
  }

  /** "QUJDRA": the group "QUJD" is the encoding of "ABC", and the fragment "RA" is cut off. */
  lemma TruncatedExample()
    ensures StreamDecode([81, 85, 74, 68, 82, 65]) == Decoded([65, 66, 67], Some(UnexpectedEOF))
  {
    var abc: seq<Byte> := [65, 66, 67];
    var text: seq<Byte> := [81, 85, 74, 68, 82, 65];
    var e := Encode(abc);
    assert e == [81, 85, 74, 68] by {
      assert abc[3..] == [];
      assert Sextet0(65) == 16 && Sextet1(65, 66) == 20 && Sextet2(66, 67) == 9 && Sextet3(67) == 3;
      assert e == EncodeTriple(65, 66, 67) + Encode([]);
    }
    assert e + [82, 65] == text;
    TruncatedStream(abc, [82, 65]);
  }

  /** What the standard decoder makes of freshly encoded text. */
  lemma StdRoundTrip(s: seq<Byte>)
    ensures StdDecode(Encode(s)) == Some(s)
    ensures StreamDecode(Encode(s)) == Decoded(s, None)
  {
    EncodeClean(s);
    RoundTrip(s);
  }
}
