/**
 * Base64 as defined in section 4 of RFC 4648 (alphabet A-Z a-z 0-9 + /, `=` padding to a
 * multiple of four characters), and the ASCII subset of UTF-8 that the ticket envelope
 * passes through it.
 */
module Base64 {
  import opened Wrappers

  newtype byte = x: int | 0 <= x < 256

  /** The character for a 6-bit value (Table 1 of RFC 4648). */
  function Symbol(v: int): (c: char)
    requires 0 <= v < 64
    ensures IsSymbol(c)
  {
    if v < 26 then ('A' as int + v) as char
    else if v < 52 then ('a' as int + v - 26) as char
    else if v < 62 then ('0' as int + v - 52) as char
    else if v == 62 then '+'
    else '/'
  }

  predicate IsSymbol(c: char) {
    'A' <= c <= 'Z' || 'a' <= c <= 'z' || '0' <= c <= '9' || c == '+' || c == '/'
  }

  /** The 6-bit value of an alphabet character. */
  function Value(c: char): (v: int)
    requires IsSymbol(c)
    ensures 0 <= v < 64 && Symbol(v) == c
  {
    if 'A' <= c <= 'Z' then c as int - 'A' as int
    else if 'a' <= c <= 'z' then c as int - 'a' as int + 26
    else if '0' <= c <= '9' then c as int - '0' as int + 52
    else if c == '+' then 62
    else 63
  }

  lemma ValueOfSymbol(v: int)
    requires 0 <= v < 64
    ensures IsSymbol(Symbol(v)) && Value(Symbol(v)) == v
  {
  }

  /** Every character of an encoding is an alphabet character or padding. */
  predicate Encoded(s: string) {
    forall i :: 0 <= i < |s| ==> IsSymbol(s[i]) || s[i] == '='
  }

  function Encode(bs: seq<byte>): (s: string)
    ensures |s| % 4 == 0 && Encoded(s)
  {
    if |bs| == 0 then ""
    else if |bs| == 1 then QuantumOf(bs[0] as int, 0, 0, 1)
    else if |bs| == 2 then QuantumOf(bs[0] as int, bs[1] as int, 0, 2)
    else
      var q := QuantumOf(bs[0] as int, bs[1] as int, bs[2] as int, 3);
      var rest := Encode(bs[3..]);
      EncodedAppend(q, rest);
      q + rest
  }

  lemma EncodedAppend(a: string, b: string)
    requires Encoded(a) && Encoded(b)
    ensures Encoded(a + b)
  {
    forall i | 0 <= i < |a + b| ensures IsSymbol((a + b)[i]) || (a + b)[i] == '=' {
      if i >= |a| {
        assert (a + b)[i] == b[i - |a|];
      }
    }
  }

  /** The four characters for `n` of the bytes `b0`, `b1`, `b2` (the missing ones are 0), padded with `=`. */
  function QuantumOf(b0: int, b1: int, b2: int, n: int): (q: string)
    requires 0 <= b0 < 256 && 0 <= b1 < 256 && 0 <= b2 < 256 && 1 <= n <= 3
    ensures |q| == 4 && Encoded(q)
  {
    QuantumRanges(b0, b1, b2);
    var c0, c1, c2, c3 := Symbol(b0 / 4), Symbol((b0 % 4) * 16 + b1 / 16), Symbol((b1 % 16) * 4 + b2 / 64), Symbol(b2 % 64);
    if n == 1 then [c0, c1, '=', '='] else if n == 2 then [c0, c1, c2, '='] else [c0, c1, c2, c3]
  }

  /**
   * Decodes a padded encoding; None for a length that is not a multiple of four, a
   * character outside the alphabet, or padding anywhere but the end of the last quantum.
   * As in Python's decoder, bits below the last full byte are ignored.
   */
  function Decode(s: string): (r: Option<seq<byte>>)
    decreases |s|
  {
    if |s| == 0 then Some([])
    else if |s| < 4 || !IsSymbol(s[0]) || !IsSymbol(s[1]) then None
    else
      var v0, v1 := Value(s[0]), Value(s[1]);
      var first := (v0 * 4 + v1 / 16) as byte;
      if s[2] == '=' then
        if s[3] == '=' && |s| == 4 then Some([first]) else None
      else if !IsSymbol(s[2]) then None
      else
        var v2 := Value(s[2]);
        var second := ((v1 % 16) * 16 + v2 / 4) as byte;
        if s[3] == '=' then
          if |s| == 4 then Some([first, second]) else None
        else if !IsSymbol(s[3]) then None
        else
          var v3 := Value(s[3]);
          var third := ((v2 % 4) * 64 + v3) as byte;
          match Decode(s[4..])
          case None => None
          case Some(rest) => Some([first, second, third] + rest)
  }

  /** The four 6-bit values a quantum of three bytes spreads over. */
  lemma QuantumRanges(b0: int, b1: int, b2: int)
    requires 0 <= b0 < 256 && 0 <= b1 < 256 && 0 <= b2 < 256
    ensures 0 <= b0 / 4 < 64 && 0 <= (b0 % 4) * 16 + b1 / 16 < 64
    ensures 0 <= (b1 % 16) * 4 + b2 / 64 < 64 && 0 <= b2 % 64 < 64
  {
  }

  /** The three bytes come back from their four 6-bit values. */
  lemma QuantumArithmetic(b0: int, b1: int, b2: int)
    requires 0 <= b0 < 256 && 0 <= b1 < 256 && 0 <= b2 < 256
    ensures (b0 / 4) * 4 + ((b0 % 4) * 16 + b1 / 16) / 16 == b0
    ensures (((b0 % 4) * 16 + b1 / 16) % 16) * 16 + ((b1 % 16) * 4 + b2 / 64) / 4 == b1
    ensures (((b1 % 16) * 4 + b2 / 64) % 4) * 64 + b2 % 64 == b2
  {
  }

  lemma DecodeLast1(b0: byte)
    ensures Decode(Encode([b0])) == Some([b0])
  {
    var v0, v1 := EncodeSingle(b0);
    DecodeSingle(Encode([b0]), v0, v1);
  }

  /** The two 6-bit values of the encoding of one byte. */
  lemma EncodeSingle(b0: byte) returns (v0: int, v1: int)
    ensures 0 <= v0 < 64 && 0 <= v1 < 64
    ensures Encode([b0]) == [Symbol(v0), Symbol(v1), '=', '=']
    ensures v0 * 4 + v1 / 16 == b0 as int
  {
    assert Encode([b0]) == QuantumOf(b0 as int, 0, 0, 1);
    v0, v1 := SingleValues(b0 as int);
  }

  lemma SingleValues(b0: int) returns (v0: int, v1: int)
    requires 0 <= b0 < 256
    ensures 0 <= v0 < 64 && 0 <= v1 < 64
    ensures QuantumOf(b0, 0, 0, 1) == [Symbol(v0), Symbol(v1), '=', '=']
    ensures v0 * 4 + v1 / 16 == b0
  {
    QuantumRanges(b0, 0, 0);
    v0, v1 := b0 / 4, (b0 % 4) * 16;
    assert v0 * 4 + v1 / 16 == b0 by {
      QuantumArithmetic(b0, 0, 0);
    }
  }

  /** Decoding a final quantum of two alphabet characters and two `=`. */
  lemma DecodeSingle(s: string, v0: int, v1: int)
    requires 0 <= v0 < 64 && 0 <= v1 < 64 && 0 <= v0 * 4 + v1 / 16 < 256
    requires s == [Symbol(v0), Symbol(v1), '=', '=']
    ensures Decode(s) == Some([(v0 * 4 + v1 / 16) as byte])
  {
    ValueOfSymbol(v0);
    ValueOfSymbol(v1);
  }

  lemma DecodeLast2(b0: byte, b1: byte)
    ensures Decode(Encode([b0, b1])) == Some([b0, b1])
  {
    var v0, v1, v2 := EncodePair(b0, b1);
    DecodePair(Encode([b0, b1]), v0, v1, v2);
  }

  /** The three 6-bit values of the encoding of two bytes. */
  lemma EncodePair(b0: byte, b1: byte) returns (v0: int, v1: int, v2: int)
    ensures 0 <= v0 < 64 && 0 <= v1 < 64 && 0 <= v2 < 64
    ensures Encode([b0, b1]) == [Symbol(v0), Symbol(v1), Symbol(v2), '=']
    ensures v0 * 4 + v1 / 16 == b0 as int && (v1 % 16) * 16 + v2 / 4 == b1 as int
  {
    assert Encode([b0, b1]) == QuantumOf(b0 as int, b1 as int, 0, 2);
    v0, v1, v2 := PairValues(b0 as int, b1 as int);
  }

  lemma PairValues(b0: int, b1: int) returns (v0: int, v1: int, v2: int)
    requires 0 <= b0 < 256 && 0 <= b1 < 256
    ensures 0 <= v0 < 64 && 0 <= v1 < 64 && 0 <= v2 < 64
    ensures QuantumOf(b0, b1, 0, 2) == [Symbol(v0), Symbol(v1), Symbol(v2), '=']
    ensures v0 * 4 + v1 / 16 == b0 && (v1 % 16) * 16 + v2 / 4 == b1
  {
    QuantumRanges(b0, b1, 0);
    v0, v1, v2 := b0 / 4, (b0 % 4) * 16 + b1 / 16, (b1 % 16) * 4;
    assert v0 * 4 + v1 / 16 == b0 && (v1 % 16) * 16 + v2 / 4 == b1 by {
      QuantumArithmetic(b0, b1, 0);
    }
  }

  /** Decoding a final quantum of three alphabet characters and one `=`. */
  lemma DecodePair(s: string, v0: int, v1: int, v2: int)
    requires 0 <= v0 < 64 && 0 <= v1 < 64 && 0 <= v2 < 64
    requires 0 <= v0 * 4 + v1 / 16 < 256 && 0 <= (v1 % 16) * 16 + v2 / 4 < 256
    requires s == [Symbol(v0), Symbol(v1), Symbol(v2), '=']
    ensures Decode(s) == Some([(v0 * 4 + v1 / 16) as byte, ((v1 % 16) * 16 + v2 / 4) as byte])
  {
    ValueOfSymbol(v0);
    ValueOfSymbol(v1);
    ValueOfSymbol(v2);
  }

  /** Decoding a full quantum of four alphabet characters followed by a decodable rest. */
  lemma DecodeFull(s: string, v0: int, v1: int, v2: int, v3: int, bytes: seq<byte>, rest: seq<byte>)
    requires |s| >= 4 && 0 <= v0 < 64 && 0 <= v1 < 64 && 0 <= v2 < 64 && 0 <= v3 < 64
    requires s[0] == Symbol(v0) && s[1] == Symbol(v1) && s[2] == Symbol(v2) && s[3] == Symbol(v3)
    requires |bytes| == 3 && bytes[0] as int == v0 * 4 + v1 / 16
    requires bytes[1] as int == (v1 % 16) * 16 + v2 / 4 && bytes[2] as int == (v2 % 4) * 64 + v3
    requires Decode(s[4..]) == Some(rest)
    ensures Decode(s) == Some(bytes + rest)
  {
    ValueOfSymbol(v0);
    ValueOfSymbol(v1);
    ValueOfSymbol(v2);
    ValueOfSymbol(v3);
    assert [(v0 * 4 + v1 / 16) as byte, ((v1 % 16) * 16 + v2 / 4) as byte, ((v2 % 4) * 64 + v3) as byte] == bytes;
  }

  /** The four 6-bit values of the first quantum of an encoding of three or more bytes. */
  lemma EncodeQuantum(bs: seq<byte>) returns (v0: int, v1: int, v2: int, v3: int)
    requires |bs| >= 3
    ensures 0 <= v0 < 64 && 0 <= v1 < 64 && 0 <= v2 < 64 && 0 <= v3 < 64
    ensures Encode(bs) == [Symbol(v0), Symbol(v1), Symbol(v2), Symbol(v3)] + Encode(bs[3..])
    ensures v0 * 4 + v1 / 16 == bs[0] as int && (v1 % 16) * 16 + v2 / 4 == bs[1] as int && (v2 % 4) * 64 + v3 == bs[2] as int
  {
    var b0, b1, b2 := bs[0] as int, bs[1] as int, bs[2] as int;
    assert Encode(bs) == QuantumOf(b0, b1, b2, 3) + Encode(bs[3..]);
    v0, v1, v2, v3 := TripleValues(b0, b1, b2);
  }

  lemma TripleValues(b0: int, b1: int, b2: int) returns (v0: int, v1: int, v2: int, v3: int)
    requires 0 <= b0 < 256 && 0 <= b1 < 256 && 0 <= b2 < 256
    ensures 0 <= v0 < 64 && 0 <= v1 < 64 && 0 <= v2 < 64 && 0 <= v3 < 64
    ensures QuantumOf(b0, b1, b2, 3) == [Symbol(v0), Symbol(v1), Symbol(v2), Symbol(v3)]
    ensures v0 * 4 + v1 / 16 == b0 && (v1 % 16) * 16 + v2 / 4 == b1 && (v2 % 4) * 64 + v3 == b2
  {
    QuantumRanges(b0, b1, b2);
    v0, v1, v2, v3 := b0 / 4, (b0 % 4) * 16 + b1 / 16, (b1 % 16) * 4 + b2 / 64, b2 % 64;
    assert v0 * 4 + v1 / 16 == b0 && (v1 % 16) * 16 + v2 / 4 == b1 && (v2 % 4) * 64 + v3 == b2 by {
      QuantumArithmetic(b0, b1, b2);
    }
  }

  /** The first quantum of an encoding of three or more bytes decodes to those three bytes. */
  lemma DecodeQuantum(bs: seq<byte>, rest: seq<byte>)
    requires |bs| >= 3 && Decode(Encode(bs[3..])) == Some(rest)
    ensures Decode(Encode(bs)) == Some(bs[..3] + rest)
  {
    var v0, v1, v2, v3 := EncodeQuantum(bs);
    var s := Encode(bs);
    assert s[4..] == Encode(bs[3..]);
    DecodeFull(s, v0, v1, v2, v3, bs[..3], rest);
  }

  /** Decoding an encoding gives the bytes back. */
  lemma {:induction false} DecodeEncode(bs: seq<byte>)
    ensures Decode(Encode(bs)) == Some(bs)
    decreases |bs|
  {
    if |bs| == 1 {
      assert bs == [bs[0]];
      DecodeLast1(bs[0]);
    } else if |bs| == 2 {
      assert bs == [bs[0], bs[1]];
      DecodeLast2(bs[0], bs[1]);
    } else if |bs| >= 3 {
      DecodeEncode(bs[3..]);
      DecodeQuantum(bs, bs[3..]);
      assert bs == bs[..3] + bs[3..];
    }
  }

  // ----- ASCII text -----

  predicate IsAscii(s: string) {
    forall i :: 0 <= i < |s| ==> s[i] as int < 128
  }

  /** `s.encode()` for an ASCII string. */
  function AsciiBytes(s: string): (bs: seq<byte>)
    requires IsAscii(s)
    ensures |bs| == |s| && forall i :: 0 <= i < |s| ==> bs[i] as int == s[i] as int
  {
    seq(|s|, i requires 0 <= i < |s| => s[i] as int as byte)
  }

  /** `bs.decode()`, with any byte outside ASCII treated as a decoding error. */
  function AsciiText(bs: seq<byte>): (r: Option<string>)
    ensures r.Some? <==> forall i :: 0 <= i < |bs| ==> bs[i] < 128
    ensures r.Some? ==> IsAscii(r.value) && |r.value| == |bs| && forall i :: 0 <= i < |bs| ==> r.value[i] as int == bs[i] as int
  {
    if forall i :: 0 <= i < |bs| ==> bs[i] < 128 then Some(seq(|bs|, i requires 0 <= i < |bs| => bs[i] as int as char))
    else None
  }

  lemma AsciiRoundTrip(s: string)
    requires IsAscii(s)
    ensures AsciiText(AsciiBytes(s)) == Some(s)
  {
    var t := AsciiText(AsciiBytes(s));
    assert t.Some?;
    assert t.value == s;
  }
}
