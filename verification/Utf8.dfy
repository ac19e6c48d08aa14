/** UTF-8 (section 3 of RFC 3629): strict decoding, encoding, and truncation to whole code points. */
module Utf8 {
  import opened Outcomes

  /** Code points as a decoded JSON text can hold them, lone surrogates included. */
  type CodePoint = x: int | 0 <= x < 0x110000
  type Text = seq<CodePoint>

  predicate Surrogate(c: CodePoint) { 0xD800 <= c < 0xE000 }

  predicate Encodable(t: Text) { forall i | 0 <= i < |t| :: !Surrogate(t[i]) }

  function Tail(x: int): Byte { 0x80 + x % 64 }

  function EncodeOne(c: CodePoint): seq<Byte> {
    if c < 0x80 then [c]
    else if c < 0x800 then [0xC0 + c / 64, Tail(c)]
    else if c < 0x10000 then [0xE0 + c / 4096, Tail(c / 64), Tail(c)]
    else [0xF0 + c / 262144, Tail(c / 4096), Tail(c / 64), Tail(c)]
  }

  /** Encoding; a lone surrogate is an error. */
  function Encode(t: Text): Result<seq<Byte>> {
    if t == [] then Ok([])
    else if Surrogate(t[0]) then Rejected
    else
      var rest :- Encode(t[1..]);
      Ok(EncodeOne(t[0]) + rest)
  }

  predicate Continues(b: seq<Byte>, i: nat) { i < |b| && 0x80 <= b[i] < 0xC0 }

  function Bits(b: Byte): int { b % 64 }

  /** The first code point and its length, if the bytes start with a well-formed sequence. */
  function DecodeOne(b: seq<Byte>): Option<(CodePoint, nat)> {
    if b == [] then None
    else if b[0] < 0x80 then Some((b[0], 1))
    else if 0xC2 <= b[0] < 0xE0 && Continues(b, 1) then Some(((b[0] - 0xC0) * 64 + Bits(b[1]), 2))
    else if 0xE0 <= b[0] < 0xF0 && Continues(b, 1) && Continues(b, 2) then
      var c := (b[0] - 0xE0) * 4096 + Bits(b[1]) * 64 + Bits(b[2]);
      if c >= 0x800 && !Surrogate(c) then Some((c, 3)) else None
    else if 0xF0 <= b[0] < 0xF5 && Continues(b, 1) && Continues(b, 2) && Continues(b, 3) then
      var c := (b[0] - 0xF0) * 262144 + Bits(b[1]) * 4096 + Bits(b[2]) * 64 + Bits(b[3]);
      if 0x10000 <= c < 0x110000 then Some((c, 4)) else None
    else None
  }

  lemma DecodeOneLength(b: seq<Byte>)
    ensures DecodeOne(b).Some? ==> 1 <= DecodeOne(b).value.1 <= |b|
  {
  }

  /** Strict decoding. */
  function Decode(b: seq<Byte>): Result<Text> {
    if b == [] then Ok([])
    else if DecodeOne(b).None? then Rejected
    else
      DecodeOneLength(b);
      var rest :- Decode(b[DecodeOne(b).value.1..]);
      Ok([DecodeOne(b).value.0] + rest)
  }

  /** Decoding that passes over every byte it cannot use. */
  function DecodeIgnoring(b: seq<Byte>): Text {
    if b == [] then []
    else if DecodeOne(b).None? then DecodeIgnoring(b[1..])
    else
      DecodeOneLength(b);
      [DecodeOne(b).value.0] + DecodeIgnoring(b[DecodeOne(b).value.1..])
  }

  /** `_truncate_utf8`: cut the encoded text, drop what the cut broke. */
  function Truncate(t: Text, limit: nat): Result<Text> {
    var b :- Encode(t);
    Ok(if |b| <= limit then t else DecodeIgnoring(b[..limit]))
  }

  // ---------- encoding and decoding ----------

  lemma DecodesOneByte(c: CodePoint, rest: seq<Byte>)
    requires c < 0x80
    ensures DecodeOne(EncodeOne(c) + rest) == Some((c, 1))
  {
  }

  lemma DecodesTwoBytes(c: CodePoint, rest: seq<Byte>)
    requires 0x80 <= c < 0x800
    ensures DecodeOne(EncodeOne(c) + rest) == Some((c, 2))
  {
    assert Bits(Tail(c)) == c % 64;
    var b := EncodeOne(c) + rest;
    assert b[0] == 0xC0 + c / 64 && b[1] == Tail(c);
  }

  lemma DecodesThreeBytes(c: CodePoint, rest: seq<Byte>)
    requires 0x800 <= c < 0x10000 && !Surrogate(c)
    ensures DecodeOne(EncodeOne(c) + rest) == Some((c, 3))
  {
    assert Bits(Tail(c)) == c % 64 && Bits(Tail(c / 64)) == c / 64 % 64;
    assert c == c / 4096 * 4096 + c / 64 % 64 * 64 + c % 64;
    var b := EncodeOne(c) + rest;
    assert b[0] == 0xE0 + c / 4096 && b[1] == Tail(c / 64) && b[2] == Tail(c);
  }

  lemma FourDigits(c: CodePoint)
    ensures c == c / 262144 * 262144 + c / 4096 % 64 * 4096 + c / 64 % 64 * 64 + c % 64
    ensures Bits(Tail(c)) == c % 64 && Bits(Tail(c / 64)) == c / 64 % 64 && Bits(Tail(c / 4096)) == c / 4096 % 64
  {
    var q := c / 64;
    var r := q / 64;
    assert c / 4096 == r;
    assert c / 262144 == r / 64;
  }

  lemma DecodesFourBytes(c: CodePoint, rest: seq<Byte>)
    requires 0x10000 <= c
    ensures DecodeOne(EncodeOne(c) + rest) == Some((c, 4))
  {
    FourDigits(c);
    var b := EncodeOne(c) + rest;
    assert b[0] == 0xF0 + c / 262144 && b[1] == Tail(c / 4096) && b[2] == Tail(c / 64) && b[3] == Tail(c);
  }

  lemma DecodesEncoded(c: CodePoint, rest: seq<Byte>)
    requires !Surrogate(c)
    ensures DecodeOne(EncodeOne(c) + rest) == Some((c, |EncodeOne(c)|))
  {
    if c < 0x80 {
      DecodesOneByte(c, rest);
    } else if c < 0x800 {
      DecodesTwoBytes(c, rest);
    } else if c < 0x10000 {
      DecodesThreeBytes(c, rest);
    } else {
      DecodesFourBytes(c, rest);
    }
  }

  /** Every byte of an encoded code point after the first is a continuation byte. */
  lemma EncodedTail(c: CodePoint, i: nat)
    requires 0 < i < |EncodeOne(c)|
    ensures 0x80 <= EncodeOne(c)[i] < 0xC0
  {
  }

  /** A broken sequence, cut short inside one code point, yields nothing. */
  lemma {:induction false} ContinuationsYieldNothing(b: seq<Byte>)
    requires forall i | 0 <= i < |b| :: 0x80 <= b[i] < 0xC0
    ensures DecodeIgnoring(b) == []
  {
    if b != [] {
      ContinuationsYieldNothing(b[1..]);
    }
  }

  lemma CutSequenceYieldsNothing(c: CodePoint, n: nat)
    requires n < |EncodeOne(c)|
    ensures DecodeIgnoring(EncodeOne(c)[..n]) == []
  {
    if n > 0 {
      var rest := EncodeOne(c)[..n][1..];
      forall j | 0 <= j < |rest|
        ensures 0x80 <= rest[j] < 0xC0
      {
        EncodedTail(c, j + 1);
      }
      ContinuationsYieldNothing(rest);
      CutSequenceFails(c, n);
    }
  }

  lemma CutSequenceFails(c: CodePoint, n: nat)
    requires 0 < n < |EncodeOne(c)|
    ensures DecodeOne(EncodeOne(c)[..n]) == None
  {
  }

  /** Encoding succeeds exactly without lone surrogates, and strict decoding undoes it. */
  lemma {:induction false} DecodeEncode(t: Text)
    ensures Encode(t).Ok? <==> Encodable(t)
    ensures Encode(t).Ok? ==> Decode(Encode(t).value) == Ok(t)
  {
    hide DecodeOne, EncodeOne;
    if t != [] {
      DecodeEncode(t[1..]);
      assert Encodable(t) <==> !Surrogate(t[0]) && Encodable(t[1..]) by { EncodableSplits(t); }
      if Encode(t).Ok? {
        var one, rest := EncodeOne(t[0]), Encode(t[1..]).value;
        DecodesEncoded(t[0], rest);
        DecodeOneLength(one + rest);
        assert (one + rest)[|one|..] == rest;
        assert t == [t[0]] + t[1..];
      }
    }
  }

  lemma EncodableSplits(t: Text)
    requires t != []
    ensures Encodable(t) <==> !Surrogate(t[0]) && Encodable(t[1..])
  {
    assert t == [t[0]] + t[1..];
  }

  /** The longest prefix of whole code points whose encoding fits. */
  ghost predicate LongestFitting(p: Text, t: Text, limit: nat) {
    && p <= t && Encode(p).Ok? && |Encode(p).value| <= limit
    && (p == t || (Encode(t[..|p| + 1]).Ok? && |Encode(t[..|p| + 1]).value| > limit))
  }

  lemma {:induction false} CutDecodesToLongest(t: Text, limit: nat)
    requires Encode(t).Ok? && limit <= |Encode(t).value|
    ensures LongestFitting(DecodeIgnoring(Encode(t).value[..limit]), t, limit)
  {
    hide DecodeOne, EncodeOne;
    if t != [] {
      var one, rest := EncodeOne(t[0]), Encode(t[1..]).value;
      assert t == [t[0]] + t[1..];
      if limit < |one| {
        assert (one + rest)[..limit] == one[..limit];
        CutSequenceYieldsNothing(t[0], limit);
        assert t[..1] == [t[0]] && t[..1][1..] == [];
        assert Encode([]) == Ok([]) && one + [] == one;
        assert Encode(t[..1]) == Ok(one);
      } else {
        CutDecodesToLongest(t[1..], limit - |one|);
        var cut := rest[..limit - |one|];
        assert (one + rest)[..limit] == one + cut;
        DecodesEncoded(t[0], cut);
        DecodeOneLength(one + cut);
        assert (one + cut)[|one|..] == cut;
        LongestExtends(t, DecodeIgnoring(cut), limit);
      }
    }
  }

  lemma LongestExtends(t: Text, p: Text, limit: nat)
    requires t != [] && !Surrogate(t[0]) && limit >= |EncodeOne(t[0])|
    requires LongestFitting(p, t[1..], limit - |EncodeOne(t[0])|)
    ensures LongestFitting([t[0]] + p, t, limit)
  {
    hide EncodeOne;
    var q := [t[0]] + p;
    assert q[1..] == p && t == [t[0]] + t[1..];
    if p != t[1..] {
      assert t[..|q| + 1][1..] == t[1..][..|p| + 1];
    }
  }

  /** Truncation fails exactly on a lone surrogate; otherwise it keeps the longest prefix that fits. */
  lemma TruncateIsLongest(t: Text, limit: nat)
    ensures Truncate(t, limit).Ok? <==> Encodable(t)
    ensures Truncate(t, limit).Ok? ==> LongestFitting(Truncate(t, limit).value, t, limit)
  {
    DecodeEncode(t);
    if Encode(t).Ok? && |Encode(t).value| > limit {
      CutDecodesToLongest(t, limit);
    }
  }

  // ---------- cutting after a newline ----------

  const NEWLINE: Byte := 10

  lemma DecodeOneStopsAtNewline(a: seq<Byte>, b: seq<Byte>)
    requires a != []
    ensures DecodeOne(a + [NEWLINE] + b) == DecodeOne(a + [NEWLINE])
    ensures DecodeOne(a + [NEWLINE]).Some? ==> DecodeOne(a + [NEWLINE]).value.1 <= |a|
  {
  }

  /** A newline byte is never part of a longer sequence: decoding splits there. */
  lemma {:induction false} DecodeSplitsAtNewline(a: seq<Byte>, b: seq<Byte>)
    requires Decode(a + [NEWLINE] + b).Ok?
    ensures Decode(a + [NEWLINE]).Ok? && Decode(b).Ok?
    ensures var head := Decode(a + [NEWLINE]).value;
      && Decode(a + [NEWLINE] + b).value == head + Decode(b).value
      && head != [] && head[|head| - 1] == NEWLINE
    decreases |a|
  {
    if a == [] {
      assert ([NEWLINE] + b)[1..] == b;
      assert a + [NEWLINE] + b == [NEWLINE] + b && a + [NEWLINE] == [NEWLINE];
      assert [NEWLINE][1..] == [];
    } else {
      DecodeOneStopsAtNewline(a, b);
      hide DecodeOne;
      DecodeOneLength(a + [NEWLINE]);
      var n := DecodeOne(a + [NEWLINE]).value.1;
      assert (a + [NEWLINE] + b)[n..] == a[n..] + [NEWLINE] + b;
      assert (a + [NEWLINE])[n..] == a[n..] + [NEWLINE];
      DecodeSplitsAtNewline(a[n..], b);
    }
  }

  // ---------- nothing but encodings decodes ----------

  /** The encoding of one code point, by the number of bytes section 3 of RFC 3629 gives it. */
  lemma EncodesByRange(c: CodePoint)
    ensures |EncodeOne(c)| == if c <= 0x7F then 1 else if c <= 0x7FF then 2 else if c <= 0xFFFF then 3 else 4
    ensures EncodeOne(0x24) == [0x24] && EncodeOne(0xA2) == [0xC2, 0xA2] && EncodeOne(0x20AC) == [0xE2, 0x82, 0xAC]
    ensures EncodeOne(0x10348) == [0xF0, 0x90, 0x8D, 0x88]
  {
  }

  lemma DecodedOneEncodes(b: seq<Byte>)
    requires DecodeOne(b).Some?
    ensures var r := DecodeOne(b).value; 1 <= r.1 <= |b| && !Surrogate(r.0) && EncodeOne(r.0) == b[..r.1]
  {
    if b[0] >= 0xF0 {
      FourEncode(b);
    } else if b[0] >= 0xE0 {
      TailOf(b[1], b[0] - 0xE0);
      TailOf(b[2], (b[0] - 0xE0) * 64 + Bits(b[1]));
    } else if b[0] >= 0x80 {
      TailOf(b[1], b[0] - 0xC0);
    }
  }

  lemma FourEncode(b: seq<Byte>)
    requires DecodeOne(b).Some? && b[0] >= 0xF0
    ensures var r := DecodeOne(b).value; r.1 == 4 && |b| >= 4 && r.0 >= 0x10000 && EncodeOne(r.0) == b[..4]
  {
    var high := (b[0] - 0xF0) * 64 + Bits(b[1]);
    var c := (high * 64 + Bits(b[2])) * 64 + Bits(b[3]);
    assert DecodeOne(b).value.0 == c;
    TailOf(b[1], b[0] - 0xF0);
    TailOf(b[2], high);
    TailOf(b[3], high * 64 + Bits(b[2]));
    assert c / 4096 == high && c / 262144 == b[0] - 0xF0;
    hide DecodeOne, Tail, Bits;
  }

  lemma TailOf(b: Byte, high: nat)
    requires 0x80 <= b < 0xC0
    ensures Tail(high * 64 + Bits(b)) == b && (high * 64 + Bits(b)) / 64 == high
  {
  }

  /** Strict decoding accepts exactly the encodings: shortest form, no surrogate, nothing past the last code point. */
  lemma {:induction false} DecodesOnlyEncodings(b: seq<Byte>)
    requires Decode(b).Ok?
    ensures Encode(Decode(b).value) == Ok(b)
  {
    if b != [] {
      DecodedOneEncodes(b);
      var n := DecodeOne(b).value.1;
      hide DecodeOne, EncodeOne;
      DecodesOnlyEncodings(b[n..]);
      assert b == b[..n] + b[n..];
      var t := Decode(b).value;
      assert t[1..] == Decode(b[n..]).value;
    }
  }
}
