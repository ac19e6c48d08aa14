/** The binary cell codec of portable documents: standard base64 with padding
    (section 4 of RFC 4648), accepted in canonical form only. */
module CellCodec {
  import opened Outcomes

  type Sextet = x: int | 0 <= x < 64

  function Letter(v: Sextet): char {
    if v < 26 then ('A' as int + v) as char
    else if v < 52 then ('a' as int + (v - 26)) as char
    else if v < 62 then ('0' as int + (v - 52)) as char
    else if v == 62 then '+' else '/'
  }

  function Value(c: char): Option<Sextet> {
    if 'A' <= c <= 'Z' then Some(c as int - 'A' as int)
    else if 'a' <= c <= 'z' then Some(c as int - 'a' as int + 26)
    else if '0' <= c <= '9' then Some(c as int - '0' as int + 52)
    else if c == '+' then Some(62)
    else if c == '/' then Some(63)
    else None
  }

  lemma LettersAreValues(v: Sextet, c: char)
    ensures Value(Letter(v)) == Some(v) && Letter(v) != '='
    ensures Value(c).Some? ==> Letter(Value(c).value) == c
  {
  }

  // Three bytes are four sextets, each of which takes bits of at most two bytes.
  function Top(x: Byte): Sextet { x / 4 }
  function Upper(x: Byte, y: Byte): Sextet { x % 4 * 16 + y / 16 }
  function Lower(y: Byte, z: Byte): Sextet { y % 16 * 4 + z / 64 }
  function Bottom(z: Byte): Sextet { z % 64 }

  function First(p: Sextet, q: Sextet): Byte { p * 4 + q / 16 }
  function Second(q: Sextet, r: Sextet): Byte { q % 16 * 16 + r / 4 }
  function Third(r: Sextet, t: Sextet): Byte { r % 4 * 64 + t }

  lemma GroupArithmetic(x: Byte, y: Byte, z: Byte)
    ensures First(Top(x), Upper(x, y)) == x
    ensures Second(Upper(x, y), Lower(y, z)) == y
    ensures Third(Lower(y, z), Bottom(z)) == z
  {
  }

  function Encode(b: seq<Byte>): string {
    if b == [] then ""
    else if |b| == 1 then [Letter(Top(b[0])), Letter(Upper(b[0], 0)), '=', '=']
    else if |b| == 2 then [Letter(Top(b[0])), Letter(Upper(b[0], b[1])), Letter(Lower(b[1], 0)), '=']
    else [Letter(Top(b[0])), Letter(Upper(b[0], b[1])), Letter(Lower(b[1], b[2])), Letter(Bottom(b[2]))] + Encode(b[3..])
  }

  /** The library decoder: complete groups, padding at the very end only, and the
      unused low bits of a padded group ignored. */
  function Decode(s: string): Result<seq<Byte>> {
    if s == "" then Ok([])
    else if |s| < 4 || Value(s[0]).None? || Value(s[1]).None? then Rejected
    else
      var first := First(Value(s[0]).value, Value(s[1]).value);
      if |s| == 4 && s[2] == '=' && s[3] == '=' then Ok([first])
      else if Value(s[2]).None? then Rejected
      else
        var second := Second(Value(s[1]).value, Value(s[2]).value);
        if |s| == 4 && s[3] == '=' then Ok([first, second])
        else if Value(s[3]).None? then Rejected
        else
          var rest :- Decode(s[4..]);
          Ok([first, second, Third(Value(s[2]).value, Value(s[3]).value)] + rest)
  }

  lemma LetterFacts(v: Sextet)
    ensures Value(Letter(v)) == Some(v) && Letter(v) != '='
  {
    LettersAreValues(v, '=');
  }

  lemma DecodesFullGroup(p: Sextet, q: Sextet, r: Sextet, t: Sextet, rest: string, b: seq<Byte>)
    requires Decode(rest) == Ok(b)
    ensures Decode([Letter(p), Letter(q), Letter(r), Letter(t)] + rest) == Ok([First(p, q), Second(q, r), Third(r, t)] + b)
  {
    LetterFacts(p);
    LetterFacts(q);
    LetterFacts(r);
    LetterFacts(t);
    hide Letter, Value, First, Second, Third;
    assert ([Letter(p), Letter(q), Letter(r), Letter(t)] + rest)[4..] == rest;
  }

  lemma DecodesTwo(p: Sextet, q: Sextet, r: Sextet)
    ensures Decode([Letter(p), Letter(q), Letter(r), '=']) == Ok([First(p, q), Second(q, r)])
  {
    LetterFacts(p);
    LetterFacts(q);
    LetterFacts(r);
    hide Letter, Value, First, Second;
  }

  lemma DecodesOne(p: Sextet, q: Sextet)
    ensures Decode([Letter(p), Letter(q), '=', '=']) == Ok([First(p, q)])
  {
    LetterFacts(p);
    LetterFacts(q);
    hide Letter, Value, First;
  }

  lemma {:induction false} DecodeEncode(b: seq<Byte>)
    ensures Decode(Encode(b)) == Ok(b)
  {
    hide Decode, Letter, Value, First, Second, Third, Top, Upper, Lower, Bottom;
    if |b| >= 3 {
      DecodeEncode(b[3..]);
      DecodesFullGroup(Top(b[0]), Upper(b[0], b[1]), Lower(b[1], b[2]), Bottom(b[2]), Encode(b[3..]), b[3..]);
      GroupArithmetic(b[0], b[1], b[2]);
      assert b == [b[0], b[1], b[2]] + b[3..];
    } else if |b| == 2 {
      DecodesTwo(Top(b[0]), Upper(b[0], b[1]), Lower(b[1], 0));
      GroupArithmetic(b[0], b[1], 0);
      assert b == [b[0], b[1]];
    } else if |b| == 1 {
      DecodesOne(Top(b[0]), Upper(b[0], 0));
      GroupArithmetic(b[0], 0, 0);
      assert b == [b[0]];
    } else {
      assert b == [] && Decode("") == Ok([]) by { DecodesNothing(); }
    }
  }

  lemma DecodesNothing()
    ensures Decode("") == Ok([])
  {
  }

  /** What can be stored in a database cell, and what a JSON member can hold. */
  datatype Cell = Null | Integer(value: int) | Text(text: string) | Bytes(bytes: seq<Byte>) | Foreign(json: Json)

  /** `Tagged` is an object whose only member is the binary tag; `Other` is any other array or object. */
  datatype Json = JNull | JInteger(value: int) | JText(text: string) | Tagged(inner: Json) | Other(id: nat)

  predicate Storable(c: Cell) { !c.Foreign? }

  function PortableCell(c: Cell): Json {
    match c
    case Null => JNull
    case Integer(v) => JInteger(v)
    case Text(t) => JText(t)
    case Bytes(b) => Tagged(JText(Encode(b)))
    case Foreign(j) => j
  }

  function DatabaseCell(j: Json): Result<Cell> {
    match j
    case JNull => Ok(Null)
    case JInteger(v) => Ok(Integer(v))
    case JText(t) => Ok(Text(t))
    case Other(_) => Ok(Foreign(j))
    case Tagged(inner) =>
      if !inner.JText? then Rejected
      else
        var raw :- Decode(inner.text);
        if Encode(raw) == inner.text then Ok(Bytes(raw)) else Rejected
  }

  /** Every storable cell survives the trip. */
  lemma CellRoundTrip(c: Cell)
    requires Storable(c)
    ensures DatabaseCell(PortableCell(c)) == Ok(c)
  {
    if c.Bytes? {
      DecodeEncode(c.bytes);
    }
  }

  /** Every accepted document value is reproduced exactly. */
  lemma DocumentRoundTrip(j: Json)
    requires DatabaseCell(j).Ok?
    ensures PortableCell(DatabaseCell(j).value) == j
  {
  }

  /** A binary cell is accepted if and only if its text is the encoding of some bytes. */
  lemma AcceptsExactlyCanonical(t: string)
    ensures DatabaseCell(Tagged(JText(t))).Ok? <==> exists b :: Encode(b) == t
  {
    if b :| Encode(b) == t {
      DecodeEncode(b);
    }
  }

  /** The alphabet of Table 1 of RFC 4648: upper-case letters, lower-case letters, digits, plus and slash, each run in order. */
  lemma LettersInOrder(v: Sextet)
    ensures Letter(0) == 'A' && Letter(25) == 'Z' && Letter(26) == 'a' && Letter(51) == 'z'
    ensures Letter(52) == '0' && Letter(61) == '9' && Letter(62) == '+' && Letter(63) == '/'
    ensures v < 61 && v != 25 && v != 51 ==> Letter(v + 1) as int == Letter(v) as int + 1
  {
  }

  /** Of three bytes, read as one number of 24 bits, the four letters give the six-bit digits from the top. */
  lemma GroupIsOneNumber(x: Byte, y: Byte, z: Byte)
    ensures ((Top(x) * 64 + Upper(x, y)) * 64 + Lower(y, z)) * 64 + Bottom(z) == (x * 256 + y) * 256 + z
  {
  }
}
