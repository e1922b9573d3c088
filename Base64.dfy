/** The base64 encoding of section 4 of RFC 4648 (standard alphabet, `=`
    padding), as produced by Node's `Buffer#toString('base64')`, together
    with a strict decoder that inverts `Encode`: it rejects unpadded input,
    characters outside the alphabet and non-zero padding bits. */
module Base64 {
  import opened Wrappers

  newtype byte = b: int | 0 <= b < 256

  /** The value of one base64 digit. */
  type Sextet = v: int | 0 <= v < 64

  /** Table 1 of RFC 4648: the character that stands for a 6-bit value. */
  function CharOf(v: Sextet): (c: char)
  {
    if v < 26 then ('A' as int + v) as char
    else if v < 52 then ('a' as int + (v - 26)) as char
    else if v < 62 then ('0' as int + (v - 52)) as char
    else if v == 62 then '+'
    else '/'
  }

  predicate IsBase64Char(c: char)
  {
    ('A' <= c <= 'Z') || ('a' <= c <= 'z') || ('0' <= c <= '9') || c == '+' || c == '/'
  }

  /** The inverse of `CharOf` on the alphabet. */
  function ValueOf(c: char): (v: Sextet)
    requires IsBase64Char(c)
    ensures CharOf(v) == c
  {
    if 'A' <= c <= 'Z' then c as int - 'A' as int
    else if 'a' <= c <= 'z' then c as int - 'a' as int + 26
    else if '0' <= c <= '9' then c as int - '0' as int + 52
    else if c == '+' then 62
    else 63
  }

  lemma CharOfInAlphabet(v: Sextet)
    ensures IsBase64Char(CharOf(v)) && ValueOf(CharOf(v)) == v
  {
  }

  /** Three bytes (24 bits) split into four 6-bit groups, most significant first. */
  function Split(b0: byte, b1: byte, b2: byte): (q: seq<Sextet>)
    ensures |q| == 4
  {
    [b0 as int / 4, (b0 as int % 4) * 16 + b1 as int / 16, (b1 as int % 16) * 4 + b2 as int / 64, b2 as int % 64]
  }

  /** Four 6-bit groups joined back into three bytes. */
  function Join(c0: Sextet, c1: Sextet, c2: Sextet, c3: Sextet): (b: seq<byte>)
    ensures |b| == 3
  {
    [(c0 * 4 + c1 / 16) as byte, ((c1 % 16) * 16 + c2 / 4) as byte, ((c2 % 4) * 64 + c3) as byte]
  }

  lemma JoinSplit(b0: byte, b1: byte, b2: byte)
    ensures var q := Split(b0, b1, b2); Join(q[0], q[1], q[2], q[3]) == [b0, b1, b2]
  {
  }

  /** The four characters that encode three bytes. */
  function EncodeQuantum(b0: byte, b1: byte, b2: byte): (s: string)
    ensures |s| == 4
  {
    var q := Split(b0, b1, b2);
    [CharOf(q[0]), CharOf(q[1]), CharOf(q[2]), CharOf(q[3])]
  }

  /** `Buffer#toString('base64')`: every full group of three bytes becomes four
      characters; a final group of one or two bytes is padded with zero bits and
      completed with `==` or `=` (RFC 4648, section 4). */
  function Encode(b: seq<byte>): (s: string)
    decreases |b|
  {
    if |b| == 0 then ""
    else if |b| == 1 then EncodeQuantum(b[0], 0, 0)[..2] + "=="
    else if |b| == 2 then EncodeQuantum(b[0], b[1], 0)[..3] + "="
    else EncodeQuantum(b[0], b[1], b[2]) + Encode(b[3..])
  }

  /** The encoding takes four characters per started group of three bytes. */
  lemma {:induction false} EncodeLength(b: seq<byte>)
    ensures |Encode(b)| == (|b| + 2) / 3 * 4
    decreases |b|
  {
    if |b| >= 3 {
      EncodeLength(b[3..]);
      assert (|b| + 2) / 3 == (|b| - 3 + 2) / 3 + 1;
    }
  }

  /** Four characters, all from the alphabet. */
  predicate IsFullQuantum(q: string)
  {
    |q| == 4 && IsBase64Char(q[0]) && IsBase64Char(q[1]) && IsBase64Char(q[2]) && IsBase64Char(q[3])
  }

  function DecodeQuantum(q: string): (b: seq<byte>)
    requires IsFullQuantum(q)
    ensures |b| == 3
  {
    Join(ValueOf(q[0]), ValueOf(q[1]), ValueOf(q[2]), ValueOf(q[3]))
  }

  /** Decodes the final quantum of four characters, which may carry padding;
      the bits that padding leaves over must be zero. */
  function DecodeLast(q: string): Option<seq<byte>>
    requires |q| == 4
  {
    if IsFullQuantum(q) then Some(DecodeQuantum(q))
    else if IsBase64Char(q[0]) && IsBase64Char(q[1]) && IsBase64Char(q[2]) && q[3] == '='
            && ValueOf(q[2]) % 4 == 0 then
      Some(Join(ValueOf(q[0]), ValueOf(q[1]), ValueOf(q[2]), 0)[..2])
    else if IsBase64Char(q[0]) && IsBase64Char(q[1]) && q[2] == '=' && q[3] == '='
            && ValueOf(q[1]) % 16 == 0 then
      Some(Join(ValueOf(q[0]), ValueOf(q[1]), 0, 0)[..1])
    else None
  }

  /** Strict decoding: the length must be a multiple of four, only the last
      quantum may be padded, and no character outside the alphabet is skipped. */
  function Decode(s: string): Option<seq<byte>>
    decreases |s|
  {
    if |s| == 0 then Some([])
    else if |s| < 4 then None
    else if |s| == 4 then DecodeLast(s)
    else if IsFullQuantum(s[..4]) then
      match Decode(s[4..])
      case Some(rest) => Some(DecodeQuantum(s[..4]) + rest)
      case None => None
    else None
  }

  lemma QuantumRoundTrip(b0: byte, b1: byte, b2: byte)
    ensures IsFullQuantum(EncodeQuantum(b0, b1, b2))
    ensures DecodeQuantum(EncodeQuantum(b0, b1, b2)) == [b0, b1, b2]
  {
    var q := Split(b0, b1, b2);
    var e := EncodeQuantum(b0, b1, b2);
    CharOfInAlphabet(q[0]); CharOfInAlphabet(q[1]); CharOfInAlphabet(q[2]); CharOfInAlphabet(q[3]);
    assert ValueOf(e[0]) == q[0] && ValueOf(e[1]) == q[1] && ValueOf(e[2]) == q[2] && ValueOf(e[3]) == q[3];
    assert DecodeQuantum(e) == Join(q[0], q[1], q[2], q[3]);
    JoinSplit(b0, b1, b2);
  }

  lemma DecodeEncodeOne(b0: byte)
    ensures Decode(Encode([b0])) == Some([b0])
  {
    var q := Split(b0, 0, 0);
    var e := Encode([b0]);
    CharOfInAlphabet(q[0]); CharOfInAlphabet(q[1]);
    assert e == [CharOf(q[0]), CharOf(q[1]), '=', '='];
    assert ValueOf(e[0]) == q[0] && ValueOf(e[1]) == q[1] && q[1] % 16 == 0;
    assert Decode(e) == Some(Join(q[0], q[1], 0, 0)[..1]);
    JoinSplit(b0, 0, 0);
    assert q[2] == 0 && q[3] == 0;
    assert Join(q[0], q[1], 0, 0)[..1] == [b0];
  }

  lemma DecodeEncodeTwo(b0: byte, b1: byte)
    ensures Decode(Encode([b0, b1])) == Some([b0, b1])
  {
    var q := Split(b0, b1, 0);
    var e := Encode([b0, b1]);
    CharOfInAlphabet(q[0]); CharOfInAlphabet(q[1]); CharOfInAlphabet(q[2]);
    assert e == [CharOf(q[0]), CharOf(q[1]), CharOf(q[2]), '='];
    assert ValueOf(e[0]) == q[0] && ValueOf(e[1]) == q[1] && ValueOf(e[2]) == q[2] && q[2] % 4 == 0;
    assert Decode(e) == Some(Join(q[0], q[1], q[2], 0)[..2]);
    JoinSplit(b0, b1, 0);
    assert q[3] == 0;
    assert Join(q[0], q[1], q[2], 0)[..2] == [b0, b1];
  }

  /** A full quantum in front of a decodable string decodes to its three bytes in front. */
  lemma DecodeAfterQuantum(e: string, rest: string, tail: seq<byte>)
    requires IsFullQuantum(e) && Decode(rest) == Some(tail)
    ensures Decode(e + rest) == Some(DecodeQuantum(e) + tail)
  {
    var s := e + rest;
    assert s[..4] == e && s[4..] == rest;
    if rest == [] {
      assert s == e && tail == [];
      assert Decode(s) == DecodeLast(e) == Some(DecodeQuantum(e));
      assert DecodeQuantum(e) + tail == DecodeQuantum(e);
    }
  }

  /** One step of the round trip: a leading group of three bytes. */
  lemma DecodeEncodeStep(b: seq<byte>)
    requires |b| >= 3 && Decode(Encode(b[3..])) == Some(b[3..])
    ensures Decode(Encode(b)) == Some(b)
  {
    var e := EncodeQuantum(b[0], b[1], b[2]);
    assert Encode(b) == e + Encode(b[3..]);
    QuantumRoundTrip(b[0], b[1], b[2]);
    DecodeAfterQuantum(e, Encode(b[3..]), b[3..]);
    FrontThree(b);
  }

  lemma FrontThree(b: seq<byte>)
    requires |b| >= 3
    ensures b == [b[0], b[1], b[2]] + b[3..]
  {
  }

  /** Round trip: decoding an encoding gives back the bytes. */
  lemma {:induction false} DecodeEncode(b: seq<byte>)
    ensures Decode(Encode(b)) == Some(b)
    decreases |b|
  {
    if |b| == 1 {
      assert b == [b[0]];
      DecodeEncodeOne(b[0]);
    } else if |b| == 2 {
      assert b == [b[0], b[1]];
      DecodeEncodeTwo(b[0], b[1]);
    } else if |b| >= 3 {
      DecodeEncode(b[3..]);
      DecodeEncodeStep(b);
    }
  }
}
