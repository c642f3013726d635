/**
 * The base 64 encoding of section 4 of RFC 4648 (standard alphabet, `=`
 * padding), as Python's `base64.b64encode` produces it, with a strict
 * decoder used to state that the encoding loses nothing.
 */
module Base64 {
  import opened Common

  predicate IsBase64Char(c: char)
  {
    'A' <= c <= 'Z' || 'a' <= c <= 'z' || '0' <= c <= '9' || c == '+' || c == '/'
  }

  /** The character for a 6-bit value, as Table 1 of RFC 4648 lists them: A-Z, a-z, 0-9, '+', '/'. */
  function CharOf(v: nat): (c: char)
    requires v < 64
    ensures IsBase64Char(c)
  {
    if v < 26 then ('A' as int + v) as char
    else if v < 52 then ('a' as int + (v - 26)) as char
    else if v < 62 then ('0' as int + (v - 52)) as char
    else if v == 62 then '+'
    else '/'
  }

  /** The 6-bit value of an alphabet character. */
  function ValueOf(c: char): (v: nat)
    requires IsBase64Char(c)
    ensures v < 64 && CharOf(v) == c
  {
    if 'A' <= c <= 'Z' then c as int - 'A' as int
    else if 'a' <= c <= 'z' then c as int - 'a' as int + 26
    else if '0' <= c <= '9' then c as int - '0' as int + 52
    else if c == '+' then 62
    else 63
  }

  lemma ValueOfCharOf(v: nat)
    requires v < 64
    ensures ValueOf(CharOf(v)) == v
  {
  }

  /** Three bytes become four characters (section 4: 24-bit groups, 6 bits per character). */
  function EncodeGroup(b0: byte, b1: byte, b2: byte): string
  {
    [CharOf(b0 / 4), CharOf(b0 % 4 * 16 + b1 / 16), CharOf(b1 % 16 * 4 + b2 / 64), CharOf(b2 % 64)]
  }

  /** The encoding of `b`: full groups, then a final group padded with `=`. */
  function Encode(b: seq<byte>): (s: string)
    ensures |s| == (|b| + 2) / 3 * 4
    ensures forall i :: 0 <= i < |s| ==> IsBase64Char(s[i]) || s[i] == '='
    decreases |b|
  {
    if |b| == 0 then ""
    else if |b| == 1 then [CharOf(b[0] / 4), CharOf(b[0] % 4 * 16), '=', '=']
    else if |b| == 2 then [CharOf(b[0] / 4), CharOf(b[0] % 4 * 16 + b[1] / 16), CharOf(b[1] % 16 * 4), '=']
    else
      assert (|b| + 2) / 3 == (|b[3..]| + 2) / 3 + 1;
      EncodeGroup(b[0], b[1], b[2]) + Encode(b[3..])
  }

  /** Decodes one group of four characters, `=` allowed only as final padding. */
  function DecodeQuad(q: string): (r: Option<seq<byte>>)
    requires |q| == 4
    ensures r.Some? ==> 1 <= |r.value| <= 3
  {
    if !(IsBase64Char(q[0]) && IsBase64Char(q[1])) then None
    else
      var v0, v1 := ValueOf(q[0]), ValueOf(q[1]);
      var x0: byte := v0 * 4 + v1 / 16;
      if q[2] == '=' && q[3] == '=' then Some([x0])
      else if !IsBase64Char(q[2]) then None
      else
        var v2 := ValueOf(q[2]);
        var x1: byte := v1 % 16 * 16 + v2 / 4;
        if q[3] == '=' then Some([x0, x1])
        else if !IsBase64Char(q[3]) then None
        else
          var v3 := ValueOf(q[3]);
          var x2: byte := v2 % 4 * 64 + v3;
          Some([x0, x1, x2])
  }

  /** Strict decoding: a length that is a multiple of four, padding only in the last group. */
  function Decode(s: string): (r: Option<seq<byte>>)
    decreases |s|
  {
    if |s| == 0 then Some([])
    else if |s| < 4 then None
    else if |s| == 4 then DecodeQuad(s)
    else match DecodeQuad(s[..4])
      case None => None
      case Some(g) =>
        if |g| != 3 then None
        else match Decode(s[4..])
          case None => None
          case Some(rest) => Some(g + rest)
  }

  lemma DecodeEncodeGroup(b0: byte, b1: byte, b2: byte)
    ensures DecodeQuad(EncodeGroup(b0, b1, b2)) == Some([b0, b1, b2])
  {
    var v0, v1, v2, v3 := b0 / 4, b0 % 4 * 16 + b1 / 16, b1 % 16 * 4 + b2 / 64, b2 % 64;
    assert v1 / 16 == b0 % 4 && v1 % 16 == b1 / 16;
    assert v2 / 4 == b1 % 16 && v2 % 4 == b2 / 64;
    ValueOfCharOf(v0);
    ValueOfCharOf(v1);
    ValueOfCharOf(v2);
    ValueOfCharOf(v3);
  }

  lemma DecodeEncodeOne(b0: byte)
    ensures Decode(Encode([b0])) == Some([b0])
  {
    var v1 := b0 % 4 * 16;
    assert v1 / 16 == b0 % 4;
    ValueOfCharOf(b0 / 4);
    ValueOfCharOf(v1);
    var q := Encode([b0]);
    assert q == [CharOf(b0 / 4), CharOf(v1), '=', '='];
    assert DecodeQuad(q) == Some([b0]);
  }

  lemma DecodeEncodeTwo(b0: byte, b1: byte)
    ensures Decode(Encode([b0, b1])) == Some([b0, b1])
  {
    var v1, v2 := b0 % 4 * 16 + b1 / 16, b1 % 16 * 4;
    assert v1 / 16 == b0 % 4 && v1 % 16 == b1 / 16;
    assert v2 / 4 == b1 % 16;
    ValueOfCharOf(b0 / 4);
    ValueOfCharOf(v1);
    ValueOfCharOf(v2);
    var q := Encode([b0, b1]);
    assert q == [CharOf(b0 / 4), CharOf(v1), CharOf(v2), '='];
    assert DecodeQuad(q) == Some([b0, b1]);
  }

  /** Decoding an encoding gives back exactly the encoded bytes. */
  lemma {:induction false} DecodeEncode(b: seq<byte>)
    ensures Decode(Encode(b)) == Some(b)
    decreases |b|
  {
    if |b| == 1 {
      DecodeEncodeOne(b[0]);
      assert b == [b[0]];
    } else if |b| == 2 {
      DecodeEncodeTwo(b[0], b[1]);
      assert b == [b[0], b[1]];
    } else if |b| == 3 {
      DecodeEncodeThree(b);
    } else if |b| > 3 {
      DecodeEncode(b[3..]);
      DecodeEncodeStep(b);
    }
  }

  lemma DecodeEncodeThree(b: seq<byte>)
    requires |b| == 3
    ensures Decode(Encode(b)) == Some(b)
  {
    var g := EncodeGroup(b[0], b[1], b[2]);
    DecodeEncodeGroup(b[0], b[1], b[2]);
    EncodeFullGroup(b);
    assert Encode(b[3..]) == "";
    assert g + "" == g;
    assert Encode(b) == g;
    assert Decode(g) == DecodeQuad(g);
    SplitThree(b);
    assert b[3..] == [];
    assert [b[0], b[1], b[2]] + [] == [b[0], b[1], b[2]];
  }

  /** The first three bytes are encoded as one full group. */
  lemma EncodeFullGroup(b: seq<byte>)
    requires |b| >= 3
    ensures Encode(b) == EncodeGroup(b[0], b[1], b[2]) + Encode(b[3..])
  {
  }

  /** One full group in front of a string that round-trips. */
  lemma DecodeEncodeStep(b: seq<byte>)
    requires |b| > 3 && Decode(Encode(b[3..])) == Some(b[3..])
    ensures Decode(Encode(b)) == Some(b)
  {
    var g := EncodeGroup(b[0], b[1], b[2]);
    DecodeEncodeGroup(b[0], b[1], b[2]);
    EncodeFullGroup(b);
    DecodeCons(g, Encode(b[3..]), [b[0], b[1], b[2]], b[3..]);
    SplitThree(b);
  }

  lemma SplitThree<T>(b: seq<T>)
    requires |b| >= 3
    ensures b == [b[0], b[1], b[2]] + b[3..]
  {
  }

  /** Decoding a full group followed by more groups. */
  lemma DecodeCons(g: string, t: string, x: seq<byte>, y: seq<byte>)
    requires |g| == 4 && |t| > 0
    requires DecodeQuad(g) == Some(x) && |x| == 3 && Decode(t) == Some(y)
    ensures Decode(g + t) == Some(x + y)
  {
    var s := g + t;
    assert s[..4] == g;
    assert s[4..] == t;
  }

  /** Distinct byte strings have distinct encodings. */
  lemma EncodeInjective(a: seq<byte>, b: seq<byte>)
    requires Encode(a) == Encode(b)
    ensures a == b
  {
    DecodeEncode(a);
    DecodeEncode(b);
  }
}
