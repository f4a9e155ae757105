/**
 * Standard base64 (RFC 4648, section 4: the alphabet A-Z a-z 0-9 + /, with '=' padding), as
 * `base64.b64encode` produces it and `base64.b64decode` reads it back.
 */
module Base64 {
  import opened Wrappers

  newtype Byte = x: int | 0 <= x < 256

  type Sextet = x: int | 0 <= x < 64

  /** The character standing for the 6-bit value `v`. */
  function Digit(v: Sextet): char
  {
    if v < 26 then ('A' as int + v) as char
    else if v < 52 then ('a' as int + (v - 26)) as char
    else if v < 62 then ('0' as int + (v - 52)) as char
    else if v == 62 then '+'
    else '/'
  }

  /** The 6-bit value a character of the alphabet stands for; `None` off the alphabet. */
  function DigitValue(c: char): Option<Sextet>
  {
    if 'A' <= c <= 'Z' then Some(c as int - 'A' as int)
    else if 'a' <= c <= 'z' then Some(c as int - 'a' as int + 26)
    else if '0' <= c <= '9' then Some(c as int - '0' as int + 52)
    else if c == '+' then Some(62)
    else if c == '/' then Some(63)
    else None
  }

  /** Digit and DigitValue are inverse: the 64 characters stand for 64 distinct values, and
      no other character (the padding '=' among them) stands for any. */
  lemma {:induction false} DigitValueOfDigit(v: Sextet)
    ensures DigitValue(Digit(v)) == Some(v)
    ensures Digit(v) != '='
  {
  }

  lemma {:induction false} DigitOfDigitValue(c: char)
    requires DigitValue(c).Some?
    ensures Digit(DigitValue(c).value) == c
  {
  }

  /** The alphabet and the padding character. */
  predicate IsBase64Char(c: char)
  {
    DigitValue(c).Some? || c == '='
  }

  /** The four 6-bit digits of a group of three bytes. */
  function Sextet0(b0: Byte): Sextet
  {
    b0 as int / 4
  }

  function Sextet1(b0: Byte, b1: Byte): Sextet
  {
    b0 as int % 4 * 16 + b1 as int / 16
  }

  function Sextet2(b1: Byte, b2: Byte): Sextet
  {
    b1 as int % 16 * 4 + b2 as int / 64
  }

  function Sextet3(b2: Byte): Sextet
  {
    b2 as int % 64
  }

  /** `base64.b64encode(b).decode("utf-8")`: each group of three bytes becomes four digits; a
      final group of one or two bytes is padded with '=' to four characters. */
  function Encode(b: seq<Byte>): string
    decreases |b|
  {
    if |b| == 0 then []
    else if |b| == 1 then
      [Digit(Sextet0(b[0])), Digit(Sextet1(b[0], 0)), '=', '=']
    else if |b| == 2 then
      [Digit(Sextet0(b[0])), Digit(Sextet1(b[0], b[1])), Digit(Sextet2(b[1], 0)), '=']
    else GroupDigits(b[0], b[1], b[2]) + Encode(b[3..])
  }

  /** The four digits of three bytes. */
  function GroupDigits(b0: Byte, b1: Byte, b2: Byte): string
  {
    [Digit(Sextet0(b0)), Digit(Sextet1(b0, b1)), Digit(Sextet2(b1, b2)), Digit(Sextet3(b2))]
  }

  const PaddingError := BinasciiError("Incorrect padding")
  const AlphabetError := BinasciiError("Invalid base64-encoded string")

  /** The three bytes of a group of four 6-bit digits. */
  function Octet0(x0: Sextet, x1: Sextet): Byte
  {
    (x0 * 4 + x1 / 16) as Byte
  }

  function Octet1(x1: Sextet, x2: Sextet): Byte
  {
    (x1 % 16 * 16 + x2 / 4) as Byte
  }

  function Octet2(x2: Sextet, x3: Sextet): Byte
  {
    (x2 % 4 * 64 + x3) as Byte
  }

  /** One group of four characters; only the `last` group may end in one or two '='. */
  function DecodeGroup(q: string, last: bool): (r: Result<seq<Byte>, Exception>)
    requires |q| == 4
  {
    var v0, v1, v2, v3 := DigitValue(q[0]), DigitValue(q[1]), DigitValue(q[2]), DigitValue(q[3]);
    if v0.None? || v1.None? then Failure(AlphabetError)
    else if last && q[2] == '=' && q[3] == '=' then Success([Octet0(v0.value, v1.value)])
    else if v2.None? then Failure(AlphabetError)
    else if last && q[3] == '=' then Success([Octet0(v0.value, v1.value), Octet1(v1.value, v2.value)])
    else if v3.None? then Failure(AlphabetError)
    else Success([Octet0(v0.value, v1.value), Octet1(v1.value, v2.value), Octet2(v2.value, v3.value)])
  }

  /** `base64.b64decode(s)` on text made only of the alphabet and '=' padding. */
  function Decode(s: string): Result<seq<Byte>, Exception>
    decreases |s|
  {
    if s == [] then Success([])
    else if |s| < 4 then Failure(PaddingError)
    else Concat(DecodeGroup(s[..4], |s| == 4), Decode(s[4..]))
  }

  /** The bytes of two decoded pieces, or the first piece's error. */
  function Concat(a: Result<seq<Byte>, Exception>, b: Result<seq<Byte>, Exception>): Result<seq<Byte>, Exception>
  {
    var x :- a;
    var y :- b;
    Success(x + y)
  }

  /** The arithmetic behind one group: the 6-bit digits give back the bytes. */
  lemma {:induction false} GroupArithmetic(b0: Byte, b1: Byte, b2: Byte)
    ensures Octet0(Sextet0(b0), Sextet1(b0, b1)) == b0
    ensures Octet1(Sextet1(b0, b1), Sextet2(b1, b2)) == b1
    ensures Octet2(Sextet2(b1, b2), Sextet3(b2)) == b2
  {
    var x0, x1, x2 := b0 as int, b1 as int, b2 as int;
    assert (x0 % 4 * 16 + x1 / 16) / 16 == x0 % 4 && (x0 % 4 * 16 + x1 / 16) % 16 == x1 / 16;
    assert (x1 % 16 * 4 + x2 / 64) / 4 == x1 % 16 && (x1 % 16 * 4 + x2 / 64) % 4 == x2 / 64;
  }

  /** Decoding one group of the encoder's output gives back its bytes. */
  lemma {:induction false} DecodeOneByte(b0: Byte)
    ensures DecodeGroup([Digit(Sextet0(b0)), Digit(Sextet1(b0, 0)), '=', '='], true) == Success([b0])
  {
    var x0, x1 := Sextet0(b0), Sextet1(b0, 0);
    assert Octet0(x0, x1) == b0 by { GroupArithmetic(b0, 0, 0); }
    DigitValueOfDigit(x0);
    DigitValueOfDigit(x1);
    var q := [Digit(x0), Digit(x1), '=', '='];
    assert DigitValue(q[0]) == Some(x0);
    assert DigitValue(q[1]) == Some(x1);
    assert q[2] == '=' && q[3] == '=';
  }

  lemma {:induction false} DecodeTwoBytes(b0: Byte, b1: Byte)
    ensures DecodeGroup([Digit(Sextet0(b0)), Digit(Sextet1(b0, b1)), Digit(Sextet2(b1, 0)), '='], true) == Success([b0, b1])
  {
    var x0, x1, x2 := Sextet0(b0), Sextet1(b0, b1), Sextet2(b1, 0);
    assert Octet0(x0, x1) == b0 && Octet1(x1, x2) == b1 by { GroupArithmetic(b0, b1, 0); }
    DigitValueOfDigit(x0);
    DigitValueOfDigit(x1);
    DigitValueOfDigit(x2);
    var q := [Digit(x0), Digit(x1), Digit(x2), '='];
    assert DigitValue(q[0]) == Some(x0);
    assert DigitValue(q[1]) == Some(x1);
    assert DigitValue(q[2]) == Some(x2) && q[2] != '=';
    assert q[3] == '=';
  }

  lemma {:induction false} DecodeThreeBytes(b0: Byte, b1: Byte, b2: Byte, last: bool)
    ensures DecodeGroup(GroupDigits(b0, b1, b2), last) == Success([b0, b1, b2])
  {
    var x0, x1, x2, x3 := Sextet0(b0), Sextet1(b0, b1), Sextet2(b1, b2), Sextet3(b2);
    assert Octet0(x0, x1) == b0 && Octet1(x1, x2) == b1 && Octet2(x2, x3) == b2 by { GroupArithmetic(b0, b1, b2); }
    DigitValueOfDigit(x0);
    DigitValueOfDigit(x1);
    DigitValueOfDigit(x2);
    DigitValueOfDigit(x3);
    var q := GroupDigits(b0, b1, b2);
    assert DigitValue(q[0]) == Some(x0);
    assert DigitValue(q[1]) == Some(x1);
    assert DigitValue(q[2]) == Some(x2) && q[2] != '=';
    assert DigitValue(q[3]) == Some(x3) && q[3] != '=';
  }

  /** Decoding puts a leading group in front of what the rest decodes to. */
  lemma {:induction false} DecodeCons(g: string, rest: string)
    requires |g| == 4
    ensures Decode(g + rest) == Concat(DecodeGroup(g, rest == []), Decode(rest))
  {
    var s := g + rest;
    assert s[..4] == g;
    assert s[4..] == rest;
  }

  /** A last group alone decodes to its own bytes. */
  lemma {:induction false} DecodeLastGroup(q: string)
    requires |q| == 4
    ensures Decode(q) == Concat(DecodeGroup(q, true), Success([]))
  {
    DecodeCons(q, []);
    assert q + [] == q;
  }

  lemma {:induction false} DecodeEncodeOne(b: seq<Byte>)
    requires |b| == 1
    ensures Decode(Encode(b)) == Success(b)
  {
    var q := [Digit(Sextet0(b[0])), Digit(Sextet1(b[0], 0)), '=', '='];
    assert Encode(b) == q;
    DecodeOneByte(b[0]);
    DecodeLastGroup(q);
    assert [b[0]] + [] == [b[0]] == b;
  }

  lemma {:induction false} DecodeEncodeTwo(b: seq<Byte>)
    requires |b| == 2
    ensures Decode(Encode(b)) == Success(b)
  {
    var q := [Digit(Sextet0(b[0])), Digit(Sextet1(b[0], b[1])), Digit(Sextet2(b[1], 0)), '='];
    assert Encode(b) == q;
    DecodeTwoBytes(b[0], b[1]);
    DecodeLastGroup(q);
    assert [b[0], b[1]] + [] == [b[0], b[1]] == b;
  }

  /** Encoding puts the digits of the first three bytes in front of the rest's encoding. */
  lemma {:induction false} EncodeCons(b: seq<Byte>)
    requires |b| > 2
    ensures Encode(b) == GroupDigits(b[0], b[1], b[2]) + Encode(b[3..])
  {
  }

  /** A decoded group in front of a decoded rest. */
  lemma {:induction false} DecodeAppend(q: string, rest: string, head: seq<Byte>, tail: seq<Byte>)
    requires |q| == 4
    requires DecodeGroup(q, rest == []) == Success(head) && Decode(rest) == Success(tail)
    ensures Decode(q + rest) == Success(head + tail)
  {
    DecodeCons(q, rest);
  }

  lemma {:induction false} DecodeEncodeStep(b: seq<Byte>)
    requires |b| > 2
    requires Decode(Encode(b[3..])) == Success(b[3..])
    ensures Decode(Encode(b)) == Success(b)
  {
    EncodeCons(b);
    DecodeThreeBytes(b[0], b[1], b[2], Encode(b[3..]) == []);
    DecodeAppend(GroupDigits(b[0], b[1], b[2]), Encode(b[3..]), [b[0], b[1], b[2]], b[3..]);
    SplitThree(b);
  }

  lemma {:induction false} SplitThree(b: seq<Byte>)
    requires |b| > 2
    ensures b == [b[0], b[1], b[2]] + b[3..]
  {
  }

  /** Decoding what was encoded gives back the bytes. */
  lemma {:induction false} DecodeEncode(b: seq<Byte>)
    ensures Decode(Encode(b)) == Success(b)
    decreases |b|
  {
    if |b| == 1 {
      DecodeEncodeOne(b);
    } else if |b| == 2 {
      DecodeEncodeTwo(b);
    } else if |b| > 2 {
      DecodeEncode(b[3..]);
      DecodeEncodeStep(b);
    }
  }

  /** Four characters for every three bytes, the last group padded to four. */
  lemma {:induction false} EncodeLength(b: seq<Byte>)
    ensures |Encode(b)| == 4 * ((|b| + 2) / 3)
    decreases |b|
  {
    if |b| > 2 {
      EncodeCons(b);
      EncodeLength(b[3..]);
      var k := |b| - 3;
      assert |Encode(b)| == 4 + 4 * ((k + 2) / 3);
      assert (k + 5) / 3 == (k + 2) / 3 + 1;
    }
  }

  /** The encoding uses only the alphabet and '='. */
  lemma {:induction false} EncodeAlphabet(b: seq<Byte>)
    ensures forall i :: 0 <= i < |Encode(b)| ==> IsBase64Char(Encode(b)[i])
    decreases |b|
  {
    if |b| > 0 {
      DigitValueOfDigit(Sextet0(b[0]));
      DigitValueOfDigit(Sextet1(b[0], if |b| > 1 then b[1] else 0));
      if |b| > 1 {
        DigitValueOfDigit(Sextet2(b[1], if |b| > 2 then b[2] else 0));
      }
      if |b| > 2 {
        DigitValueOfDigit(Sextet3(b[2]));
        EncodeAlphabet(b[3..]);
      }
    }
  }

  /** Decoding succeeds only on whole groups of four, and gives three bytes per group, one or
      two fewer for a padded last group. */
  lemma {:induction false} DecodeLength(s: string)
    requires Decode(s).Success?
    ensures |s| % 4 == 0
    ensures 3 * (|s| / 4) - 2 <= |Decode(s).value| <= 3 * (|s| / 4)
    decreases |s|
  {
    if s != [] {
      var rest := s[4..];
      DecodeLength(rest);
      var g := DecodeGroup(s[..4], |s| == 4);
      assert Decode(s) == Concat(g, Decode(rest));
      assert 1 <= |g.value| <= 3;
      if rest != [] {
        assert |g.value| == 3;
      }
      assert |Decode(s).value| == |g.value| + |Decode(rest).value|;
      assert |s| == |rest| + 4;
      assert |s| % 4 == |rest| % 4 && |s| / 4 == |rest| / 4 + 1;
    }
  }
}
