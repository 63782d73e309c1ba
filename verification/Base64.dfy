/**
 The standard base64 alphabet with canonical padding (section 4 of RFC 4648),
 decoded strictly: padding is required and unused trailing bits must be zero.
 */
module Base64 {
  import opened Wrappers

  type Byte = b: int | 0 <= b < 256

  function Digit(v: nat): (c: char)
    requires v < 64
  {
    if v < 26 then ('A' as int + v) as char
    else if v < 52 then ('a' as int + v - 26) as char
    else if v < 62 then ('0' as int + v - 52) as char
    else if v == 62 then '+' else '/'
  }

  function DigitValue(c: char): (r: Option<nat>)
    ensures r.Some? ==> r.value < 64 && Digit(r.value) == c
  {
    if 'A' <= c <= 'Z' then Some(c as int - 'A' as int)
    else if 'a' <= c <= 'z' then Some(c as int - 'a' as int + 26)
    else if '0' <= c <= '9' then Some(c as int - '0' as int + 52)
    else if c == '+' then Some(62)
    else if c == '/' then Some(63)
    else None
  }

  function Encode(b: seq<Byte>): string {
    if b == [] then ""
    else if |b| == 1 then
      [Digit(b[0] / 4), Digit(b[0] % 4 * 16), '=', '=']
    else if |b| == 2 then
      [Digit(b[0] / 4), Digit(b[0] % 4 * 16 + b[1] / 16), Digit(b[1] % 16 * 4), '=']
    else
      [Digit(b[0] / 4), Digit(b[0] % 4 * 16 + b[1] / 16), Digit(b[1] % 16 * 4 + b[2] / 64), Digit(b[2] % 64)]
      + Encode(b[3..])
  }

  /** The bytes of the last group, whose padding tells how many there are. */
  function DecodeLast(s: string): Option<seq<Byte>>
    requires |s| == 4
  {
    var w, x, y, z := DigitValue(s[0]), DigitValue(s[1]), DigitValue(s[2]), DigitValue(s[3]);
    if w.None? || x.None? then None
    else if s[2] == '=' && s[3] == '=' then
      if x.value % 16 == 0 then Some([w.value * 4 + x.value / 16]) else None
    else if y.None? then None
    else if s[3] == '=' then
      if y.value % 4 == 0 then Some([w.value * 4 + x.value / 16, x.value % 16 * 16 + y.value / 4]) else None
    else if z.None? then None
    else Some(Triple(w.value, x.value, y.value, z.value))
  }

  function Triple(w: nat, x: nat, y: nat, z: nat): seq<Byte>
    requires w < 64 && x < 64 && y < 64 && z < 64
  {
    [w * 4 + x / 16, x % 16 * 16 + y / 4, y % 4 * 64 + z]
  }

  function Decode(s: string): Option<seq<Byte>> {
    if s == "" then Some([])
    else if |s| < 4 then None
    else if |s| == 4 then DecodeLast(s)
    else
      var w, x, y, z := DigitValue(s[0]), DigitValue(s[1]), DigitValue(s[2]), DigitValue(s[3]);
      if w.None? || x.None? || y.None? || z.None? then None
      else
        match Decode(s[4..])
        case None => None
        case Some(rest) => Some(Triple(w.value, x.value, y.value, z.value) + rest)
  }

  lemma BytesRegroup(a: Byte, b: Byte, c: Byte)
    ensures Triple(a / 4, a % 4 * 16 + b / 16, b % 16 * 4 + c / 64, c % 64) == [a, b, c]
  {
  }

  lemma DigitsRegroup(w: nat, x: nat, y: nat, z: nat)
    requires w < 64 && x < 64 && y < 64 && z < 64
    ensures var t := Triple(w, x, y, z);
      t[0] / 4 == w && t[0] % 4 * 16 + t[1] / 16 == x && t[1] % 16 * 4 + t[2] / 64 == y && t[2] % 64 == z
  {
  }

  lemma DigitRead(v: nat)
    requires v < 64
    ensures Digit(v) != '=' && DigitValue(Digit(v)) == Some(v)
  {
  }

  lemma DecodeOne(w: nat, x: nat)
    requires w < 64 && x < 64 && x % 16 == 0
    ensures DecodeLast([Digit(w), Digit(x), '=', '=']) == Some([w * 4 + x / 16])
  {
    DigitRead(w);
    DigitRead(x);
  }

  lemma DecodeTwo(w: nat, x: nat, y: nat)
    requires w < 64 && x < 64 && y < 64 && y % 4 == 0
    ensures DecodeLast([Digit(w), Digit(x), Digit(y), '=']) == Some([w * 4 + x / 16, x % 16 * 16 + y / 4])
  {
    DigitRead(w);
    DigitRead(x);
    DigitRead(y);
  }

  lemma DecodeThree(w: nat, x: nat, y: nat, z: nat)
    requires w < 64 && x < 64 && y < 64 && z < 64
    ensures DecodeLast([Digit(w), Digit(x), Digit(y), Digit(z)]) == Some(Triple(w, x, y, z))
  {
    DigitRead(w);
    DigitRead(x);
    DigitRead(y);
    DigitRead(z);
  }

  lemma PairRegroup(a: Byte, b: Byte)
    ensures var w, x, y := a / 4, a % 4 * 16 + b / 16, b % 16 * 4;
      x < 64 && y < 64 && y % 4 == 0 && w * 4 + x / 16 == a && x % 16 * 16 + y / 4 == b
  {
  }

  lemma EncodedOne(a: Byte)
    ensures Encode([a]) == [Digit(a / 4), Digit(a % 4 * 16), '=', '=']
  {
    hide Digit;
  }

  lemma EncodedTwo(a: Byte, b: Byte)
    ensures a % 4 * 16 + b / 16 < 64
    ensures Encode([a, b]) == [Digit(a / 4), Digit(a % 4 * 16 + b / 16), Digit(b % 16 * 4), '=']
  {
    hide Digit;
  }

  lemma EncodedThree(a: Byte, b: Byte, c: Byte)
    ensures a % 4 * 16 + b / 16 < 64 && b % 16 * 4 + c / 64 < 64
    ensures Encode([a, b, c]) == [Digit(a / 4), Digit(a % 4 * 16 + b / 16), Digit(b % 16 * 4 + c / 64), Digit(c % 64)]
  {
    hide Digit;
    assert [a, b, c][3..] == [];
    assert Encode([]) == "";
  }

  lemma BackOne(a: Byte)
    ensures var s := Encode([a]); |s| == 4 && DecodeLast(s) == Some([a])
  {
    hide Encode, DecodeLast, Digit;
    PairRegroup(a, 0);
    EncodedOne(a);
    DecodeOne(a / 4, a % 4 * 16);
  }

  lemma BackTwo(a: Byte, b: Byte)
    ensures var s := Encode([a, b]); |s| == 4 && DecodeLast(s) == Some([a, b])
  {
    hide Encode, DecodeLast, Digit;
    PairRegroup(a, b);
    EncodedTwo(a, b);
    DecodeTwo(a / 4, a % 4 * 16 + b / 16, b % 16 * 4);
  }

  lemma BackThree(a: Byte, b: Byte, c: Byte)
    ensures var s := Encode([a, b, c]); |s| == 4 && DecodeLast(s) == Some([a, b, c])
  {
    hide Encode, DecodeLast, Digit;
    BytesRegroup(a, b, c);
    EncodedThree(a, b, c);
    DecodeThree(a / 4, a % 4 * 16 + b / 16, b % 16 * 4 + c / 64, c % 64);
  }

  /** Every byte string is recovered from its encoding. */
  lemma {:induction false} DecodeEncode(b: seq<Byte>)
    ensures Decode(Encode(b)) == Some(b)
    decreases |b|
  {
    hide Digit, DigitValue;
    if |b| > 3 {
      BytesRegroup(b[0], b[1], b[2]);
      DigitRead(b[0] / 4);
      DigitRead(b[0] % 4 * 16 + b[1] / 16);
      DigitRead(b[1] % 16 * 4 + b[2] / 64);
      DigitRead(b[2] % 64);
      DecodeEncode(b[3..]);
      assert |Encode(b[3..])| >= 4;
      assert Encode(b)[4..] == Encode(b[3..]);
      assert b == [b[0], b[1], b[2]] + b[3..];
    } else if |b| == 3 {
      assert b == [b[0], b[1], b[2]];
      BackThree(b[0], b[1], b[2]);
    } else if |b| == 2 {
      assert b == [b[0], b[1]];
      BackTwo(b[0], b[1]);
    } else if |b| == 1 {
      assert b == [b[0]];
      BackOne(b[0]);
    }
  }

  lemma EncodeNothing()
    ensures Encode([]) == ""
  {
  }

  lemma EncodeOne(w: nat, x: nat)
    requires w < 64 && x < 64 && x % 16 == 0
    ensures Encode([w * 4 + x / 16]) == [Digit(w), Digit(x), '=', '=']
  {
    DigitsRegroup(w, x, 0, 0);
  }

  lemma EncodeTwo(w: nat, x: nat, y: nat)
    requires w < 64 && x < 64 && y < 64 && y % 4 == 0
    ensures Encode([w * 4 + x / 16, x % 16 * 16 + y / 4]) == [Digit(w), Digit(x), Digit(y), '=']
  {
    DigitsRegroup(w, x, y, 0);
  }

  lemma EncodeMore(w: nat, x: nat, y: nat, z: nat, rest: seq<Byte>)
    requires w < 64 && x < 64 && y < 64 && z < 64
    ensures Encode(Triple(w, x, y, z) + rest) == [Digit(w), Digit(x), Digit(y), Digit(z)] + Encode(rest)
  {
    DigitsRegroup(w, x, y, z);
    var b := Triple(w, x, y, z) + rest;
    assert b[0] == Triple(w, x, y, z)[0] && b[1] == Triple(w, x, y, z)[1] && b[2] == Triple(w, x, y, z)[2];
    assert b[3..] == rest;
  }

  lemma EncodeDecodeLast(s: string)
    requires |s| == 4 && DecodeLast(s).Some?
    ensures Encode(DecodeLast(s).value) == s
  {
    hide Encode, Triple;
    var w, x, y, z := DigitValue(s[0]), DigitValue(s[1]), DigitValue(s[2]), DigitValue(s[3]);
    if s[2] == '=' && s[3] == '=' {
      EncodeOne(w.value, x.value);
    } else if s[3] == '=' {
      EncodeTwo(w.value, x.value, y.value);
    } else {
      EncodeMore(w.value, x.value, y.value, z.value, []);
      EncodeNothing();
      assert Triple(w.value, x.value, y.value, z.value) + [] == Triple(w.value, x.value, y.value, z.value);
    }
  }

  /** Only the encoding of some bytes decodes, and it decodes to them. */
  lemma {:induction false} EncodeDecode(s: string)
    requires Decode(s).Some?
    ensures Encode(Decode(s).value) == s
    decreases |s|
  {
    if |s| > 4 {
      EncodeDecode(s[4..]);
      EncodeMore(DigitValue(s[0]).value, DigitValue(s[1]).value, DigitValue(s[2]).value, DigitValue(s[3]).value,
        Decode(s[4..]).value);
      assert s == [s[0], s[1], s[2], s[3]] + s[4..];
    } else if |s| == 4 {
      EncodeDecodeLast(s);
    }
  }

  /** Decoding is exactly the inverse of encoding. */
  lemma DecodesIffEncodes(s: string, b: seq<Byte>)
    ensures Decode(s) == Some(b) <==> s == Encode(b)
  {
    DecodeEncode(b);
    if Decode(s) == Some(b) {
      EncodeDecode(s);
    }
  }

  /** An encoding uses only the alphabet and the padding character. */
  lemma {:induction false} EncodeAlphabet(b: seq<Byte>)
    ensures forall c :: c in Encode(b) ==> c == '=' || DigitValue(c).Some?
    decreases |b|
  {
    if |b| >= 3 {
      EncodeAlphabet(b[3..]);
    }
  }
}
