/** The unpadded base64url encoding of section 5 of RFC 4648, decoded strictly. */
module Base64Url {
  import opened Prelude

  type Byte = x: int | 0 <= x < 256

  type Sextet = x: int | 0 <= x < 64

  function Digit(v: Sextet): char {
    if v < 26 then ('A' as int + v) as char
    else if v < 52 then ('a' as int + (v - 26)) as char
    else if v < 62 then ('0' as int + (v - 52)) as char
    else if v == 62 then '-'
    else '_'
  }

  predicate InAlphabet(c: char) {
    'A' <= c <= 'Z' || 'a' <= c <= 'z' || '0' <= c <= '9' || c == '-' || c == '_'
  }

  function Value(c: char): (r: Option<Sextet>)
    ensures r.Some? <==> InAlphabet(c)
    ensures r.Some? ==> Digit(r.value) == c
    ensures forall v: Sextet :: c == Digit(v) ==> r == Some(v)
  {
    if 'A' <= c <= 'Z' then Some(c as int - 'A' as int)
    else if 'a' <= c <= 'z' then Some(c as int - 'a' as int + 26)
    else if '0' <= c <= '9' then Some(c as int - '0' as int + 52)
    else if c == '-' then Some(62)
    else if c == '_' then Some(63)
    else None
  }

  /** Regroup whole bytes into six-bit digits, zero-filling the last one. */
  function ToSextets(b: seq<Byte>): seq<Sextet> {
    if |b| == 0 then []
    else if |b| == 1 then [b[0] / 4, b[0] % 4 * 16]
    else if |b| == 2 then [b[0] / 4, b[0] % 4 * 16 + b[1] / 16, b[1] % 16 * 4]
    else
      [b[0] / 4, b[0] % 4 * 16 + b[1] / 16, b[1] % 16 * 4 + b[2] / 64, b[2] % 64]
      + ToSextets(b[3..])
  }

  function FirstByte(v0: Sextet, v1: Sextet): Byte { v0 * 4 + v1 / 16 }

  function SecondByte(v1: Sextet, v2: Sextet): Byte { v1 % 16 * 16 + v2 / 4 }

  function ThirdByte(v2: Sextet, v3: Sextet): Byte { v2 % 4 * 64 + v3 }

  /** Regroup digits into bytes, refusing a lone digit and non-zero fill bits. */
  function FromSextets(v: seq<Sextet>): Option<seq<Byte>> {
    if |v| == 0 then Some([])
    else if |v| == 1 then None
    else if |v| == 2 then
      if v[1] % 16 == 0 then Some([FirstByte(v[0], v[1])]) else None
    else if |v| == 3 then
      if v[2] % 4 == 0 then Some([FirstByte(v[0], v[1]), SecondByte(v[1], v[2])]) else None
    else
      match FromSextets(v[4..])
      case None => None
      case Some(rest) =>
        Some([FirstByte(v[0], v[1]), SecondByte(v[1], v[2]), ThirdByte(v[2], v[3])] + rest)
  }

  function Spell(v: seq<Sextet>): (s: string)
    ensures |s| == |v|
    ensures forall i :: 0 <= i < |s| ==> s[i] == Digit(v[i])
  {
    seq(|v|, i requires 0 <= i < |v| => Digit(v[i]))
  }

  /** Every character must be in the alphabet; in particular no padding. */
  function Read(s: string): (r: Option<seq<Sextet>>)
    ensures r.Some? <==> forall i :: 0 <= i < |s| ==> InAlphabet(s[i])
    ensures r.Some? ==> |r.value| == |s| && forall i :: 0 <= i < |s| ==> Value(s[i]) == Some(r.value[i])
  {
    if s == "" then Some([])
    else
      match (Value(s[0]), Read(s[1..]))
      case (Some(v), Some(rest)) => Some([v] + rest)
      case _ => None
  }

  function Encode(b: seq<Byte>): string {
    Spell(ToSextets(b))
  }

  function Decode(s: string): Option<seq<Byte>> {
    match Read(s)
    case None => None
    case Some(v) => FromSextets(v)
  }

  /** Three bytes are recovered from their four digits. */
  lemma ThreeBytes(b0: Byte, b1: Byte, b2: Byte)
    ensures FirstByte(b0 / 4, b0 % 4 * 16 + b1 / 16) == b0
    ensures SecondByte(b0 % 4 * 16 + b1 / 16, b1 % 16 * 4 + b2 / 64) == b1
    ensures ThirdByte(b1 % 16 * 4 + b2 / 64, b2 % 64) == b2
  {
  }

  /** Four digits write the same number to base 64 that three bytes write to base 256. */
  lemma DigitsAreANumber(b0: Byte, b1: Byte, b2: Byte)
    ensures var v := ToSextets([b0, b1, b2]);
            && |v| == 4
            && (v[0] as int) * 262_144 + (v[1] as int) * 4_096 + (v[2] as int) * 64 + (v[3] as int)
               == (b0 as int) * 65_536 + (b1 as int) * 256 + (b2 as int)
  {
    assert [b0, b1, b2][3..] == [];
  }

  /** The alphabet in order, by character code: A to Z, a to z, 0 to 9, hyphen, underscore. */
  lemma AlphabetInOrder(v: Sextet)
    ensures Digit(v) as int == if v <= 25 then 65 + v
                               else if v <= 51 then 71 + v
                               else if v <= 61 then v - 4
                               else if v == 62 then 45
                               else 95
  {
  }

  lemma {:induction false} FromInvertsTo(b: seq<Byte>)
    ensures FromSextets(ToSextets(b)) == Some(b)
    decreases |b|
  {
    hide FirstByte, SecondByte, ThirdByte;
    if |b| >= 3 {
      var rest := b[3..];
      FromInvertsTo(rest);
      ThreeBytes(b[0], b[1], b[2]);
      assert ToSextets(b)[4..] == ToSextets(rest);
      assert b == [b[0], b[1], b[2]] + rest;
    } else if |b| == 2 {
      ThreeBytes(b[0], b[1], 0);
      assert b == [b[0], b[1]];
    } else if |b| == 1 {
      ThreeBytes(b[0], 0, 0);
      assert b == [b[0]];
    }
  }

  lemma {:induction false} SextetCount(b: seq<Byte>)
    ensures 4 * |b| <= 3 * |ToSextets(b)| <= 4 * |b| + 2
  {
    if |b| >= 3 { SextetCount(b[3..]); }
  }

  lemma EncodedText(b: seq<Byte>)
    ensures forall i :: 0 <= i < |Encode(b)| ==> InAlphabet(Encode(b)[i])
    ensures 4 * |b| <= 3 * |Encode(b)| <= 4 * |b| + 2
  {
    SextetCount(b);
    var v := ToSextets(b);
    forall i | 0 <= i < |v| ensures InAlphabet(Digit(v[i])) {
      assert Value(Digit(v[i])) == Some(v[i]);
    }
  }

  /** The length of the text that encodes `n` bytes. */
  function EncodedLength(n: nat): nat {
    (4 * n + 2) / 3
  }

  lemma EncodedTextLength(b: seq<Byte>)
    ensures |Encode(b)| == EncodedLength(|b|)
  {
    EncodedText(b);
    hide Encode;
  }

  lemma DecodeInvertsEncode(b: seq<Byte>)
    ensures Decode(Encode(b)) == Some(b)
  {
    EncodedText(b);
    assert Read(Encode(b)).value == ToSextets(b);
    FromInvertsTo(b);
  }
}
