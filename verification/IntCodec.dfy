/**
 Network byte order (most significant byte first) for the signed integers of 8, 16, 32
 and 64 bits that Buffer appends, prepends, peeks and reads.
 */
module IntCodec {
  import opened Arithmetic
  import opened Bytes

  datatype Width = W8 | W16 | W32 | W64

  function Size(w: Width): nat
  {
    match w
    case W8 => 1
    case W16 => 2
    case W32 => 4
    case W64 => 8
  }

  function Pow256(k: nat): nat
  {
    if k == 0 then 1 else 256 * Pow256(k - 1)
  }

  /** 2 to the number of bits of the width. */
  function Modulus(w: Width): nat
  {
    match w
    case W8 => 0x100
    case W16 => 0x1_0000
    case W32 => 0x1_0000_0000
    case W64 => 0x1_0000_0000_0000_0000
  }

  lemma ModulusIsPower(w: Width)
    ensures Modulus(w) == Pow256(Size(w))
  {
    assert Pow256(2) == 0x1_0000;
    assert Pow256(4) == 256 * (256 * Pow256(2));
    assert Pow256(8) == 256 * (256 * (256 * (256 * Pow256(4))));
  }

  predicate Fits(x: int, w: Width)
  {
    -(Modulus(w) / 2) <= x < Modulus(w) / 2
  }

  /** The value's bit pattern read as an unsigned integer. */
  function Pattern(x: int, w: Width): (u: nat)
    requires Fits(x, w)
  {
    if x < 0 then x + Modulus(w) else x
  }

  function FromPattern(u: nat, w: Width): (x: int)
    requires u < Modulus(w)
  {
    if u < Modulus(w) / 2 then u else u - Modulus(w)
  }

  function BigEndian(u: nat, k: nat): (s: seq<byte>)
    ensures |s| == k
  {
    if k == 0 then [] else BigEndian(u / 256, k - 1) + [u % 256]
  }

  function BigEndianValue(s: seq<byte>): nat
  {
    if s == [] then 0 else BigEndianValue(s[..|s| - 1]) * 256 + s[|s| - 1]
  }

  function Encode(x: int, w: Width): (s: seq<byte>)
    requires Fits(x, w)
    ensures |s| == Size(w)
  {
    BigEndian(Pattern(x, w), Size(w))
  }

  lemma {:induction false} ValueBound(s: seq<byte>)
    ensures BigEndianValue(s) < Pow256(|s|)
  {
    if s == [] {
    } else {
      ValueBound(s[..|s| - 1]);
    }
  }

  function Decode(s: seq<byte>, w: Width): int
    requires |s| == Size(w)
  {
    ValueBound(s);
    ModulusIsPower(w);
    FromPattern(BigEndianValue(s), w)
  }

  lemma {:induction false} ValueOfBigEndian(u: nat, k: nat)
    requires u < Pow256(k)
    ensures BigEndianValue(BigEndian(u, k)) == u
  {
    if k == 0 {
    } else {
      ValueOfBigEndian(u / 256, k - 1);
      var s := BigEndian(u, k);
      assert s[..|s| - 1] == BigEndian(u / 256, k - 1);
    }
  }

  lemma {:induction false} BigEndianOfValue(s: seq<byte>)
    ensures BigEndian(BigEndianValue(s), |s|) == s
  {
    if s == [] {
    } else {
      var front := s[..|s| - 1];
      BigEndianOfValue(front);
      assert BigEndianValue(s) / 256 == BigEndianValue(front);
      assert s == front + [s[|s| - 1]];
    }
  }

  /** The byte at position i carries the digit of weight 256^(k-1-i): most significant first. */
  lemma {:induction false} MostSignificantFirst(u: nat, k: nat, i: nat)
    requires i < k
    ensures Pow256(k - 1 - i) > 0
    ensures BigEndian(u, k)[i] == (u / Pow256(k - 1 - i)) % 256
  {
    PowPositive(k - 1 - i);
    if i == k - 1 {
      assert Pow256(0) == 1;
    } else {
      MostSignificantFirst(u / 256, k - 1, i);
      PowPositive(k - 2 - i);
      DivDiv256(u, Pow256(k - 2 - i));
    }
  }

  lemma {:induction false} PowPositive(k: nat)
    ensures Pow256(k) > 0
  {
    if k == 0 {
    } else {
      PowPositive(k - 1);
    }
  }

  /** What is encoded is what is decoded, for every width and every value that fits it. */
  lemma DecodeEncode(x: int, w: Width)
    requires Fits(x, w)
    ensures Decode(Encode(x, w), w) == x
  {
    ModulusIsPower(w);
    ValueOfBigEndian(Pattern(x, w), Size(w));
  }

  /** Every byte string of the right size is the encoding of exactly the value it decodes to. */
  lemma EncodeDecode(s: seq<byte>, w: Width)
    requires |s| == Size(w)
    ensures Fits(Decode(s, w), w)
    ensures Encode(Decode(s, w), w) == s
  {
    ValueBound(s);
    ModulusIsPower(w);
    BigEndianOfValue(s);
  }

  /** The four widths and the values they hold. */
  lemma WidthsExact(x: int)
    ensures Size(W8) == 1 && Size(W16) == 2 && Size(W32) == 4 && Size(W64) == 8
    ensures Fits(x, W8) <==> -128 <= x <= 127
    ensures Fits(x, W16) <==> -32768 <= x <= 32767
    ensures Fits(x, W32) <==> -2147483648 <= x <= 2147483647
    ensures Fits(x, W64) <==> -9223372036854775808 <= x <= 9223372036854775807
  {
  }

  lemma {:induction false} PowAdd(a: nat, b: nat)
    ensures Pow256(a + b) == Pow256(a) * Pow256(b)
  {
    if a == 0 {
    } else {
      PowAdd(a - 1, b);
      MulAssoc(256, Pow256(a - 1), Pow256(b));
    }
  }

  /** The bit pattern is the value itself, or for a negative one the value plus 256 to the width. */
  lemma EncodedValue(x: int, w: Width)
    requires Fits(x, w)
    ensures BigEndianValue(Encode(x, w)) == if x >= 0 then x else x + Pow256(Size(w))
  {
    ModulusIsPower(w);
    ValueOfBigEndian(Pattern(x, w), Size(w));
  }

  /** Adding 256 to the width changes no digit below it. */
  lemma DigitOfNegative(x: int, k: nat, i: nat)
    requires i < k
    ensures Pow256(k - 1 - i) > 0
    ensures ((x + Pow256(k)) / Pow256(k - 1 - i)) % 256 == (x / Pow256(k - 1 - i)) % 256
  {
    var d := Pow256(k - 1 - i);
    PowPositive(k - 1 - i);
    PowAdd(k - 1 - i, i + 1);
    DivAddMultiple(x, d, Pow256(i + 1));
    ModAddMultiple(x / d, Pow256(i));
  }

  /**
   Network byte order of the signed value itself: byte i is the digit of weight 256^(size-1-i), the
   division rounding down, which is two's complement for a negative value.
   */
  lemma EncodedBytes(x: int, w: Width, i: nat)
    requires Fits(x, w) && i < Size(w)
    ensures Pow256(Size(w) - 1 - i) > 0
    ensures Encode(x, w)[i] == (x / Pow256(Size(w) - 1 - i)) % 256
  {
    ModulusIsPower(w);
    MostSignificantFirst(Pattern(x, w), Size(w), i);
    if x < 0 {
      DigitOfNegative(x, Size(w), i);
    }
  }

  datatype Field = Field(width: Width, value: int)

  predicate AllFit(fields: seq<Field>)
  {
    forall i :: 0 <= i < |fields| ==> Fits(fields[i].value, fields[i].width)
  }

  /** The bytes that appending every field in turn adds to a buffer. */
  function EncodeAll(fields: seq<Field>): seq<byte>
    requires AllFit(fields)
  {
    if fields == [] then [] else Encode(fields[0].value, fields[0].width) + EncodeAll(fields[1..])
  }

  /** The widths a reader uses to take a record apart. */
  function Widths(fields: seq<Field>): (ws: seq<Width>)
    ensures |ws| == |fields|
  {
    if fields == [] then [] else [fields[0].width] + Widths(fields[1..])
  }

  /** Reading with the given widths: the fields read and what is left, or None when bytes run out. */
  function DecodeAll(widths: seq<Width>, s: seq<byte>): Option<(seq<Field>, seq<byte>)>
  {
    if widths == [] then Some(([], s))
    else if |s| < Size(widths[0]) then None
    else
      var first := Field(widths[0], Decode(s[..Size(widths[0])], widths[0]));
      match DecodeAll(widths[1..], s[Size(widths[0])..])
      case None => None
      case Some((rest, left)) => Some(([first] + rest, left))
  }

  /** A record written field by field is read back unchanged and nothing after it is touched. */
  lemma {:induction false} DecodeEncodeAll(fields: seq<Field>, rest: seq<byte>)
    requires AllFit(fields)
    ensures DecodeAll(Widths(fields), EncodeAll(fields) + rest) == Some((fields, rest))
  {
    if fields == [] {
      assert EncodeAll(fields) + rest == rest;
    } else {
      var f := fields[0];
      var code := Encode(f.value, f.width);
      var s := EncodeAll(fields) + rest;
      assert s[..|code|] == code;
      assert s[|code|..] == EncodeAll(fields[1..]) + rest;
      DecodeEncode(f.value, f.width);
      DecodeEncodeAll(fields[1..], rest);
      assert Widths(fields)[1..] == Widths(fields[1..]);
      assert fields == [f] + fields[1..];
    }
  }
}
