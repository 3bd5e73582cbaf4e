/** Byte strings: lexicographic order, big-endian numbers, decimal digits and hexadecimal text. */
module Bytes {
  import opened Outcomes

  type Byte = b: nat | b < 256

  type ByteString = seq<Byte>

  /** The order of storage keys: the first difference decides, and a proper prefix comes first. */
  predicate LexLess(a: ByteString, b: ByteString) {
    if b == [] then false
    else if a == [] then true
    else if a[0] != b[0] then a[0] < b[0]
    else LexLess(a[1..], b[1..])
  }

  lemma {:induction false} LexTotal(a: ByteString, b: ByteString)
    ensures !(LexLess(a, b) && LexLess(b, a))
    ensures LexLess(a, b) || LexLess(b, a) || a == b
    ensures !LexLess(a, a)
  {
    if a != [] {
      LexTotal(a[1..], if b == [] then [] else b[1..]);
      if b != [] {
        assert a == [a[0]] + a[1..] && b == [b[0]] + b[1..];
      }
    }
  }

  lemma {:induction false} LexTransitive(a: ByteString, b: ByteString, c: ByteString)
    requires LexLess(a, b) && LexLess(b, c)
    ensures LexLess(a, c)
  {
    if a != [] && a[0] == b[0] == c[0] {
      LexTransitive(a[1..], b[1..], c[1..]);
    }
  }

  /** Comparison skips a common prefix. */
  lemma {:induction false} LexSkips(a: ByteString, b: ByteString, n: nat)
    requires n <= |a| && n <= |b| && a[..n] == b[..n]
    ensures LexLess(a, b) == LexLess(a[n..], b[n..])
  {
    if n > 0 {
      assert a[0] == a[..n][0] == b[..n][0] == b[0];
      assert a[1..][..n - 1] == a[..n][1..] == b[..n][1..] == b[1..][..n - 1];
      LexSkips(a[1..], b[1..], n - 1);
      assert a[1..][n - 1..] == a[n..] && b[1..][n - 1..] == b[n..];
    }
  }

  function Pow256(n: nat): (p: nat)
    ensures p > 0
  {
    if n == 0 then 1 else 256 * Pow256(n - 1)
  }

  /** The big-endian bytes of a number below 256^width. */
  function BigEndian(n: nat, width: nat): (b: ByteString)
    requires n < Pow256(width)
    ensures |b| == width
  {
    if width == 0 then [] else BigEndian(n / 256, width - 1) + [n % 256]
  }

  /** Big-endian keys of one width order like the numbers they encode. */
  lemma {:induction false} BigEndianOrders(a: nat, b: nat, width: nat)
    requires a < Pow256(width) && b < Pow256(width)
    ensures LexLess(BigEndian(a, width), BigEndian(b, width)) <==> a < b
    decreases width
  {
    if width > 0 {
      var x, y := BigEndian(a / 256, width - 1), BigEndian(b / 256, width - 1);
      BigEndianOrders(a / 256, b / 256, width - 1);
      BigEndianOrders(b / 256, a / 256, width - 1);
      LexTotal(x, y);
      if a / 256 == b / 256 {
        LexSkips(x + [a % 256], y + [b % 256], width - 1);
      } else {
        if a / 256 < b / 256 {
          LexExtends(x, y, [a % 256], [b % 256]);
        } else {
          LexExtends(y, x, [b % 256], [a % 256]);
        }
        LexTotal(x + [a % 256], y + [b % 256]);
      }
    }
  }

  /** Among strings of one length, a difference is not changed by what follows. */
  lemma {:induction false} LexExtends(a: ByteString, b: ByteString, x: ByteString, y: ByteString)
    requires |a| == |b| && LexLess(a, b)
    ensures LexLess(a + x, b + y)
  {
    if a[0] == b[0] {
      assert (a + x)[1..] == a[1..] + x && (b + y)[1..] == b[1..] + y;
      LexExtends(a[1..], b[1..], x, y);
    }
  }

  /** The decimal text of a number. */
  function Digits(n: nat): (d: ByteString)
    ensures d != []
  {
    if n < 10 then [48 + n] else Digits(n / 10) + [48 + n % 10]
  }

  lemma {:induction false} DigitsInjective(a: nat, b: nat)
    requires Digits(a) == Digits(b)
    ensures a == b
  {
    var x, y := Digits(a), Digits(b);
    assert x[|x| - 1] == 48 + a % 10 && y[|y| - 1] == 48 + b % 10;
    if a >= 10 && b >= 10 {
      assert Digits(a / 10) == x[..|x| - 1] && Digits(b / 10) == y[..|y| - 1];
      DigitsInjective(a / 10, b / 10);
    }
  }

  /** The number that a text of decimal digits denotes. */
  function NumberOf(text: ByteString): int {
    if text == [] then 0 else 10 * NumberOf(text[..|text| - 1]) + (text[|text| - 1] as int - 48)
  }

  /** The decimal text consists of digits, without a leading zero, and denotes the number. */
  lemma {:induction false} DigitsDenote(n: nat)
    ensures NumberOf(Digits(n)) == n
    ensures forall d | d in Digits(n) :: 48 <= d <= 57
    ensures n > 0 ==> Digits(n)[0] != 48
    ensures n == 0 ==> Digits(n) == [48]
  {
    if n >= 10 {
      DigitsDenote(n / 10);
      assert Digits(n)[..|Digits(n)| - 1] == Digits(n / 10);
    } else {
      assert Digits(n)[..0] == [];
    }
  }

  // ----- hexadecimal -----

  function HexValue(c: char): Option<nat> {
    if '0' <= c <= '9' then Some((c - '0') as nat)
    else if 'a' <= c <= 'f' then Some((c - 'a') as nat + 10)
    else if 'A' <= c <= 'F' then Some((c - 'A') as nat + 10)
    else None
  }

  lemma HexValueSmall(c: char)
    ensures HexValue(c).Some? ==> HexValue(c).value < 16
  {}

  /** hex::decode_to_slice into a buffer of `size` bytes: any other length or digit is an error. */
  function HexDecode(text: string, size: nat): (r: Option<ByteString>)
    ensures r.Some? ==> |r.value| == size
  {
    if |text| != 2 * size then None
    else if size == 0 then Some([])
    else
      var byte, rest := HexByte(text[0], text[1]), HexDecode(text[2..], size - 1);
      if byte.Some? && rest.Some? then Some([byte.value] + rest.value) else None
  }

  function HexByte(hi: char, lo: char): Option<Byte> {
    HexValueSmall(hi);
    HexValueSmall(lo);
    if HexValue(hi).Some? && HexValue(lo).Some? then Some(16 * HexValue(hi).value + HexValue(lo).value) else None
  }

  function HexDigit(n: nat): char
    requires n < 16
  {
    "0123456789abcdef"[n]
  }

  function HexEncode(b: ByteString): string {
    if b == [] then "" else [HexDigit(b[0] / 16), HexDigit(b[0] % 16)] + HexEncode(b[1..])
  }

  lemma HexDigitRoundTrip(n: nat)
    requires n < 16
    ensures HexValue(HexDigit(n)) == Some(n)
  {}

  lemma HexByteRoundTrip(b: Byte)
    ensures HexByte(HexDigit(b / 16), HexDigit(b % 16)) == Some(b)
  {
    HexDigitRoundTrip(b / 16);
    HexDigitRoundTrip(b % 16);
  }

  lemma HexDecodeNext(hi: char, lo: char, rest: string, size: nat)
    requires HexByte(hi, lo).Some? && HexDecode(rest, size).Some?
    ensures HexDecode([hi, lo] + rest, size + 1) == Some([HexByte(hi, lo).value] + HexDecode(rest, size).value)
  {}

  lemma {:induction false} HexRoundTrip(b: ByteString)
    ensures HexDecode(HexEncode(b), |b|) == Some(b)
  {
    if b != [] {
      HexRoundTrip(b[1..]);
      HexByteRoundTrip(b[0]);
      var text, rest := HexEncode(b), HexEncode(b[1..]);
      HexDecodeNext(HexDigit(b[0] / 16), HexDigit(b[0] % 16), rest, |b| - 1);
      assert text == [HexDigit(b[0] / 16), HexDigit(b[0] % 16)] + rest;
      assert b == [b[0]] + b[1..];
    }
  }

  /** A text decodes exactly when it has two digits for each byte, of either case; each byte is then the
      value of its two digits. */
  lemma {:induction false} HexDecodeIff(text: string, size: nat)
    ensures HexDecode(text, size).Some? <==>
              |text| == 2 * size && forall i | 0 <= i < |text| :: HexValue(text[i]).Some?
    ensures HexDecode(text, size).Some? ==>
              forall i | 0 <= i < size ::
                HexDecode(text, size).value[i] as int == 16 * HexValue(text[2 * i]).value + HexValue(text[2 * i + 1]).value
  {
    if |text| == 2 * size && size > 0 {
      HexDecodeIff(text[2..], size - 1);
      assert forall i | 0 <= i < |text| - 2 :: text[2..][i] == text[i + 2];
      if HexDecode(text, size).Some? {
        forall i | 0 <= i < |text| ensures HexValue(text[i]).Some? {
          assert i >= 2 ==> text[i] == text[2..][i - 2];
        }
        forall i | 0 <= i < size
          ensures HexDecode(text, size).value[i] as int == 16 * HexValue(text[2 * i]).value + HexValue(text[2 * i + 1]).value
        {
          assert i > 0 ==> text[2 * i] == text[2..][2 * (i - 1)] && text[2 * i + 1] == text[2..][2 * (i - 1) + 1];
        }
      }
    }
  }
}
