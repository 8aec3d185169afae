/** Bytes, big-endian integers, and unpadded base64url (section 5 of RFC 4648) as Go's
    base64.RawURLEncoding implements it. */
module Bytes {
  import opened Prelude

  type Byte = b: int | 0 <= b < 256

  // ----- integers -----

  function Power256(n: nat): nat {
    if n == 0 then 1 else 256 * Power256(n - 1)
  }

  /** The `width` low bytes of `value`, most significant first. */
  function BigEndian(value: nat, width: nat): (bytes: seq<Byte>)
    ensures |bytes| == width
  {
    if width == 0 then [] else BigEndian(value / 256, width - 1) + [value % 256]
  }

  function FromBigEndian(bytes: seq<Byte>): nat {
    if bytes == [] then 0 else FromBigEndian(bytes[..|bytes| - 1]) * 256 + bytes[|bytes| - 1]
  }

  lemma {:induction false} BigEndianRoundTrip(value: nat, width: nat)
    requires value < Power256(width)
    ensures FromBigEndian(BigEndian(value, width)) == value
  {
    if width != 0 {
      var bytes := BigEndian(value, width);
      BigEndianRoundTrip(value / 256, width - 1);
      assert bytes[..|bytes| - 1] == BigEndian(value / 256, width - 1);
    }
  }

  // ----- base64url -----

  function Digit(value: int): char
    requires 0 <= value < 64
  {
    if value < 26 then 'A' + value as char
    else if value < 52 then 'a' + (value - 26) as char
    else if value < 62 then '0' + (value - 52) as char
    else if value == 62 then '-' else '_'
  }

  function DigitValue(c: char): (r: Option<int>)
    ensures r.Some? ==> 0 <= r.value < 64
  {
    if 'A' <= c <= 'Z' then Some((c - 'A') as int)
    else if 'a' <= c <= 'z' then Some((c - 'a') as int + 26)
    else if '0' <= c <= '9' then Some((c - '0') as int + 52)
    else if c == '-' then Some(62)
    else if c == '_' then Some(63)
    else None
  }

  /** The bits of `bytes` in groups of six, the last group filled up with zero bits. */
  function Sextets(bytes: seq<Byte>): (r: seq<int>)
    ensures forall k :: 0 <= k < |r| ==> 0 <= r[k] < 64
  {
    if |bytes| == 0 then []
    else if |bytes| == 1 then [bytes[0] / 4, bytes[0] % 4 * 16]
    else if |bytes| == 2 then [bytes[0] / 4, bytes[0] % 4 * 16 + bytes[1] / 16, bytes[1] % 16 * 4]
    else
      [bytes[0] / 4, bytes[0] % 4 * 16 + bytes[1] / 16, bytes[1] % 16 * 4 + bytes[2] / 64, bytes[2] % 64]
      + Sextets(bytes[3..])
  }

  function Encode(bytes: seq<Byte>): string {
    var digits := Sextets(bytes);
    seq(|digits|, k requires 0 <= k < |digits| => Digit(digits[k]))
  }

  /** Go's decoder ignores carriage returns and line feeds anywhere in its input. */
  function WithoutNewlines(text: string): string {
    if text == "" then ""
    else (if text[0] == '\r' || text[0] == '\n' then "" else [text[0]]) + WithoutNewlines(text[1..])
  }

  /** The values of the digits, if every character is one. */
  function Digits(text: string): (r: Option<seq<int>>)
    ensures r.Some? ==> forall k :: 0 <= k < |r.value| ==> 0 <= r.value[k] < 64
  {
    if forall k :: 0 <= k < |text| ==> DigitValue(text[k]).Some?
    then Some(seq(|text|, k requires 0 <= k < |text| && DigitValue(text[k]).Some? => DigitValue(text[k]).value))
    else None
  }

  /** Four digits make three bytes; two or three trailing digits make one or two, and their unused
      low bits are ignored; a single trailing digit is an error. */
  function Pack(digits: seq<int>): Option<seq<Byte>>
    requires forall k :: 0 <= k < |digits| ==> 0 <= digits[k] < 64
  {
    if |digits| == 0 then Some([])
    else if |digits| == 1 then None
    else
      var first := digits[0] * 4 + digits[1] / 16;
      if |digits| == 2 then Some([first])
      else
        var second := digits[1] % 16 * 16 + digits[2] / 4;
        if |digits| == 3 then Some([first, second])
        else match Pack(digits[4..])
             case None => None
             case Some(rest) => Some([first, second, digits[2] % 4 * 64 + digits[3]] + rest)
  }

  function Decode(text: string): Option<seq<Byte>> {
    match Digits(WithoutNewlines(text))
    case None => None
    case Some(digits) => Pack(digits)
  }

  lemma DigitRoundTrip(value: int)
    requires 0 <= value < 64
    ensures DigitValue(Digit(value)) == Some(value)
    ensures Digit(value) != '\r' && Digit(value) != '\n'
  {
  }

  lemma {:induction false} NothingToSkip(text: string)
    requires forall k :: 0 <= k < |text| ==> text[k] != '\r' && text[k] != '\n'
    ensures WithoutNewlines(text) == text
  {
    if text != "" {
      NothingToSkip(text[1..]);
    }
  }

  lemma {:induction false} PackSextets(bytes: seq<Byte>)
    ensures Pack(Sextets(bytes)) == Some(bytes)
  {
    if |bytes| == 0 {
    } else if |bytes| == 1 {
      assert bytes == [bytes[0]];
    } else if |bytes| == 2 {
      assert bytes == [bytes[0], bytes[1]];
    } else {
      PackSextets(bytes[3..]);
      assert Sextets(bytes)[4..] == Sextets(bytes[3..]);
      assert bytes == [bytes[0], bytes[1], bytes[2]] + bytes[3..];
    }
  }

  /** Digits and bytes of one group are the same bits, the bytes shifted left by `zeros` bits. */
  ghost predicate SameBits(digits: seq<int>, bytes: seq<Byte>, zeros: int) {
    FromDigits(digits) == FromBigEndian(bytes) * zeros
  }

  function FromDigits(digits: seq<int>): int {
    if digits == [] then 0 else FromDigits(digits[..|digits| - 1]) * 64 + digits[|digits| - 1]
  }

  lemma BigEndianMore(bytes: seq<Byte>, b: Byte)
    ensures FromBigEndian(bytes + [b]) == FromBigEndian(bytes) * 256 + b
  {
    assert (bytes + [b])[..|bytes|] == bytes;
  }

  lemma DigitsMore(digits: seq<int>, d: int)
    ensures FromDigits(digits + [d]) == FromDigits(digits) * 64 + d
  {
    assert (digits + [d])[..|digits|] == digits;
  }

  lemma OneByte(b: Byte)
    ensures SameBits(Sextets([b]), [b], 16)
  {
    DigitsMore([], b / 4);
    DigitsMore([] + [b / 4], b % 4 * 16);
    assert Sextets([b]) == [] + [b / 4] + [b % 4 * 16];
    BigEndianMore([], b);
    assert [] + [b] == [b];
  }

  lemma TwoBytes(a: Byte, b: Byte)
    ensures SameBits(Sextets([a, b]), [a, b], 4)
  {
    var x, y, z := a / 4, a % 4 * 16 + b / 16, b % 16 * 4;
    DigitsMore([], x);
    DigitsMore([] + [x], y);
    DigitsMore([] + [x] + [y], z);
    assert Sextets([a, b]) == [] + [x] + [y] + [z];
    BigEndianMore([], a);
    BigEndianMore([] + [a], b);
    assert [] + [a] + [b] == [a, b];
  }

  lemma ThreeBytes(a: Byte, b: Byte, c: Byte)
    ensures |Sextets([a, b, c])| == 4 && SameBits(Sextets([a, b, c]), [a, b, c], 1)
  {
    var x, y, z, u := a / 4, a % 4 * 16 + b / 16, b % 16 * 4 + c / 64, c % 64;
    DigitsMore([], x);
    DigitsMore([] + [x], y);
    DigitsMore([] + [x] + [y], z);
    DigitsMore([] + [x] + [y] + [z], u);
    assert Sextets([a, b, c]) == [] + [x] + [y] + [z] + [u];
    BigEndianMore([], a);
    BigEndianMore([] + [a], b);
    BigEndianMore([] + [a] + [b], c);
    assert [] + [a] + [b] + [c] == [a, b, c];
  }

  /** Every three bytes become the four digits of the same 24 bits; a last group of one or two bytes is filled up with
      zero bits to two or three digits. */
  lemma {:induction false} SextetsAreBits(bytes: seq<Byte>)
    ensures |bytes| == 1 ==> |Sextets(bytes)| == 2 && SameBits(Sextets(bytes), bytes, 16)
    ensures |bytes| == 2 ==> |Sextets(bytes)| == 3 && SameBits(Sextets(bytes), bytes, 4)
    ensures |bytes| >= 3 ==>
      && |Sextets(bytes)| >= 4 && SameBits(Sextets(bytes)[..4], bytes[..3], 1)
      && Sextets(bytes)[4..] == Sextets(bytes[3..])
  {
    if |bytes| == 1 {
      OneByte(bytes[0]);
      assert bytes == [bytes[0]];
    } else if |bytes| == 2 {
      TwoBytes(bytes[0], bytes[1]);
      assert bytes == [bytes[0], bytes[1]];
    } else if |bytes| >= 3 {
      ThreeBytes(bytes[0], bytes[1], bytes[2]);
      assert bytes[..3] == [bytes[0], bytes[1], bytes[2]];
      assert Sextets(bytes)[..4] == Sextets(bytes[..3]);
    }
  }

  lemma {:induction false} SkipsNewline(a: string, c: char, b: string)
    requires c == '\r' || c == '\n'
    ensures WithoutNewlines(a + [c] + b) == WithoutNewlines(a + b)
  {
    if a == "" {
      assert (a + [c] + b)[1..] == b && a + b == b;
    } else {
      SkipsNewline(a[1..], c, b);
      assert (a + [c] + b)[1..] == a[1..] + [c] + b && (a + b)[1..] == a[1..] + b;
    }
  }

  /** Line breaks anywhere in a text change nothing. */
  lemma LineBreaksAreIgnored(a: string, c: char, b: string)
    requires c == '\r' || c == '\n'
    ensures Decode(a + [c] + b) == Decode(a + b)
  {
    SkipsNewline(a, c, b);
  }

  lemma {:induction false} FromBigEndianRoundTrip(bytes: seq<Byte>)
    ensures FromBigEndian(bytes) < Power256(|bytes|) && BigEndian(FromBigEndian(bytes), |bytes|) == bytes
  {
    if bytes != [] {
      var init, last := bytes[..|bytes| - 1], bytes[|bytes| - 1];
      FromBigEndianRoundTrip(init);
      var n := FromBigEndian(bytes);
      assert n / 256 == FromBigEndian(init) && n % 256 == last;
      assert bytes == init + [last];
    }
  }

  /** Decoding undoes encoding, for every byte sequence. */
  lemma DecodeEncode(bytes: seq<Byte>)
    ensures Decode(Encode(bytes)) == Some(bytes)
  {
    var digits, text := Sextets(bytes), Encode(bytes);
    forall k | 0 <= k < |digits| ensures DigitValue(text[k]) == Some(digits[k]) && text[k] != '\r' && text[k] != '\n' {
      DigitRoundTrip(digits[k]);
    }
    NothingToSkip(text);
    assert Digits(text).value == digits;
    PackSextets(bytes);
  }
}
