/** Byte and text helpers for the message codec: ASCII bytes and canonical
    decimal numerals, the two ingredients of the JSON text a message is
    serialized to. */
module JsonText {
  import opened Wrappers

  /** One octet of a `byte[]` payload (its unsigned value). */
  type Byte = b: int | 0 <= b < 256

  predicate IsAscii(s: string) {
    forall i :: 0 <= i < |s| ==> s[i] as int < 128
  }

  predicate AllAscii(bs: seq<Byte>) {
    forall i :: 0 <= i < |bs| ==> bs[i] < 128
  }

  /** The codec's byte encoding of a string, one byte per character. This
      model's codec chooses US-ASCII and writes '?' for a character outside
      it; a message's text never holds one. */
  function ToBytes(s: string): (bs: seq<Byte>)
    ensures |bs| == |s|
    decreases |s|
  {
    if s == [] then [] else [AsciiByte(s[0])] + ToBytes(s[1..])
  }

  function AsciiByte(c: char): Byte {
    if c as int < 128 then c as int else '?' as int
  }

  /** The US-ASCII decoding of ASCII bytes, one character per byte. */
  function ToChars(bs: seq<Byte>): (s: string)
    requires AllAscii(bs)
    ensures |s| == |bs|
    decreases |bs|
  {
    if bs == [] then [] else [bs[0] as char] + ToChars(bs[1..])
  }

  /** Each byte of the encoding is the code of the character at its index. */
  lemma {:induction false} ToBytesCodes(s: string)
    requires IsAscii(s)
    ensures AllAscii(ToBytes(s))
    ensures forall i :: 0 <= i < |s| ==> ToBytes(s)[i] == s[i] as int
    decreases |s|
  {
    if s != [] {
      ToBytesCodes(s[1..]);
      assert forall i :: 1 <= i < |s| ==> ToBytes(s)[i] == ToBytes(s[1..])[i - 1];
    }
  }

  /** Each character of the decoding has the code of the byte at its index. */
  lemma {:induction false} ToCharsCodes(bs: seq<Byte>)
    requires AllAscii(bs)
    ensures IsAscii(ToChars(bs))
    ensures forall i :: 0 <= i < |bs| ==> ToChars(bs)[i] as int == bs[i]
    decreases |bs|
  {
    if bs != [] {
      ToCharsCodes(bs[1..]);
      assert forall i :: 1 <= i < |bs| ==> ToChars(bs)[i] == ToChars(bs[1..])[i - 1];
    }
  }

  lemma CharsOfBytes(s: string)
    requires IsAscii(s)
    ensures AllAscii(ToBytes(s)) && ToChars(ToBytes(s)) == s
  {
    ToBytesCodes(s);
    ToCharsCodes(ToBytes(s));
  }

  lemma BytesOfChars(bs: seq<Byte>)
    requires AllAscii(bs)
    ensures IsAscii(ToChars(bs)) && ToBytes(ToChars(bs)) == bs
  {
    ToCharsCodes(bs);
    ToBytesCodes(ToChars(bs));
  }

  predicate IsDigit(c: char) {
    '0' <= c <= '9'
  }

  predicate AllDigits(s: string) {
    forall i :: 0 <= i < |s| ==> IsDigit(s[i])
  }

  /** A decimal numeral as a JSON writer prints it: at least one digit, and no
      leading zero unless the numeral is "0" itself. */
  predicate Canonical(s: string) {
    |s| > 0 && AllDigits(s) && (s[0] == '0' ==> |s| == 1)
  }

  function DigitChar(d: nat): (c: char)
    requires d < 10
    ensures IsDigit(c)
  {
    ('0' as int + d) as char
  }

  function DigitValue(c: char): (d: nat)
    requires IsDigit(c)
    ensures d < 10 && DigitChar(d) == c
  {
    c as int - '0' as int
  }

  /** The decimal numeral of `n`, most significant digit first. */
  function NatText(n: nat): (s: string)
    ensures |s| > 0
    decreases n
  {
    if n < 10 then [DigitChar(n)] else NatText(n / 10) + [DigitChar(n % 10)]
  }

  /** The numeral is canonical, and starts with '0' only for zero. */
  lemma {:induction false} NatTextCanonical(n: nat)
    ensures Canonical(NatText(n))
    ensures NatText(n)[0] == '0' <==> n == 0
    decreases n
  {
    if n >= 10 {
      NatTextCanonical(n / 10);
      assert NatText(n)[0] == NatText(n / 10)[0];
    }
  }

  /** The number a string of digits denotes. */
  function NatValue(s: string): nat
    requires AllDigits(s)
    decreases |s|
  {
    if s == [] then 0 else NatValue(s[..|s| - 1]) * 10 + DigitValue(s[|s| - 1])
  }

  lemma DivModTen(v: nat, d: nat)
    requires d < 10
    ensures (v * 10 + d) / 10 == v && (v * 10 + d) % 10 == d
  {
  }

  lemma {:induction false} NatValueOfText(n: nat)
    ensures AllDigits(NatText(n)) && NatValue(NatText(n)) == n
    decreases n
  {
    NatTextCanonical(n);
    if n >= 10 {
      var s := NatText(n);
      assert s[..|s| - 1] == NatText(n / 10);
      NatValueOfText(n / 10);
    }
  }

  /** A numeral without a leading zero denotes a positive number. */
  lemma {:induction false} NatValuePositive(s: string)
    requires |s| > 0 && AllDigits(s) && s[0] != '0'
    ensures NatValue(s) >= 1
    decreases |s|
  {
    if |s| > 1 {
      NatValuePositive(s[..|s| - 1]);
    }
  }

  /** Every canonical numeral is the printed form of the number it denotes. */
  lemma {:induction false} NatTextOfValue(s: string)
    requires Canonical(s)
    ensures NatText(NatValue(s)) == s
    decreases |s|
  {
    if |s| > 1 {
      var prefix := s[..|s| - 1];
      var d := DigitValue(s[|s| - 1]);
      NatValuePositive(prefix);
      NatTextOfValue(prefix);
      DivModTen(NatValue(prefix), d);
      assert s == prefix + [s[|s| - 1]];
    }
  }

  /** The decimal text of a signed integer, with a leading '-' when negative. */
  function IntText(x: int): (s: string)
    ensures |s| > 0
  {
    if x < 0 then "-" + NatText(-x) else NatText(x)
  }

  lemma IntTextAscii(x: int)
    ensures IsAscii(IntText(x))
  {
    NatTextCanonical(if x < 0 then -x else x);
  }

  /** Reads a signed decimal numeral; only the forms `IntText` prints are accepted. */
  function ParseInt(s: string): (r: Option<int>)
  {
    if |s| > 0 && s[0] == '-' then
      var digits := s[1..];
      if Canonical(digits) && digits[0] != '0' then Some(0 - NatValue(digits) as int) else None
    else if Canonical(s) then Some(NatValue(s))
    else None
  }

  lemma ParseIntText(x: int)
    ensures ParseInt(IntText(x)) == Some(x)
  {
    var s := IntText(x);
    if x < 0 {
      assert s[1..] == NatText(-x);
      NatTextCanonical(-x);
      NatValueOfText(-x);
    } else {
      NatTextCanonical(x);
      NatValueOfText(x);
    }
  }

  lemma IntTextOfParse(s: string, x: int)
    requires ParseInt(s) == Some(x)
    ensures IntText(x) == s
  {
    if |s| > 0 && s[0] == '-' {
      var digits := s[1..];
      NatValuePositive(digits);
      NatTextOfValue(digits);
      assert s == "-" + digits;
    } else {
      NatTextOfValue(s);
    }
  }
}
