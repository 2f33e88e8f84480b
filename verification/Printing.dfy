/** Number printing and generate_uuid of domain/common.hpp. */
module Printing {
  import opened Common

  predicate IsDigit(c: char) { '0' <= c <= '9' }

  predicate IsHexDigit(c: char) { IsDigit(c) || 'a' <= c <= 'f' }

  ghost predicate BraceFree(s: string) {
    forall i :: 0 <= i < |s| ==> s[i] != '{' && s[i] != '}'
  }

  ghost predicate HasDigit(s: string) {
    exists i :: 0 <= i < |s| && IsDigit(s[i])
  }

  function DigitChar(d: nat): (c: char)
    requires d < 16
    ensures IsHexDigit(c) && (d < 10 ==> IsDigit(c))
  {
    if d < 10 then '0' + d as char else 'a' + (d - 10) as char
  }

  // std::to_string
  function Decimal(n: int): (s: string)
    ensures BraceFree(s) && HasDigit(s)
    decreases n < 0, if n < 0 then -n else n
  {
    if n < 0 then
      var s := Decimal(-n);
      assert HasDigit("-" + s) by { var i :| 0 <= i < |s| && IsDigit(s[i]); assert ("-" + s)[i + 1] == s[i]; }
      "-" + s
    else if n < 10 then assert IsDigit([DigitChar(n)][0]); [DigitChar(n)]
    else
      var s := Decimal(n / 10);
      assert HasDigit(s + [DigitChar(n % 10)]) by {
        var i :| 0 <= i < |s| && IsDigit(s[i]); assert (s + [DigitChar(n % 10)])[i] == s[i];
      }
      s + [DigitChar(n % 10)]
  }

  // std::put_time prints month, day, hour, minute and second with two digits.
  function TwoDigits(n: nat): (s: string)
    requires n < 100
    ensures BraceFree(s)
  {
    [DigitChar(n / 10), DigitChar(n % 10)]
  }

  function DigitValue(c: char): int { if IsDigit(c) then c as int - '0' as int else c as int - 'a' as int + 10 }

  // The number that a row of digits denotes.
  function ReadDigits(s: string, base: int): int {
    if s == "" then 0 else ReadDigits(s[..|s| - 1], base) * base + DigitValue(s[|s| - 1])
  }

  /** A printed number reads back as the number: decimal digits only, no leading zero, and a minus sign in front of a
      negative one. */
  lemma {:induction false} DecimalReads(n: int)
    ensures n >= 0 ==>
              && ReadDigits(Decimal(n), 10) == n
              && (forall i :: 0 <= i < |Decimal(n)| ==> IsDigit(Decimal(n)[i]))
              && (Decimal(n)[0] == '0' ==> n == 0 && Decimal(n) == "0")
    ensures n < 0 ==> Decimal(n) == "-" + Decimal(-n)
    decreases n < 0, if n < 0 then -n else n
  {
    if 0 <= n < 10 {
      assert Decimal(n)[..0] == "";
    } else if n >= 10 {
      DecimalReads(n / 10);
      var s := Decimal(n);
      assert s[..|s| - 1] == Decimal(n / 10);
    }
  }

  /** A two-digit field reads back as its number. */
  lemma TwoDigitsRead(n: nat)
    requires n < 100
    ensures ReadDigits(TwoDigits(n), 10) == n && |TwoDigits(n)| == 2
  {
    ReadTwo(TwoDigits(n), 10);
  }

  lemma ReadTwo(s: string, base: int)
    requires |s| == 2
    ensures ReadDigits(s, base) == DigitValue(s[0]) * base + DigitValue(s[1])
  {
    assert s[..1][..0] == "" && s[..1][0] == s[0];
    assert ReadDigits(s[..1], base) == DigitValue(s[0]);
  }

  type Byte = b: int | 0 <= b < 256

  predicate IsHyphenAfter(index: nat) { index == 3 || index == 5 || index == 7 || index == 9 }

  function HexByte(b: Byte): (s: string)
    ensures |s| == 2
  {
    [DigitChar(b / 16), DigitChar(b % 16)]
  }

  /** A byte's two lower-case hex digits read back as the byte. */
  lemma HexByteReads(b: Byte)
    ensures ReadDigits(HexByte(b), 16) == b && forall i :: 0 <= i < 2 ==> IsHexDigit(HexByte(b)[i])
  {
    ReadTwo(HexByte(b), 16);
  }

  // Bytes 0..index-1 printed as hex pairs, with the hyphens of the UUID text form.
  function UuidText(bytes: seq<Byte>): string
    decreases |bytes|
  {
    if bytes == [] then ""
    else
      var n := |bytes| - 1;
      UuidText(bytes[..n]) + HexByte(bytes[n]) + (if IsHyphenAfter(n) then "-" else "")
  }

  function HyphensBefore(n: nat): nat {
    (if n > 3 then 1 else 0) + (if n > 5 then 1 else 0) + (if n > 7 then 1 else 0) + (if n > 9 then 1 else 0)
  }

  // Where the two hex digits of byte k are printed.
  function HexPosition(k: nat): nat { 2 * k + HyphensBefore(k) }

  lemma {:induction false} UuidTextLength(bytes: seq<Byte>)
    ensures |UuidText(bytes)| == 2 * |bytes| + HyphensBefore(|bytes|)
  {
    if bytes != [] { UuidTextLength(bytes[..|bytes| - 1]); }
  }

  // Byte k appears as its two hex digits at its position, followed by a hyphen where one belongs.
  lemma {:induction false} UuidTextAt(bytes: seq<Byte>, k: nat)
    requires k < |bytes|
    ensures HexPosition(k) + 2 + (if IsHyphenAfter(k) then 1 else 0) <= |UuidText(bytes)|
    ensures UuidText(bytes)[HexPosition(k)] == HexByte(bytes[k])[0]
    ensures UuidText(bytes)[HexPosition(k) + 1] == HexByte(bytes[k])[1]
    ensures IsHyphenAfter(k) ==> UuidText(bytes)[HexPosition(k) + 2] == '-'
  {
    var n := |bytes| - 1;
    UuidTextLength(bytes[..n]);
    if k < n { UuidTextAt(bytes[..n], k); }
  }

  /** The shape of section 4 of RFC 9562: 36 characters, hyphens at 8, 13, 18 and 23, version digit 4 and
      variant digit 8..b, every other character a hex digit. */
  ghost predicate IsUuidV4(s: string) {
    && |s| == 36
    && (forall i :: 0 <= i < 36 ==>
          if i == 8 || i == 13 || i == 18 || i == 23 then s[i] == '-' else IsHexDigit(s[i]))
    && s[14] == '4'
    && s[19] in ['8', '9', 'a', 'b']
  }

  /** generate_uuid: sixteen arbitrary bytes, two of them masked in place, then printed in a loop. */
  method GenerateUuid(random: seq<Byte>) returns (text: string)
    requires |random| == 16
    ensures IsUuidV4(text)
    ensures text == UuidText(random[6 := random[6] % 16 + 0x40][8 := random[8] % 64 + 0x80])
  {
    var bytes := new Byte[16](i requires 0 <= i < 16 => random[i]);
    assert bytes[..] == random;
    bytes[6] := bytes[6] % 16 + 0x40;  // (b & 0x0F) | 0x40
    bytes[8] := bytes[8] % 64 + 0x80;  // (b & 0x3F) | 0x80
    ghost var masked := bytes[..];
    text := "";
    for index := 0 to 16
      invariant bytes[..] == masked
      invariant text == UuidText(masked[..index])
    {
      assert masked[..index + 1][..index] == masked[..index];
      text := text + HexByte(bytes[index]);
      if IsHyphenAfter(index) {
        text := text + "-";
      }
    }
    assert masked[..16] == masked;
    MaskedShape(masked);
  }

  lemma MaskedShape(bytes: seq<Byte>)
    requires |bytes| == 16 && 0x40 <= bytes[6] < 0x50 && 0x80 <= bytes[8] < 0xC0
    ensures IsUuidV4(UuidText(bytes))
  {
    var s := UuidText(bytes);
    UuidTextLength(bytes);
    UuidTextAt(bytes, 3);
    UuidTextAt(bytes, 5);
    UuidTextAt(bytes, 7);
    UuidTextAt(bytes, 9);
    UuidTextAt(bytes, 6);
    UuidTextAt(bytes, 8);
    forall i | 0 <= i < 36 && i != 8 && i != 13 && i != 18 && i != 23 ensures IsHexDigit(s[i]) {
      UuidTextAt(bytes, ByteAt(i));
    }
  }

  function ByteAt(i: nat): (k: nat)
    requires i < 36 && i != 8 && i != 13 && i != 18 && i != 23
    ensures k < 16 && (i == HexPosition(k) || i == HexPosition(k) + 1)
  {
    var early := (if i > 8 then 1 else 0) + (if i > 13 then 1 else 0);
    var late := (if i > 18 then 1 else 0) + (if i > 23 then 1 else 0);
    (i - early - late) / 2
  }

  lemma UuidIsSafe(s: string)
    requires IsUuidV4(s)
    ensures BraceFree(s) && HasDigit(s)
  {
    assert IsDigit(s[14]);
  }
}
