/** The fallback path of `generateId` (frontend/lib/id.ts): sixteen random
    bytes, the version field (section 4.1.3 of RFC 4122) forced to 4 and the
    variant field (section 4.1.1) forced to `10`, as section 4.4 prescribes
    for random identifiers, rendered as lowercase hex in 8-4-4-4-12 groups.

    The random draws are a parameter: the caller passes the sixteen values
    `Math.floor(Math.random() * 256)` produced. */
module Uuid {
  import opened Text

  type Byte = bv8

  /** The digit JavaScript's `toString(16)` writes for `n`: `0`-`9`, then `a`-`f`. */
  function HexDigit(n: nat): (c: char)
    requires n < 16
    ensures IsHexDigit(c)
  {
    if n < 10 then (48 + n) as char else (97 + n - 10) as char
  }

  /** A lowercase hexadecimal digit. */
  predicate IsHexDigit(c: char)
  {
    '0' <= c <= '9' || 'a' <= c <= 'f'
  }

  /** The value of a hex digit (0 for any other character). */
  function HexValue(c: char): (n: nat)
    ensures n < 16
  {
    if '0' <= c <= '9' then c as int - 48
    else if 'a' <= c <= 'f' then c as int - 97 + 10
    else 0
  }

  /** `n.toString(16)`: the hex digits of `n`, most significant first, without leading zeros. */
  function ToHex(n: nat): string
  {
    if n < 16 then [HexDigit(n)] else ToHex(n / 16) + [HexDigit(n % 16)]
  }

  /** `s.padStart(width, "0")`. */
  function PadStart(s: string, width: nat): string
  {
    if |s| >= width then s else seq(width - |s|, _ => '0') + s
  }

  /** The digit of a byte's high nibble. */
  function HighDigit(b: Byte): char
  {
    HexDigit(b as int / 16)
  }

  /** The digit of a byte's low nibble. */
  function LowDigit(b: Byte): char
  {
    HexDigit(b as int % 16)
  }

  /** `value.toString(16).padStart(2, "0")` for one byte. */
  function ByteHex(b: Byte): string
  {
    PadStart(ToHex(b as int), 2)
  }

  /** `Array.from(bytes, ByteHex)`. */
  function HexStrings(bytes: seq<Byte>): (hex: seq<string>)
    ensures |hex| == |bytes|
  {
    seq(|bytes|, i requires 0 <= i < |bytes| => ByteHex(bytes[i]))
  }

  /** `segment(start, end)`: the hex strings of bytes `start` to `end - 1`, concatenated. */
  function Segment(hex: seq<string>, start: nat, end: nat): string
    requires start <= end <= |hex|
  {
    Join("", hex[start..end])
  }

  /** The template of lines 15-18: five segments separated by hyphens. */
  function Format(bytes: seq<Byte>): string
    requires |bytes| == 16
  {
    var hex := HexStrings(bytes);
    Segment(hex, 0, 4) + "-" + Segment(hex, 4, 6) + "-" + Segment(hex, 6, 8) + "-"
    + Segment(hex, 8, 10) + "-" + Segment(hex, 10, 16)
  }

  /** The two in-place overwrites: the high nibble of byte 6 becomes 4 and
      the top two bits of byte 8 become `10`; every other bit is kept. */
  function WithVersion(bytes: seq<Byte>): (r: seq<Byte>)
    requires |bytes| == 16
    ensures |r| == 16
    ensures r[6] as int == 64 + bytes[6] as int % 16
    ensures r[8] as int == 128 + bytes[8] as int % 64
    ensures forall i :: 0 <= i < 16 && i != 6 && i != 8 ==> r[i] == bytes[i]
  {
    VersionBits(bytes[6]);
    VariantBits(bytes[8]);
    bytes[6 := (bytes[6] & 0x0F) | 0x40][8 := (bytes[8] & 0x3F) | 0x80]
  }

  /** The fallback itself: fill a 16-byte buffer with the draws, overwrite
      bytes 6 and 8 in place, and render the buffer. */
  method FallbackId(draws: seq<Byte>) returns (id: string)
    requires |draws| == 16
    ensures id == Format(WithVersion(draws))
  {
    var fallback := new Byte[16];
    for index := 0 to fallback.Length
      invariant fallback[..index] == draws[..index]
    {
      fallback[index] := draws[index];
    }
    assert fallback[..] == draws;
    fallback[6] := (fallback[6] & 0x0F) | 0x40;
    fallback[8] := (fallback[8] & 0x3F) | 0x80;
    id := Format(fallback[..]);
  }

  // ---------------------------------------------------------------------
  // The shape of an identifier

  /** Where the two digits of byte `i` stand: two per byte, plus one for
      each hyphen before the byte's group. */
  function Offset(i: nat): nat
    requires i < 16
  {
    2 * i + (if i < 4 then 0 else if i < 6 then 1 else if i < 8 then 2 else if i < 10 then 3 else 4)
  }

  /** Reading back the byte whose digits stand at `at` and `at + 1`. */
  function ParseByte(s: string, at: nat): Byte
    requires at + 1 < |s|
  {
    (16 * HexValue(s[at]) + HexValue(s[at + 1])) as Byte
  }

  /** Reading back all sixteen bytes of an identifier. */
  function Parse(s: string): (bytes: seq<Byte>)
    requires |s| == 36
    ensures |bytes| == 16
  {
    seq(16, i requires 0 <= i < 16 => ParseByte(s, Offset(i)))
  }

  /** An identifier of the form `xxxxxxxx-xxxx-4xxx-yxxx-xxxxxxxxxxxx` with
      `y` one of `8`, `9`, `a`, `b`. */
  predicate IsVersion4(s: string)
  {
    |s| == 36
    && (forall k :: 0 <= k < 36 ==> (s[k] == '-' <==> k == 8 || k == 13 || k == 18 || k == 23))
    && (forall k :: 0 <= k < 36 && k != 8 && k != 13 && k != 18 && k != 23 ==> IsHexDigit(s[k]))
    && s[14] == '4'
    && s[19] in "89ab"
  }

  // ---------------------------------------------------------------------
  // Lemmas

  /** Forcing the version keeps the low nibble and sets the high one to 4. */
  lemma VersionBits(x: Byte)
    ensures ((x & 0x0F) | 0x40) as int == 64 + x as int % 16
  {
  }

  /** Forcing the variant keeps the low six bits and sets the top two to `10`. */
  lemma VariantBits(x: Byte)
    ensures ((x & 0x3F) | 0x80) as int == 128 + x as int % 64
  {
  }

  lemma HexValueOfDigit(n: nat)
    requires n < 16
    ensures HexValue(HexDigit(n)) == n
  {
  }

  /** Every byte renders as exactly two digits, zero-padded, high nibble first. */
  lemma ByteHexDigits(b: Byte)
    ensures ByteHex(b) == [HighDigit(b), LowDigit(b)]
  {
    TwoDigits(b as int);
  }

  /** Below 256, the padded `toString(16)` is the two nibble digits. */
  lemma TwoDigits(n: nat)
    requires n < 256
    ensures PadStart(ToHex(n), 2) == [HexDigit(n / 16), HexDigit(n % 16)]
  {
    if n < 16 {
      assert ToHex(n) == [HexDigit(n)];
      assert seq(1, _ => '0') == [HexDigit(0)];
    } else {
      assert ToHex(n / 16) == [HexDigit(n / 16)];
    }
  }

  /** Concatenating two-character strings gives twice as many characters. */
  lemma {:induction false} JoinPairsLength(parts: seq<string>)
    requires forall k :: 0 <= k < |parts| ==> |parts[k]| == 2
    ensures |Join("", parts)| == 2 * |parts|
  {
    if |parts| > 1 {
      JoinPairsLength(parts[1..]);
    }
  }

  /** Concatenating two-character strings puts the characters of part `k` at `2k` and `2k + 1`. */
  lemma {:induction false} JoinPairAt(parts: seq<string>, k: nat)
    requires forall j :: 0 <= j < |parts| ==> |parts[j]| == 2
    requires k < |parts|
    ensures |Join("", parts)| == 2 * |parts|
    ensures Join("", parts)[2 * k] == parts[k][0] && Join("", parts)[2 * k + 1] == parts[k][1]
  {
    JoinPairsLength(parts);
    if |parts| > 1 {
      var rest := Join("", parts[1..]);
      assert Join("", parts) == parts[0] + rest;
      if k > 0 {
        JoinPairAt(parts[1..], k - 1);
        assert parts[1..][k - 1] == parts[k];
      }
    }
  }

  /** The hex strings of a buffer are pairs of digits, those of its bytes. */
  lemma HexStringsAt(bytes: seq<Byte>, i: nat)
    requires i < |bytes|
    ensures HexStrings(bytes)[i] == [HighDigit(bytes[i]), LowDigit(bytes[i])]
  {
    ByteHexDigits(bytes[i]);
  }

  /** A segment has two characters per byte. */
  lemma SegmentLength(bytes: seq<Byte>, start: nat, end: nat)
    requires start <= end <= |bytes|
    ensures |Segment(HexStrings(bytes), start, end)| == 2 * (end - start)
  {
    var parts := HexStrings(bytes)[start..end];
    forall k | 0 <= k < |parts| ensures |parts[k]| == 2 {
      HexStringsAt(bytes, start + k);
    }
    JoinPairsLength(parts);
  }

  /** The characters of a segment are the digits of its bytes, in byte order. */
  lemma SegmentAt(bytes: seq<Byte>, start: nat, end: nat, k: nat)
    requires start + k < end <= |bytes|
    ensures |Segment(HexStrings(bytes), start, end)| == 2 * (end - start)
    ensures Segment(HexStrings(bytes), start, end)[2 * k] == HighDigit(bytes[start + k])
    ensures Segment(HexStrings(bytes), start, end)[2 * k + 1] == LowDigit(bytes[start + k])
  {
    var parts := HexStrings(bytes)[start..end];
    forall j | 0 <= j < |parts| ensures |parts[j]| == 2 {
      HexStringsAt(bytes, start + j);
    }
    HexStringsAt(bytes, start + k);
    JoinPairAt(parts, k);
  }

  /** The rendering is 36 characters with hyphens at 8, 13, 18 and 23. */
  lemma FormatHyphens(bytes: seq<Byte>)
    requires |bytes| == 16
    ensures var s := Format(bytes);
      |s| == 36 && s[8] == '-' && s[13] == '-' && s[18] == '-' && s[23] == '-'
  {
    SegmentLength(bytes, 0, 4);
    SegmentLength(bytes, 4, 6);
    SegmentLength(bytes, 6, 8);
    SegmentLength(bytes, 8, 10);
    SegmentLength(bytes, 10, 16);
  }

  /** The digits of the bytes of one group stand after the earlier groups
      and their hyphens. */
  lemma FirstGroupAt(bytes: seq<Byte>, i: nat)
    requires |bytes| == 16 && 0 <= i < 4
    ensures |Format(bytes)| == 36
    ensures Format(bytes)[Offset(i)] == HighDigit(bytes[i])
    ensures Format(bytes)[Offset(i) + 1] == LowDigit(bytes[i])
  {
    var p := Offset(i);
    assert p == 2 * i;
    FormatHyphens(bytes);
    SegmentAt(bytes, 0, 4, i);
  }

  lemma SecondGroupAt(bytes: seq<Byte>, i: nat)
    requires |bytes| == 16 && 4 <= i < 6
    ensures |Format(bytes)| == 36
    ensures Format(bytes)[Offset(i)] == HighDigit(bytes[i])
    ensures Format(bytes)[Offset(i) + 1] == LowDigit(bytes[i])
  {
    var p := Offset(i);
    assert p == 9 + 2 * (i - 4);
    FormatHyphens(bytes);
    SegmentLength(bytes, 0, 4);
    SegmentAt(bytes, 4, 6, i - 4);
  }

  lemma ThirdGroupAt(bytes: seq<Byte>, i: nat)
    requires |bytes| == 16 && 6 <= i < 8
    ensures |Format(bytes)| == 36
    ensures Format(bytes)[Offset(i)] == HighDigit(bytes[i])
    ensures Format(bytes)[Offset(i) + 1] == LowDigit(bytes[i])
  {
    var p := Offset(i);
    assert p == 14 + 2 * (i - 6);
    FormatHyphens(bytes);
    SegmentLength(bytes, 0, 4);
    SegmentLength(bytes, 4, 6);
    SegmentAt(bytes, 6, 8, i - 6);
  }

  lemma FourthGroupAt(bytes: seq<Byte>, i: nat)
    requires |bytes| == 16 && 8 <= i < 10
    ensures |Format(bytes)| == 36
    ensures Format(bytes)[Offset(i)] == HighDigit(bytes[i])
    ensures Format(bytes)[Offset(i) + 1] == LowDigit(bytes[i])
  {
    var p := Offset(i);
    assert p == 19 + 2 * (i - 8);
    FormatHyphens(bytes);
    SegmentLength(bytes, 0, 4);
    SegmentLength(bytes, 4, 6);
    SegmentLength(bytes, 6, 8);
    SegmentAt(bytes, 8, 10, i - 8);
  }

  lemma FifthGroupAt(bytes: seq<Byte>, i: nat)
    requires |bytes| == 16 && 10 <= i < 16
    ensures |Format(bytes)| == 36
    ensures Format(bytes)[Offset(i)] == HighDigit(bytes[i])
    ensures Format(bytes)[Offset(i) + 1] == LowDigit(bytes[i])
  {
    var p := Offset(i);
    assert p == 24 + 2 * (i - 10);
    FormatHyphens(bytes);
    SegmentLength(bytes, 0, 4);
    SegmentLength(bytes, 4, 6);
    SegmentLength(bytes, 6, 8);
    SegmentLength(bytes, 8, 10);
    SegmentAt(bytes, 10, 16, i - 10);
  }

  /** The two digits of byte `i` stand at `Offset(i)` and `Offset(i) + 1`, high nibble first. */
  lemma FormatAt(bytes: seq<Byte>, i: nat)
    requires |bytes| == 16 && i < 16
    ensures |Format(bytes)| == 36
    ensures Format(bytes)[Offset(i)] == HighDigit(bytes[i])
    ensures Format(bytes)[Offset(i) + 1] == LowDigit(bytes[i])
  {
    if i < 4 {
      FirstGroupAt(bytes, i);
    } else if i < 6 {
      SecondGroupAt(bytes, i);
    } else if i < 8 {
      ThirdGroupAt(bytes, i);
    } else if i < 10 {
      FourthGroupAt(bytes, i);
    } else {
      FifthGroupAt(bytes, i);
    }
  }

  /** Hyphens stand at 8, 13, 18 and 23 and nowhere else; every other character is a hex digit. */
  lemma FormatShape(bytes: seq<Byte>)
    requires |bytes| == 16
    ensures |Format(bytes)| == 36
    ensures forall k :: 0 <= k < 36 ==> (Format(bytes)[k] == '-' <==> k == 8 || k == 13 || k == 18 || k == 23)
    ensures forall k :: 0 <= k < 36 && k != 8 && k != 13 && k != 18 && k != 23 ==> IsHexDigit(Format(bytes)[k])
  {
    var s := Format(bytes);
    assert |s| == 36 && s[8] == '-' && s[13] == '-' && s[18] == '-' && s[23] == '-' by {
      FormatHyphens(bytes);
    }
    forall k | 0 <= k < 36 && k != 8 && k != 13 && k != 18 && k != 23
      ensures IsHexDigit(s[k])
    {
      DigitAt(bytes, k);
    }
  }

  /** The byte whose digits include position `k` of an identifier. */
  function ByteAt(k: nat): (i: nat)
    requires k < 36 && k != 8 && k != 13 && k != 18 && k != 23
    ensures i < 16 && (k == Offset(i) || k == Offset(i) + 1)
  {
    if k < 8 then k / 2 else if k < 13 then (k - 1) / 2 else if k < 18 then (k - 2) / 2
    else if k < 23 then (k - 3) / 2 else (k - 4) / 2
  }

  /** Every position off the hyphens holds a hex digit. */
  lemma DigitAt(bytes: seq<Byte>, k: nat)
    requires |bytes| == 16 && k < 36 && k != 8 && k != 13 && k != 18 && k != 23
    ensures |Format(bytes)| == 36 && IsHexDigit(Format(bytes)[k])
  {
    FormatAt(bytes, ByteAt(k));
  }

  /** The digits of byte `i` read back as that byte. */
  lemma ParseAt(bytes: seq<Byte>, i: nat)
    requires |bytes| == 16 && i < 16
    ensures |Format(bytes)| == 36 && ParseByte(Format(bytes), Offset(i)) == bytes[i]
  {
    FormatAt(bytes, i);
    DigitsValue(bytes[i]);
  }

  /** A byte's two digits read back as the byte. */
  lemma DigitsValue(b: Byte)
    ensures (16 * HexValue(HighDigit(b)) + HexValue(LowDigit(b))) as Byte == b
  {
    var n := b as int;
    var hi, lo := HexValue(HighDigit(b)), HexValue(LowDigit(b));
    assert hi == n / 16 by {
      HexValueOfDigit(n / 16);
    }
    assert lo == n % 16 by {
      HexValueOfDigit(n % 16);
    }
    assert 16 * hi + lo == n;
  }

  /** Reading the rendering back gives the bytes: no byte is lost or changed. */
  lemma ParseFormat(bytes: seq<Byte>)
    requires |bytes| == 16
    ensures |Format(bytes)| == 36 && Parse(Format(bytes)) == bytes
  {
    var s := Format(bytes);
    assert |s| == 36 by {
      FormatHyphens(bytes);
    }
    forall i | 0 <= i < 16 ensures Parse(s)[i] == bytes[i] {
      ParseAt(bytes, i);
    }
  }

  /** Every fallback identifier has the version 4 shape. */
  lemma FallbackIsVersion4(draws: seq<Byte>)
    requires |draws| == 16
    ensures IsVersion4(Format(WithVersion(draws)))
  {
    var bytes := WithVersion(draws);
    FormatShape(bytes);
    FormatAt(bytes, 6);
    FormatAt(bytes, 8);
    var v := bytes[8] as int / 16;
    assert 8 <= v < 12;
    assert HexDigit(v) == "89ab"[v - 8];
  }

  /** Every draw other than bytes 6 and 8 appears unchanged in the
      identifier; byte 6 reads back as version 4 over its drawn low nibble,
      byte 8 as variant `10` over its drawn low six bits. */
  lemma FallbackKeepsDraws(draws: seq<Byte>)
    requires |draws| == 16
    ensures |Format(WithVersion(draws))| == 36
    ensures forall i :: 0 <= i < 16 && i != 6 && i != 8 ==> Parse(Format(WithVersion(draws)))[i] == draws[i]
    ensures Parse(Format(WithVersion(draws)))[6] as int == 64 + draws[6] as int % 16
    ensures Parse(Format(WithVersion(draws)))[8] as int == 128 + draws[8] as int % 64
  {
    var bytes := WithVersion(draws);
    assert |Format(bytes)| == 36 && Parse(Format(bytes)) == bytes by {
      ParseFormat(bytes);
    }
  }
}
