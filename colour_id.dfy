/**
 * Pixels of the decoded pick image and the identifier of the object a pixel
 * colour stands for.  The source builds the identifier as
 * `str(int(f"0x{b:02X}{g:02X}{r:02X}", 16))`: two upper-case hex digits per
 * channel in blue, green, red order, read back as one hexadecimal number,
 * then rendered in decimal.  That pipeline is written out literally here and
 * proved equal to the packing `B * 65536 + G * 256 + R`.
 */
module ColourId {
  import Decimal

  newtype byte = x: int | 0 <= x < 256

  /** One RGBA pixel as Pillow's pixel access returns it for an RGBA image. */
  datatype Pixel = Pixel(r: byte, g: byte, b: byte, a: byte)

  predicate IsHexDigit(c: char)
  {
    ('0' <= c <= '9') || ('A' <= c <= 'F') || ('a' <= c <= 'f')
  }

  predicate AllHexDigits(s: string)
  {
    forall i :: 0 <= i < |s| ==> IsHexDigit(s[i])
  }

  /** The upper-case hex digit for `d` (format spec `X`). */
  function HexChar(d: nat): (c: char)
    requires d < 16
    ensures IsHexDigit(c)
  {
    if d < 10 then (('0' as int) + d) as char else (('A' as int) + d - 10) as char
  }

  /** The value of one hex digit, either case, as `int(..., 16)` reads it. */
  function HexDigitValue(c: char): (d: nat)
    requires IsHexDigit(c)
    ensures d < 16
  {
    if '0' <= c <= '9' then (c as int) - ('0' as int)
    else if 'A' <= c <= 'F' then (c as int) - ('A' as int) + 10
    else (c as int) - ('a' as int) + 10
  }

  /** `f"{v:02X}"` for a byte: exactly two upper-case hex digits. */
  function Hex2(v: byte): (s: string)
    ensures |s| == 2 && AllHexDigits(s)
  {
    [HexChar(v as int / 16), HexChar(v as int % 16)]
  }

  /** The number a string of hex digits denotes (`int("0x" + s, 16)`). */
  function HexValue(s: string): nat
    requires AllHexDigits(s)
  {
    if s == [] then 0 else 16 * HexValue(s[..|s| - 1]) + HexDigitValue(s[|s| - 1])
  }

  /** The hex digits of the colour literal, blue byte first. */
  function BgrHex(r: byte, g: byte, b: byte): (s: string)
    ensures |s| == 6 && AllHexDigits(s)
  {
    Hex2(b) + Hex2(g) + Hex2(r)
  }

  /** The packed integer the source derives from a colour. */
  function PackedId(r: byte, g: byte, b: byte): nat
  {
    HexValue(BgrHex(r, g, b))
  }

  /** The object identifier of a colour: the decimal string of its packed integer. */
  function IdentifyId(r: byte, g: byte, b: byte): string
  {
    Decimal.Render(PackedId(r, g, b))
  }

  /** The identifier of a pixel; it depends on the RGB channels only, never on alpha. */
  function PixelId(p: Pixel): string
  {
    IdentifyId(p.r, p.g, p.b)
  }

  lemma HexDigitValueOfChar(d: nat)
    requires d < 16
    ensures HexDigitValue(HexChar(d)) == d
  {
  }

  lemma HexValueOfHex2(v: byte)
    ensures HexValue(Hex2(v)) == v as int
  {
    var s := Hex2(v);
    assert s[..1] == [s[0]];
    assert [s[0]][..0] == [];
    HexDigitValueOfChar(v as int / 16);
    HexDigitValueOfChar(v as int % 16);
    assert HexValue(s[..1]) == HexDigitValue(s[0]);
    assert HexValue(s) == 16 * HexDigitValue(s[0]) + HexDigitValue(s[1]);
  }

  /** Appending two hex digits shifts the value left by one byte. */
  lemma HexValueAppend2(s: string, t: string)
    requires AllHexDigits(s) && AllHexDigits(t) && |t| == 2
    ensures AllHexDigits(s + t)
    ensures HexValue(s + t) == 256 * HexValue(s) + HexValue(t)
  {
    var u := s + t;
    var w := s + [t[0]];
    assert u[..|u| - 1] == w && u[|u| - 1] == t[1];
    assert w[..|w| - 1] == s && w[|w| - 1] == t[0];
    assert HexValue(w) == 16 * HexValue(s) + HexDigitValue(t[0]);
    assert t[..1] == [t[0]];
    assert [t[0]][..0] == [];
    assert HexValue(t[..1]) == HexDigitValue(t[0]);
    assert HexValue(t) == 16 * HexDigitValue(t[0]) + HexDigitValue(t[1]);
  }

  /** The hex round trip is exactly BGR byte-order packing into 24 bits. */
  lemma PackedIdIsBgr(r: byte, g: byte, b: byte)
    ensures PackedId(r, g, b) == (b as int) * 65536 + (g as int) * 256 + (r as int)
    ensures PackedId(r, g, b) < 0x100_0000
  {
    HexValueOfHex2(b);
    HexValueOfHex2(g);
    HexValueOfHex2(r);
    HexValueAppend2(Hex2(b), Hex2(g));
    HexValueAppend2(Hex2(b) + Hex2(g), Hex2(r));
  }

  /** Different triples of bytes pack to different integers. */
  lemma PackInjective(r1: int, g1: int, b1: int, r2: int, g2: int, b2: int)
    requires 0 <= r1 < 256 && 0 <= g1 < 256 && 0 <= b1 < 256
    requires 0 <= r2 < 256 && 0 <= g2 < 256 && 0 <= b2 < 256
    requires (r1, g1, b1) != (r2, g2, b2)
    ensures b1 * 65536 + g1 * 256 + r1 != b2 * 65536 + g2 * 256 + r2
  {
    if b1 != b2 {
      if b1 < b2 {
        assert b1 * 65536 + g1 * 256 + r1 < (b1 + 1) * 65536;
      } else {
        assert b2 * 65536 + g2 * 256 + r2 < (b2 + 1) * 65536;
      }
    } else if g1 != g2 {
      if g1 < g2 {
        assert g1 * 256 + r1 < (g1 + 1) * 256;
      } else {
        assert g2 * 256 + r2 < (g2 + 1) * 256;
      }
    }
  }

  /** Two colours get the same identifier exactly when their RGB triples agree. */
  lemma IdentifyIdInjective(r1: byte, g1: byte, b1: byte, r2: byte, g2: byte, b2: byte)
    ensures IdentifyId(r1, g1, b1) == IdentifyId(r2, g2, b2) <==> (r1, g1, b1) == (r2, g2, b2)
  {
    PackedIdIsBgr(r1, g1, b1);
    PackedIdIsBgr(r2, g2, b2);
    Decimal.RenderInjective(PackedId(r1, g1, b1), PackedId(r2, g2, b2));
    if (r1, g1, b1) != (r2, g2, b2) {
      PackInjective(r1 as int, g1 as int, b1 as int, r2 as int, g2 as int, b2 as int);
    }
  }

  /** R = 0x12, G = 0x34, B = 0x56 is object `str(0x563412)`, i.e. "5649426". */
  lemma IdentifyIdExample()
    ensures PackedId(0x12, 0x34, 0x56) == 0x563412
    ensures IdentifyId(0x12, 0x34, 0x56) == "5649426"
  {
    PackedIdIsBgr(0x12, 0x34, 0x56);
    assert Decimal.Render(5) == "5";
    assert Decimal.Render(56) == "56";
    assert Decimal.Render(564) == "564";
    assert Decimal.Render(5649) == "5649";
    assert Decimal.Render(56494) == "56494";
    assert Decimal.Render(564942) == "564942";
    assert Decimal.Render(5649426) == "5649426";
  }
}
