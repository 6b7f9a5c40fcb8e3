/**
 * The colour codec of src/utils.ts (repeated verbatim in src/color.ts): an RGB
 * colour packed into one number as a web-colour hex triplet with an extra bias
 * bit `1 << 24`, so that no packed colour is ever `0` or `undefined`.
 */
module ColorCodec {
  import opened JsNumbers

  /** An `{r, g, b}` record; the fields are JavaScript numbers. */
  datatype Color = Color(r: int, g: int, b: int)

  /** Every channel is a byte, as it is whenever the colour was read from a `Uint8Array`. */
  predicate IsByteColor(c: Color)
  {
    0 <= c.r < 256 && 0 <= c.g < 256 && 0 <= c.b < 256
  }

  const BIAS: int := 0x100_0000

  /** `toHexTriplet`'s packing: a leading 1 bit above red, green and blue shifted into place; the additions are plain number additions. */
  function ToHexTriplet(c: Color): (h: int)
    ensures IsByteColor(c) ==> BIAS <= h < 2 * BIAS
  {
    ByteShifts(c);
    ShiftLeft(1, 24) + ShiftLeft(c.r, 16) + ShiftLeft(c.g, 8) + c.b
  }

  /** The unpacking: green and blue are masked to a byte, the red channel is everything above bit 16, unmasked. */
  function FromHexTriplet(h: int): (c: Color)
    ensures 0 <= c.g < 256 && 0 <= c.b < 256
    ensures -0x8000 <= c.r < 0x8000
  {
    PowersOfTwo();
    Color(ShiftRight(h, 16), And255(ShiftRight(h, 8)), And255(h))
  }

  /** A colour as it comes back once each channel has been stored into a `Uint8Array`. */
  function StoreBytes(c: Color): Color
  {
    Color(ToUint8(c.r) as int, ToUint8(c.g) as int, ToUint8(c.b) as int)
  }

  /** On byte colours the packed value is the bias plus the three channels in base 256. */
  lemma ToHexTripletValue(c: Color)
    requires IsByteColor(c)
    ensures ToHexTriplet(c) == BIAS + c.r * 0x1_0000 + c.g * 0x100 + c.b
  {
    ByteShifts(c);
  }

  /** On byte channels the three shifts do not wrap: they are multiplications by powers of two. */
  lemma ByteShifts(c: Color)
    ensures IsByteColor(c) ==>
      ShiftLeft(1, 24) == BIAS && ShiftLeft(c.r, 16) == c.r * 0x1_0000 && ShiftLeft(c.g, 8) == c.g * 0x100
  {
    if IsByteColor(c) {
      assert Pow2(8) == 0x100 && Pow2(16) == 0x1_0000 && Pow2(24) == BIAS by {
        PowersOfTwo();
      }
      assert 0 <= c.r * 0x1_0000 < TWO_31;
      assert 0 <= c.g * 0x100 < TWO_31;
    }
  }

  lemma PowersOfTwo()
    ensures Pow2(8) == 0x100 && Pow2(16) == 0x1_0000 && Pow2(24) == 0x100_0000
  {
    assert Pow2(4) == 16;
    assert Pow2(8) == 256;
    assert Pow2(12) == 4096;
    assert Pow2(16) == 0x1_0000;
    assert Pow2(20) == 0x10_0000;
  }

  /** Decoding a packed byte colour gives `g` and `b` back exactly and `r + 256` for red. */
  lemma FromToHexTriplet(c: Color)
    requires IsByteColor(c)
    ensures FromHexTriplet(ToHexTriplet(c)) == Color(c.r + 256, c.g, c.b)
  {
    ToHexTripletValue(c);
    PowersOfTwo();
    var h := ToHexTriplet(c);
    assert ToInt32(h) == h;
    assert h == (256 + c.r) * 0x1_0000 + (c.g * 0x100 + c.b);
    DivModUnique(h, 0x1_0000, 256 + c.r, c.g * 0x100 + c.b);
    var q := (256 + c.r) * 0x100 + c.g;
    assert h == q * 0x100 + c.b;
    DivModUnique(h, 0x100, q, c.b);
    assert ShiftRight(h, 8) == q;
    assert 0 <= q < TWO_31;
    DivModUnique(q, 256, 256 + c.r, c.g);
    assert And255(q) == c.g;
  }

  /** The exact round trip holds once the decoded channels are stored as bytes. */
  lemma RoundTripThroughBytes(c: Color)
    requires IsByteColor(c)
    ensures StoreBytes(FromHexTriplet(ToHexTriplet(c))) == c
  {
    FromToHexTriplet(c);
    DivModUnique(c.r + 256, 256, 1, c.r);
    DivModUnique(c.g, 256, 0, c.g);
    DivModUnique(c.b, 256, 0, c.b);
  }

  /** The unmasked red channel: decoding never returns the colour itself. */
  lemma RedIsBiased(c: Color)
    requires IsByteColor(c)
    ensures FromHexTriplet(ToHexTriplet(c)) != c
    ensures FromHexTriplet(ToHexTriplet(c)).r % 256 == c.r
  {
    FromToHexTriplet(c);
    DivModUnique(c.r + 256, 256, 1, c.r);
  }

  /** Distinct byte colours pack to distinct numbers, so mask equality is colour equality. */
  lemma ToHexTripletInjective(c1: Color, c2: Color)
    requires IsByteColor(c1) && IsByteColor(c2)
    ensures ToHexTriplet(c1) == ToHexTriplet(c2) <==> c1 == c2
  {
    if ToHexTriplet(c1) == ToHexTriplet(c2) {
      FromToHexTriplet(c1);
      FromToHexTriplet(c2);
    }
  }
}
