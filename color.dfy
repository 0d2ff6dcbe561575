/** RGB565 colour packing used by the SSD1339 driver (SSD1339.rgb). */
module Color {

  /** Pack three 8-bit channels into a 16-bit RGB565 word: the top five bits
      of red land in bits 15..11, the top six bits of green in bits 10..5 and
      the top five bits of blue in bits 4..0. */
  function Rgb(r: bv8, g: bv8, b: bv8): (c: bv16)
    ensures c >> 11 == (r >> 3) as bv16
    ensures (c >> 5) & 0x3F == (g >> 2) as bv16
    ensures c & 0x1F == (b >> 3) as bv16
  {
    (((r & 0xF8) as bv16) << 8) | (((g & 0xFC) as bv16) << 3) | ((b >> 3) as bv16)
  }

  /** Two colours pack to the same word exactly when they agree on the top
      5/6/5 bits of their channels: the encoding is lossy in the low bits and
      in nothing else. */
  lemma RgbSameWord(r1: bv8, g1: bv8, b1: bv8, r2: bv8, g2: bv8, b2: bv8)
    ensures Rgb(r1, g1, b1) == Rgb(r2, g2, b2)
        <==> r1 >> 3 == r2 >> 3 && g1 >> 2 == g2 >> 2 && b1 >> 3 == b2 >> 3
  {
    if r1 >> 3 == r2 >> 3 && g1 >> 2 == g2 >> 2 && b1 >> 3 == b2 >> 3 {
      SameHighBitsSameWord(r1, g1, b1, r2, g2, b2);
    }
    if Rgb(r1, g1, b1) == Rgb(r2, g2, b2) {
      SameWordSameHighBits(r1, g1, b1, r2, g2, b2);
    }
  }

  /** The "if" half of RgbSameWord. */
  lemma SameHighBitsSameWord(r1: bv8, g1: bv8, b1: bv8, r2: bv8, g2: bv8, b2: bv8)
    requires r1 >> 3 == r2 >> 3 && g1 >> 2 == g2 >> 2 && b1 >> 3 == b2 >> 3
    ensures Rgb(r1, g1, b1) == Rgb(r2, g2, b2)
  {
  }

  /** The "only if" half of RgbSameWord. */
  lemma SameWordSameHighBits(r1: bv8, g1: bv8, b1: bv8, r2: bv8, g2: bv8, b2: bv8)
    requires Rgb(r1, g1, b1) == Rgb(r2, g2, b2)
    ensures r1 >> 3 == r2 >> 3 && g1 >> 2 == g2 >> 2 && b1 >> 3 == b2 >> 3
  {
  }

  /** Only the high bits of each channel matter. */
  lemma RgbHighBitsOnly(r: bv8, g: bv8, b: bv8)
    ensures Rgb(r, g, b) == Rgb(r & 0xF8, g & 0xFC, b & 0xF8)
  {
    RgbSameWord(r, g, b, r & 0xF8, g & 0xFC, b & 0xF8);
  }
}
