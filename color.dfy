/**
 * 16-bit RGB565 colours, as produced by `rgb_to_565` in lib/squixl_ui_EX.py.
 * The channels are the 0..255 values the function documents, so they are bytes;
 * the packed value is a 16-bit word: bits 15..11 red, 10..5 green, 4..0 blue.
 */
module Color {

  /** Pack three 8-bit channels: blue keeps its top 5 bits, green its top 6, red its top 5. */
  function Rgb565(r: bv8, g: bv8, b: bv8): (c: bv16)
    ensures c >> 11 == (r >> 3) as bv16
    ensures (c >> 5) & 0x3F == (g >> 2) as bv16
    ensures c & 0x1F == (b >> 3) as bv16
  {
    var u: bv16 := (b as bv16) >> 3;
    var u := u | (((g as bv16) >> 2) << 5);
    u | (((r as bv16) >> 3) << 11)
  }

  /** Two colours are equal exactly when all three truncated channels agree. */
  lemma Rgb565Injective(r1: bv8, g1: bv8, b1: bv8, r2: bv8, g2: bv8, b2: bv8)
    ensures Rgb565(r1, g1, b1) == Rgb565(r2, g2, b2) <==>
            r1 >> 3 == r2 >> 3 && g1 >> 2 == g2 >> 2 && b1 >> 3 == b2 >> 3
  {
    if r1 >> 3 == r2 >> 3 && g1 >> 2 == g2 >> 2 && b1 >> 3 == b2 >> 3 {
      assert Rgb565(r1, g1, b1) == Rgb565(r2, g2, b2);
    }
  }

  /** The pure primaries land in their own fields. */
  lemma Primaries()
    ensures Rgb565(255, 0, 0) == 0xF800
    ensures Rgb565(0, 255, 0) == 0x07E0
    ensures Rgb565(0, 0, 255) == 0x001F
    ensures Rgb565(255, 255, 255) == 0xFFFF
  {
  }
}
