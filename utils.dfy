/**
 * The widget's numeric helpers: a three-way clamp and the packing of a
 * linear alpha into the top byte of a 32-bit ARGB colour.
 */
module Utils {
  import opened JavaLang

  /** Bits an alpha byte is shifted by inside an ARGB value. */
  const AlphaColorShifter: bv32 := 24

  /** `x` limited to `[a, b]`; the lower bound is tested first. */
  function Clamp(x: real, a: real, b: real): (r: real)
    ensures x < a ==> r == a
    ensures a <= x <= b ==> r == x
    ensures a <= x && b < x ==> r == b
    ensures a <= b ==> a <= r <= b
    ensures r == a || r == b || r == x
  {
    if x < a then a else if x > b then b else x
  }

  /**
   * The alpha byte computed from a linear alpha: 255 from 1 upward,
   * otherwise the Java cast of `alpha * 256`, which is not clamped below.
   */
  function AlphaByte(alpha: real): (i: int32)
    ensures alpha >= 1.0 ==> i == 255
    ensures 0.0 <= alpha < 1.0 ==> i as int == (alpha * 256.0).Floor && 0 <= i <= 255
    ensures alpha < 0.0 && alpha * 256.0 > IntMin as real ==> i as int == Trunc(alpha * 256.0) && i <= 0
    ensures alpha * 256.0 <= IntMin as real ==> i as int == IntMin
  {
    if alpha >= 1.0 then 255 else DoubleToInt(alpha * 256.0)
  }

  /** The low eight bits of a Java int, the only ones a left shift by 24 keeps. */
  function LowByte(i: int32): (b: bv8)
  {
    (i as int % 256) as bv8
  }

  /**
   * The colour `rgb` with its alpha byte replaced by the one computed from
   * `alpha`: the low 24 bits are those of `rgb`, the top byte is the low
   * byte of `AlphaByte(alpha)`.
   */
  function CombineColor(rgb: bv32, alpha: real): (argb: bv32)
    ensures argb & 0x00FF_FFFF == rgb & 0x00FF_FFFF
    ensures argb >> 24 == LowByte(AlphaByte(alpha)) as bv32
  {
    (rgb & 0x00FF_FFFF) | ((LowByte(AlphaByte(alpha)) as bv32) << AlphaColorShifter)
  }

  /** The original alpha byte of `rgb` has no influence on the result. */
  lemma CombineColorIgnoresInputAlpha(rgb1: bv32, rgb2: bv32, alpha: real)
    requires rgb1 & 0x00FF_FFFF == rgb2 & 0x00FF_FFFF
    ensures CombineColor(rgb1, alpha) == CombineColor(rgb2, alpha)
  {
  }

  /** From alpha 1 upward the colour is fully opaque. */
  lemma CombineColorOpaque(rgb: bv32, alpha: real)
    requires alpha >= 1.0
    ensures CombineColor(rgb, alpha) >> 24 == 0xFF
  {
  }

  /** For alpha in [0, 1) the alpha byte is floor(alpha * 256), a value in [0, 255]. */
  lemma CombineColorPartial(rgb: bv32, alpha: real)
    requires 0.0 <= alpha < 1.0
    ensures 0 <= (alpha * 256.0).Floor <= 255
    ensures CombineColor(rgb, alpha) >> 24 == (alpha * 256.0).Floor as bv32
  {
  }

  /** Alpha 0 gives a fully transparent colour. */
  lemma CombineColorTransparent(rgb: bv32)
    ensures CombineColor(rgb, 0.0) == rgb & 0x00FF_FFFF
  {
  }

  /**
   * A negative alpha is not clamped: the last tick of a fade-out leaves
   * alpha at 1 - 31 * 0.033 = -0.023, whose cast -5 wraps to the byte 0xFB.
   */
  lemma CombineColorLastFadeOutTick(rgb: bv32)
    ensures CombineColor(rgb, 1.0 - 31.0 * (33.0 / 1000.0)) >> 24 == 0xFB
  {
    assert Trunc(-0.023 * 256.0) == -5;
  }
}
