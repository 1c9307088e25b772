/**
 * The model's raw mask becomes a grey bitmap: each value is sharpened with
 * `Math.pow(m, exponent)`, scaled to [0, 255], clamped and broadcast into R, G
 * and B, with alpha fixed at 255.
 */
module MaskCodec {
  import opened Imaging

  /** `Math.pow`, left abstract. */
  type Pow = (real, real) -> real

  /** The grey level of one mask value: `clamp(pow(m, exponent) * 255)`, truncated on store. */
  function MaskLevel(m: real, pow: Pow, exponent: real): byte {
    StoreByte(Clamp(pow(m, exponent) * 255.0))
  }

  /** The level follows the sharpened value: 0 at or below 0, 255 at or above 1, monotone between. */
  lemma MaskLevelBounds(a: real, b: real, pow: Pow, exponent: real)
    ensures pow(a, exponent) <= 0.0 ==> MaskLevel(a, pow, exponent) == 0
    ensures pow(a, exponent) >= 1.0 ==> MaskLevel(a, pow, exponent) == 255
    ensures pow(a, exponent) <= pow(b, exponent) ==> MaskLevel(a, pow, exponent) <= MaskLevel(b, pow, exponent)
  {
  }

  /**
   * Channel `c` of pixel `p` of the mask bitmap: grey `MaskLevel(mask[p])` with
   * alpha 255 when the mask has a value for the pixel, transparent black otherwise.
   */
  function MaskByte(mask: seq<real>, pow: Pow, exponent: real, p: nat, c: nat): byte {
    if p >= |mask| then 0
    else if c == 3 then 255
    else MaskLevel(mask[p], pow, exponent)
  }

  /** The `n`-pixel mask bitmap. */
  function MaskBitmap(mask: seq<real>, n: nat, pow: Pow, exponent: real): (bytes: seq<byte>)
    ensures |bytes| == 4 * n
  {
    seq(4 * n, j requires 0 <= j => MaskByte(mask, pow, exponent, j / 4, j % 4))
  }

  /** Mask pixels are grey (R = G = B) and opaque. */
  lemma MaskIsGrey(mask: seq<real>, n: nat, pow: Pow, exponent: real, i: nat)
    requires i < n && i < |mask|
    ensures var bytes := MaskBitmap(mask, n, pow, exponent);
      && bytes[4 * i] == bytes[4 * i + 1] == bytes[4 * i + 2] == MaskLevel(mask[i], pow, exponent)
      && bytes[4 * i + 3] == 255
  {
  }

  /** A buffer whose every pixel holds its mask channels is the mask bitmap. */
  lemma MaskByPixels(bits: array<byte>, mask: seq<real>, n: nat, pow: Pow, exponent: real)
    requires bits.Length == 4 * n
    requires forall p, c :: 0 <= p < n && 0 <= c < 4 ==> bits[4 * p + c] == MaskByte(mask, pow, exponent, p, c)
    ensures bits[..] == MaskBitmap(mask, n, pow, exponent)
  {
  }

  /**
   * The mask loop: `for (i = 0; i < maskData.length; i++)` writes the four bytes at
   * `4i` of a fresh zeroed `size` x `size` bitmap. A Node buffer drops writes past
   * its end, so values beyond `size * size` have no effect.
   */
  method DecodeMask(mask: seq<real>, size: nat, pow: Pow, exponent: real) returns (bits: array<byte>)
    ensures bits[..] == MaskBitmap(mask, size * size, pow, exponent)
  {
    var n := size * size;
    bits := new byte[4 * n](_ => 0);  // a new bitmap is transparent black
    var i := 0;
    while i < |mask|
      invariant i <= |mask| && bits.Length == 4 * n
      invariant forall p, c :: 0 <= p < n && 0 <= c < 4 ==>
        bits[4 * p + c] == if p < i then MaskByte(mask, pow, exponent, p, c) else 0
    {
      var m := pow(mask[i], exponent);
      var v := Clamp(m * 255.0);
      var p := i * 4;
      if p < bits.Length {
        bits[p] := StoreByte(v);
        bits[p + 1] := StoreByte(v);
        bits[p + 2] := StoreByte(v);
        bits[p + 3] := 255;
      }
      i := i + 1;
    }
    MaskByPixels(bits, mask, n, pow, exponent);
  }
}
