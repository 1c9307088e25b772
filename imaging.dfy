/** Decoded bitmaps as the image library holds them: interleaved RGBA bytes, row-major. */
module Imaging {

  newtype byte = x: int | 0 <= x < 256

  datatype Bitmap = Bitmap(width: nat, height: nat, data: seq<byte>)
  {
    /** Four bytes (R, G, B, A) per pixel. */
    predicate WellFormed() {
      |data| == 4 * (width * height)
    }
  }

  type Image = b: Bitmap | b.WellFormed() witness Bitmap(0, 0, [])

  /**
   * The image library's resampling, left abstract: `sample(img, w, h, k)` is byte `k`
   * of `img` resized to `w` x `h`. Nothing is assumed about it.
   */
  type Sampler = (Image, nat, nat, nat) -> byte

  /** `img.resize(w, h)`: a stretch to exactly `w` x `h`, no letterboxing. */
  function Resize(img: Image, w: nat, h: nat, sample: Sampler): (r: Image)
    ensures r.width == w && r.height == h
  {
    Bitmap(w, h, seq(4 * (w * h), k requires 0 <= k => sample(img, w, h, k)))
  }

  /** `Math.min(Math.max(v, 0), 255)` on a number that is not NaN. */
  function Clamp(v: real): (r: real)
    ensures 0.0 <= r <= 255.0
    ensures 0.0 <= v <= 255.0 ==> r == v
  {
    if v < 0.0 then 0.0 else if v > 255.0 then 255.0 else v
  }

  /** Storing a number in [0, 255] into a byte buffer truncates it. */
  function StoreByte(v: real): (b: byte)
    requires 0.0 <= v <= 255.0
    ensures b as real <= v < b as real + 1.0
  {
    v.Floor as byte
  }

  /** Every pixel of a `w` x `h` scan lies inside the bitmap. */
  lemma PixelInRange(x: nat, y: nat, w: nat, h: nat)
    requires x < w && y < h
    ensures y * w + x < w * h
  {
    calc {
      y * w + x;
    <  y * w + w;
    == (y + 1) * w;
    <= { MulMonotone(y + 1, h, w); }
       h * w;
    }
  }

  lemma MulMonotone(a: nat, b: nat, c: nat)
    requires a <= b
    ensures a * c <= b * c
  {
  }
}
