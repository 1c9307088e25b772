/**
 * Alpha compositing: a clone of the original image gets, at every pixel, the red
 * byte of the resized mask as its alpha; colour bytes are left alone.
 */
module Compositor {
  import opened Imaging

  /** The composited bytes: alpha from the mask pixel at the same offset, everything else from `orig`. */
  function Composited(orig: Image, mask: Image): (data: seq<byte>)
    requires mask.width == orig.width && mask.height == orig.height
    ensures |data| == |orig.data|
  {
    seq(|orig.data|, j requires 0 <= j < |orig.data| => if j % 4 == 3 then mask.data[j - 3] else orig.data[j])
  }

  /**
   * At pixel (x, y), with offset `(y * W + x) * 4`, the colour bytes are the
   * original's and the alpha byte is the mask's red byte.
   */
  lemma CompositedPixel(orig: Image, mask: Image, x: nat, y: nat)
    requires mask.width == orig.width && mask.height == orig.height
    requires x < orig.width && y < orig.height
    ensures var p := (y * orig.width + x) * 4;
      && p + 3 < |Composited(orig, mask)|
      && Composited(orig, mask)[p] == orig.data[p]
      && Composited(orig, mask)[p + 1] == orig.data[p + 1]
      && Composited(orig, mask)[p + 2] == orig.data[p + 2]
      && Composited(orig, mask)[p + 3] == mask.data[p]
  {
    PixelInRange(x, y, orig.width, orig.height);
  }

  /**
   * `image.clone()` followed by a scan that sets byte `idx + 3` of every pixel to
   * the mask byte at `(y * maskWidth + x) * 4`. The original is a value and is
   * not touched; the result is a fresh buffer.
   */
  method Composite(orig: Image, mask: Image) returns (out: array<byte>)
    requires mask.width == orig.width && mask.height == orig.height
    ensures fresh(out)
    ensures out[..] == Composited(orig, mask)
  {
    var w, h := orig.width, orig.height;
    ghost var want := Composited(orig, mask);
    out := new byte[|orig.data|](j requires 0 <= j < |orig.data| => orig.data[j]);
    var y := 0;
    while y < h
      invariant y <= h && out.Length == |orig.data|
      invariant forall j :: 0 <= j < out.Length ==>
        out[j] == if j % 4 == 3 && j / 4 < y * w then want[j] else orig.data[j]
    {
      var x := 0;
      while x < w
        invariant x <= w && out.Length == |orig.data|
        invariant forall j :: 0 <= j < out.Length ==>
          out[j] == if j % 4 == 3 && j / 4 < y * w + x then want[j] else orig.data[j]
      {
        PixelInRange(x, y, w, h);
        ghost var p := y * w + x;
        var idx := (w * y + x) * 4;
        assert idx == 4 * p;
        out[idx + 3] := mask.data[(y * mask.width + x) * 4];
        x := x + 1;
      }
      assert y * w + w == (y + 1) * w;
      y := y + 1;
    }
  }
}
