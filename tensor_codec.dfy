/**
 * The image-to-tensor layout: interleaved RGBA bytes of a `size` x `size` bitmap
 * become a planar [1, 3, size, size] float tensor (all reds, then all greens,
 * then all blues), and the planar-to-RGBA decode used for image-to-image models.
 */
module TensorCodec {
  import opened Imaging

  /** Channel `c` (0 red, 1 green, 2 blue) of every pixel, divided by 255. */
  function Plane(data: seq<byte>, n: nat, c: nat): (p: seq<real>)
    requires |data| == 4 * n && c < 3
    ensures |p| == n
  {
    seq(n, i requires 0 <= i < n => data[4 * i + c] as real / 255.0)
  }

  /** The planar tensor of `n` pixels: the three channel planes one after another. */
  function Planar(data: seq<byte>, n: nat): seq<real>
    requires |data| == 4 * n
  {
    Plane(data, n, 0) + Plane(data, n, 1) + Plane(data, n, 2)
  }

  /** Slots `i`, `i + n`, `i + 2n` hold the red, green and blue byte at offset `4i`, over 255. */
  lemma PlanarLayout(data: seq<byte>, n: nat, i: nat)
    requires |data| == 4 * n && i < n
    ensures |Planar(data, n)| == 3 * n
    ensures Planar(data, n)[i] == data[4 * i] as real / 255.0
    ensures Planar(data, n)[i + n] == data[4 * i + 1] as real / 255.0
    ensures Planar(data, n)[i + 2 * n] == data[4 * i + 2] as real / 255.0
  {
  }

  /** The alpha bytes are never read: bitmaps that differ only in alpha encode alike. */
  lemma PlanarIgnoresAlpha(a: seq<byte>, b: seq<byte>, n: nat)
    requires |a| == |b| == 4 * n
    requires forall j :: 0 <= j < |a| && j % 4 != 3 ==> a[j] == b[j]
    ensures Planar(a, n) == Planar(b, n)
  {
  }

  /** Slot `k` of a 3n-slot tensor has been written once pixel index `p` has passed it. */
  predicate Written(k: nat, n: nat, p: nat) {
    k < p || n <= k < n + p || 2 * n <= k < 2 * n + p
  }

  /** The three slots that pixel `p` of an `n`-pixel tensor fills. */
  predicate SlotOf(k: nat, n: nat, p: nat) {
    k == p || k == p + n || k == p + 2 * n
  }

  /**
   * The scan callback: the pixel at byte offset `idx == 4 * pixelIndex` fills
   * slots `pixelIndex`, `pixelIndex + n` and `pixelIndex + 2n`; `writes` counts
   * the assignments per slot.
   */
  method EncodePixel(t: array<real>, data: seq<byte>, n: nat, pixelIndex: nat, idx: nat, ghost writes: seq<nat>)
    returns (ghost writes': seq<nat>)
    requires |data| == 4 * n && t.Length == |writes| == 3 * n
    requires pixelIndex < n && idx == 4 * pixelIndex
    modifies t
    ensures |writes'| == 3 * n
    ensures forall k :: 0 <= k < 3 * n ==>
      && t[k] == (if SlotOf(k, n, pixelIndex) then Planar(data, n)[k] else old(t[k]))
      && writes'[k] == (if SlotOf(k, n, pixelIndex) then writes[k] + 1 else writes[k])
  {
    PlanarLayout(data, n, pixelIndex);
    t[pixelIndex] := data[idx] as real / 255.0;
    t[pixelIndex + n] := data[idx + 1] as real / 255.0;
    t[pixelIndex + 2 * n] := data[idx + 2] as real / 255.0;
    writes' := writes[pixelIndex := writes[pixelIndex] + 1][pixelIndex + n := writes[pixelIndex + n] + 1]
                     [pixelIndex + 2 * n := writes[pixelIndex + 2 * n] + 1];
  }

  /**
   * The encode loop: a row-major scan of a `size` x `size` bitmap with a running
   * `pixelIndex`; the pixel at (x, y) sits at byte offset `(size * y + x) * 4`.
   * `writes[k]` counts the assignments to slot `k`.
   */
  method EncodeTensor(data: seq<byte>, size: nat) returns (t: array<real>, ghost writes: seq<nat>)
    requires |data| == 4 * (size * size)
    ensures t.Length == 3 * (size * size)
    ensures t[..] == Planar(data, size * size)
    ensures |writes| == t.Length && forall k :: 0 <= k < |writes| ==> writes[k] == 1
  {
    var n := size * size;
    ghost var planar := Planar(data, n);
    t := new real[3 * n];
    writes := seq(3 * n, _ => 0);
    var pixelIndex := 0;
    var y := 0;
    while y < size
      invariant y <= size && pixelIndex == y * size
      invariant t.Length == |writes| == 3 * n
      invariant forall k :: 0 <= k < 3 * n ==> writes[k] == if Written(k, n, pixelIndex) then 1 else 0
      invariant forall k :: 0 <= k < 3 * n && Written(k, n, pixelIndex) ==> t[k] == planar[k]
    {
      var x := 0;
      while x < size
        invariant x <= size && pixelIndex == y * size + x
        invariant t.Length == |writes| == 3 * n
        invariant forall k :: 0 <= k < 3 * n ==> writes[k] == if Written(k, n, pixelIndex) then 1 else 0
        invariant forall k :: 0 <= k < 3 * n && Written(k, n, pixelIndex) ==> t[k] == planar[k]
      {
        PixelInRange(x, y, size, size);
        var idx := (size * y + x) * 4;
        assert idx == 4 * pixelIndex;
        writes := EncodePixel(t, data, n, pixelIndex, idx, writes);
        pixelIndex := pixelIndex + 1;
        x := x + 1;
      }
      assert pixelIndex == (y + 1) * size;
      y := y + 1;
    }
    assert pixelIndex == n;
    assert forall k :: 0 <= k < 3 * n ==> Written(k, n, pixelIndex);
  }

  /**
   * Byte `k` of a planar output scaled back to [0, 255]: `outputData[k] * 255`
   * clamped and truncated; a slot past the end reads as NaN, which stores as 0.
   */
  function ChannelByte(t: seq<real>, k: nat): byte {
    if k < |t| then StoreByte(Clamp(t[k] * 255.0)) else 0
  }

  /** Channel `c` of pixel `p` in the RGBA bitmap decoded from a planar tensor of `n` pixels. */
  function PlanarByte(t: seq<real>, n: nat, p: nat, c: nat): byte {
    if c == 0 then ChannelByte(t, p)
    else if c == 1 then ChannelByte(t, p + n)
    else if c == 2 then ChannelByte(t, p + 2 * n)
    else 255
  }

  /** The RGBA bitmap of `n` pixels decoded from a planar tensor, alpha opaque. */
  function FromPlanar(t: seq<real>, n: nat): (rgba: seq<byte>)
    ensures |rgba| == 4 * n
  {
    seq(4 * n, j requires 0 <= j => PlanarByte(t, n, j / 4, j % 4))
  }

  /** A buffer whose every pixel holds the decoded channels is the decoded bitmap. */
  lemma DecodedByPixels(rgba: array<byte>, t: seq<real>, n: nat)
    requires rgba.Length == 4 * n
    requires forall p, c :: 0 <= p < n && 0 <= c < 4 ==> rgba[4 * p + c] == PlanarByte(t, n, p, c)
    ensures rgba[..] == FromPlanar(t, n)
  {
  }

  /** The planar-to-RGBA loop of the image-to-image path, on a fresh bitmap. */
  method DecodePlanar(t: seq<real>, size: nat) returns (rgba: array<byte>)
    ensures rgba[..] == FromPlanar(t, size * size)
  {
    var n := size * size;
    rgba := new byte[4 * n];
    var i := 0;
    while i < n
      invariant i <= n && rgba.Length == 4 * n
      invariant forall p, c :: 0 <= p < i && 0 <= c < 4 ==> rgba[4 * p + c] == PlanarByte(t, n, p, c)
    {
      var r := ChannelByte(t, i);
      var g := ChannelByte(t, i + n);
      var b := ChannelByte(t, i + 2 * n);
      var pos := i * 4;
      rgba[pos] := r;
      rgba[pos + 1] := g;
      rgba[pos + 2] := b;
      rgba[pos + 3] := 255;
      i := i + 1;
    }
    DecodedByPixels(rgba, t, n);
  }

  /** `data` with every alpha byte set to 255. */
  function Opaque(data: seq<byte>): (r: seq<byte>)
    ensures |r| == |data|
  {
    seq(|data|, j requires 0 <= j < |data| => if j % 4 == 3 then 255 else data[j])
  }

  /** Decoding an encoded bitmap gives back its colour bytes, with alpha 255. */
  lemma DecodeInvertsEncode(data: seq<byte>, n: nat)
    requires |data| == 4 * n
    ensures FromPlanar(Planar(data, n), n) == Opaque(data)
  {
  }
}
