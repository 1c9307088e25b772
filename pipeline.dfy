/**
 * One background-removal pass, shared by every removal path: stretch the image
 * to the model's square, encode it, run the engine, decode the mask, stretch the
 * mask back and use it as the alpha channel of a clone of the original.
 */
module Pipeline {
  import opened Outcomes
  import opened Imaging
  import opened TensorCodec
  import opened MaskCodec
  import opened Compositor

  /** A created inference session, known by the model bytes it was built from. */
  datatype Session = Session(model: seq<byte>)

  /** `Jimp.read`, left abstract: `None` when the bytes are not an image. */
  type Decoder = seq<byte> -> Option<Image>

  /** The engine's output map, in key insertion order. */
  type Outputs = seq<(string, seq<real>)>

  /** `session.run({ [inputName]: tensor })`, left abstract; `None` when it throws. */
  type Engine = (Session, string, seq<real>) -> Option<Outputs>

  /**
   * `session!.run(...)` followed by `output[Object.keys(output)[0]].data`: the
   * first output whatever its name; a null session or an empty map fails.
   */
  function Infer(session: Option<Session>, inputName: string, tensor: seq<real>, engine: Engine): (r: Result<seq<real>>)
    ensures session.None? ==> r == Err(NullSession)
    ensures r.Ok? <==> session.Some? && engine(session.value, inputName, tensor).Some?
                       && engine(session.value, inputName, tensor).value != []
    ensures r.Ok? ==> r.value == engine(session.value, inputName, tensor).value[0].1
  {
    match session
    case None => Err(NullSession)
    case Some(s) =>
      match engine(s, inputName, tensor)
      case None => Err(InferenceFailure)
      case Some(outputs) => if outputs == [] then Err(NoOutput) else Ok(outputs[0].1)
  }

  /** The tensor the model is fed: the image stretched to `size` x `size`, then encoded. */
  function InputTensor(orig: Image, size: nat, sample: Sampler): seq<real> {
    Planar(Resize(orig, size, size, sample).data, size * size)
  }

  /** The decoded mask, stretched back to the original's dimensions. */
  function MaskFor(orig: Image, size: nat, sample: Sampler, mask: seq<real>, pow: Pow, exponent: real): Image {
    Resize(Bitmap(size, size, MaskBitmap(mask, size * size, pow, exponent)), orig.width, orig.height, sample)
  }

  /** What a removal path returns for an already decoded image. */
  function Removed(orig: Image, size: nat, sample: Sampler, session: Option<Session>, inputName: string,
                   engine: Engine, pow: Pow, exponent: real): (r: Result<Image>)
    ensures r.Err? <==> Infer(session, inputName, InputTensor(orig, size, sample), engine).Err?
    ensures r.Ok? ==> session.Some?
    ensures r.Ok? ==> r.value.width == orig.width && r.value.height == orig.height
    ensures r.Ok? ==> forall j :: 0 <= j < |orig.data| && j % 4 != 3 ==> r.value.data[j] == orig.data[j]
  {
    match Infer(session, inputName, InputTensor(orig, size, sample), engine)
    case Err(e) => Err(e)
    case Ok(mask) => Ok(Bitmap(orig.width, orig.height, Composited(orig, MaskFor(orig, size, sample, mask, pow, exponent))))
  }

  /**
   * In a successful removal the alpha byte of pixel (x, y) is the red byte of the
   * stretched mask at `(y * W + x) * 4`, and the colour bytes are the original's.
   */
  lemma RemovedPixel(orig: Image, size: nat, sample: Sampler, session: Option<Session>, inputName: string,
                     engine: Engine, pow: Pow, exponent: real, x: nat, y: nat)
    requires Removed(orig, size, sample, session, inputName, engine, pow, exponent).Ok?
    requires x < orig.width && y < orig.height
    ensures var out := Removed(orig, size, sample, session, inputName, engine, pow, exponent).value;
      var mask := MaskFor(orig, size, sample, Infer(session, inputName, InputTensor(orig, size, sample), engine).value, pow, exponent);
      var p := (y * orig.width + x) * 4;
      && p + 3 < |out.data|
      && out.data[p] == orig.data[p] && out.data[p + 1] == orig.data[p + 1] && out.data[p + 2] == orig.data[p + 2]
      && out.data[p + 3] == mask.data[p]
  {
    var mask := MaskFor(orig, size, sample, Infer(session, inputName, InputTensor(orig, size, sample), engine).value, pow, exponent);
    CompositedPixel(orig, mask, x, y);
  }

  /**
   * The removal steps after decoding: resize and encode, run, decode the mask,
   * resize it back, composite onto a clone of `orig`.
   */
  method RemoveBackgroundWith(orig: Image, size: nat, sample: Sampler, session: Option<Session>, inputName: string,
                              engine: Engine, pow: Pow, exponent: real) returns (r: Result<Image>)
    ensures r == Removed(orig, size, sample, session, inputName, engine, pow, exponent)
  {
    var resized := Resize(orig, size, size, sample);
    var tensor;
    ghost var writes;
    tensor, writes := EncodeTensor(resized.data, size);
    var output := Infer(session, inputName, tensor[..], engine);
    if output.Err? {
      return Err(output.error);
    }
    var maskBits := DecodeMask(output.value, size, pow, exponent);
    var maskImg := Bitmap(size, size, maskBits[..]);
    var maskResized := Resize(maskImg, orig.width, orig.height, sample);
    var out := Composite(orig, maskResized);
    r := Ok(Bitmap(orig.width, orig.height, out[..]));
  }
}
