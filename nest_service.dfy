/**
 * The framework-hosted background service. It loads only the BRIA session, and
 * its gate checks a `session` field that nothing assigns, so every gated path
 * fails once the load has settled; the ungated 320 x 320 path fails on the same
 * null session when it reaches inference.
 */
module NestService {
  import opened Outcomes
  import opened Imaging
  import opened TensorCodec
  import opened MaskCodec
  import opened Pipeline

  const U2NetSize: nat := 320
  const U2NetExponent: real := 1.5
  const U2NetInput: string := "input.1"

  const BriaSize: nat := 1024
  const BriaExponent: real := 2.2
  const BriaInput: string := "input"

  const Model20Size: nat := 1024
  const Model20Exponent: real := 2.2
  const Model20Input: string := "pixel_values"

  const GanSize: nat := 512
  const GanInput: string := "input_image"

  /** The image-to-image path after decoding: the model's planar output read back as RGBA. */
  function Animated(orig: Image, sample: Sampler, session: Option<Session>, engine: Engine): (r: Result<Image>)
    ensures r.Err? <==> Infer(session, GanInput, InputTensor(orig, GanSize, sample), engine).Err?
    ensures r.Ok? ==> r.value.width == GanSize && r.value.height == GanSize
  {
    match Infer(session, GanInput, InputTensor(orig, GanSize, sample), engine)
    case Err(e) => Err(e)
    case Ok(t) => Ok(Bitmap(GanSize, GanSize, FromPlanar(t, GanSize * GanSize)))
  }

  /**
   * With an engine that hands its input back, the image-to-image path returns
   * the stretched image's colour bytes unchanged, with alpha 255.
   */
  lemma AnimatedEcho(orig: Image, sample: Sampler, s: Session, engine: Engine)
    requires var out := engine(s, GanInput, InputTensor(orig, GanSize, sample));
      out.Some? && out.value != [] && out.value[0].1 == InputTensor(orig, GanSize, sample)
    ensures Animated(orig, sample, Some(s), engine)
            == Ok(Bitmap(GanSize, GanSize, Opaque(Resize(orig, GanSize, GanSize, sample).data)))
  {
    DecodeInvertsEncode(Resize(orig, GanSize, GanSize, sample).data, GanSize * GanSize);
  }

  class BackgroundService {
    var session: Option<Session>
    var sessionBRIA: Option<Session>
    var sessionMODEL20: Option<Session>
    var sessionGANv2: Option<Session>
    /** The settled `loading` promise. */
    var loading: Settled

    /**
     * Only `sessionBRIA` is ever assigned; the load rejects only when the model
     * directory cannot be listed.
     */
    ghost predicate Valid()
      reads this
    {
      && session.None? && sessionMODEL20.None? && sessionGANv2.None?
      && (loading.Rejected? ==> loading == Rejected(ListingFailed) && sessionBRIA.None?)
    }

    /**
     * Starts the load. `listingOk` says whether the model directory can be
     * listed; `bria` is the session the engine creates from `bria.onnx`
     * (`None` when creation throws).
     */
    constructor (listingOk: bool, bria: Option<Session>)
      ensures Valid()
      ensures loading == if listingOk then Resolved else Rejected(ListingFailed)
      ensures sessionBRIA == if listingOk then bria else None
    {
      session, sessionBRIA, sessionMODEL20, sessionGANv2 := None, None, None, None;
      loading := Resolved;
      new;
      loading := LoadModel(listingOk, bria);
    }

    /**
     * The listing sits outside the `try`, so only it can reject the promise; a
     * failed session creation is logged and swallowed.
     */
    method LoadModel(listingOk: bool, bria: Option<Session>) returns (outcome: Settled)
      modifies this`sessionBRIA
      ensures !listingOk ==> outcome == Rejected(ListingFailed) && sessionBRIA == old(sessionBRIA)
      ensures listingOk ==> outcome == Resolved
      ensures listingOk ==> sessionBRIA == if bria.Some? then bria else old(sessionBRIA)
    {
      if !listingOk {
        return Rejected(ListingFailed);
      }
      if bria.Some? {
        sessionBRIA := bria;
      }
      return Resolved;
    }

    /** Awaits the load (rethrowing its error) and then requires `session`. */
    method EnsureSession() returns (g: Gate)
      ensures loading.Rejected? ==> g == Fail(loading.error)
      ensures loading.Resolved? && session.None? ==> g == Fail(ModelNotLoaded)
      ensures g.Pass? <==> loading.Resolved? && session.Some?
      ensures Valid() ==> g.Fail?
    {
      if loading.Rejected? {
        return Fail(loading.error);
      }
      if session.None? {
        return Fail(ModelNotLoaded);
      }
      return Pass;
    }

    /** The 320 x 320 path: no gate, exponent 1.5, inference on `session`. */
    method RemoveBackground(input: seq<byte>, decode: Decoder, sample: Sampler, engine: Engine, pow: Pow)
      returns (r: Result<Image>)
      ensures decode(input).None? ==> r == Err(DecodeFailure)
      ensures decode(input).Some? ==>
                r == Removed(decode(input).value, U2NetSize, sample, session, U2NetInput, engine, pow, U2NetExponent)
      ensures Valid() ==> r.Err?
    {
      var decoded := decode(input);
      if decoded.None? {
        return Err(DecodeFailure);
      }
      r := RemoveBackgroundWith(decoded.value, U2NetSize, sample, session, U2NetInput, engine, pow, U2NetExponent);
    }

    /** The 1024 x 1024 BRIA path behind `EnsureSession`. */
    method RemoveBackgroundBRIA(input: seq<byte>, decode: Decoder, sample: Sampler, engine: Engine, pow: Pow)
      returns (r: Result<Image>)
      ensures loading.Rejected? ==> r == Err(loading.error)
      ensures loading.Resolved? && session.None? ==> r == Err(ModelNotLoaded)
      ensures loading.Resolved? && session.Some? && decode(input).None? ==> r == Err(DecodeFailure)
      ensures loading.Resolved? && session.Some? && decode(input).Some? ==>
                r == Removed(decode(input).value, BriaSize, sample, sessionBRIA, BriaInput, engine, pow, BriaExponent)
      ensures Valid() ==> r.Err?
    {
      var g := EnsureSession();
      if g.Fail? {
        return Err(g.error);
      }
      var decoded := decode(input);
      if decoded.None? {
        return Err(DecodeFailure);
      }
      r := RemoveBackgroundWith(decoded.value, BriaSize, sample, sessionBRIA, BriaInput, engine, pow, BriaExponent);
    }

    /** The 1024 x 1024 MODEL20 path behind `EnsureSession`, on `sessionMODEL20`. */
    method RemoveBackgroundMODEL20(input: seq<byte>, decode: Decoder, sample: Sampler, engine: Engine, pow: Pow)
      returns (r: Result<Image>)
      ensures loading.Rejected? ==> r == Err(loading.error)
      ensures loading.Resolved? && session.None? ==> r == Err(ModelNotLoaded)
      ensures loading.Resolved? && session.Some? && decode(input).None? ==> r == Err(DecodeFailure)
      ensures loading.Resolved? && session.Some? && decode(input).Some? ==>
                r == Removed(decode(input).value, Model20Size, sample, sessionMODEL20, Model20Input, engine, pow, Model20Exponent)
      ensures Valid() ==> r.Err?
    {
      var g := EnsureSession();
      if g.Fail? {
        return Err(g.error);
      }
      var decoded := decode(input);
      if decoded.None? {
        return Err(DecodeFailure);
      }
      r := RemoveBackgroundWith(decoded.value, Model20Size, sample, sessionMODEL20, Model20Input, engine, pow, Model20Exponent);
    }

    /**
     * The 512 x 512 image-to-image path behind `EnsureSession`: encode, run on
     * `sessionGANv2`, and read the planar output back into an opaque bitmap.
     */
    method AnimateGANv2(input: seq<byte>, decode: Decoder, sample: Sampler, engine: Engine)
      returns (r: Result<Image>)
      ensures loading.Rejected? ==> r == Err(loading.error)
      ensures loading.Resolved? && session.None? ==> r == Err(ModelNotLoaded)
      ensures loading.Resolved? && session.Some? && decode(input).None? ==> r == Err(DecodeFailure)
      ensures loading.Resolved? && session.Some? && decode(input).Some? ==>
                r == Animated(decode(input).value, sample, sessionGANv2, engine)
      ensures Valid() ==> r.Err?
    {
      var g := EnsureSession();
      if g.Fail? {
        return Err(g.error);
      }
      var decoded := decode(input);
      if decoded.None? {
        return Err(DecodeFailure);
      }
      var resized := Resize(decoded.value, GanSize, GanSize, sample);
      var tensor;
      ghost var writes;
      tensor, writes := EncodeTensor(resized.data, GanSize);
      var output := Infer(sessionGANv2, GanInput, tensor[..], engine);
      if output.Err? {
        return Err(output.error);
      }
      var rgba := DecodePlanar(output.value, GanSize);
      r := Ok(Bitmap(GanSize, GanSize, rgba[..]));
    }
  }
}
