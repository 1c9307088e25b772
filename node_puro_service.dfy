/**
 * The standalone background service: it assembles the BRIA model from numbered
 * `.bin` chunks when it is constructed, and each request waits for that load
 * before it runs the 1024 x 1024 removal path.
 */
module NodePuroService {
  import opened Outcomes
  import opened Imaging
  import opened ChunkLoader
  import opened MaskCodec
  import opened Pipeline

  const ModelSize: nat := 1024
  const SharpenExponent: real := 2.2
  const InputName: string := "input"

  class BackgroundService {
    var sessionBRIA: Option<Session>
    /** The settled `loading` promise. */
    var loading: Settled

    /** A load that resolved left a session behind, and a rejected one did not. */
    ghost predicate Valid()
      reads this
    {
      loading.Resolved? <==> sessionBRIA.Some?
    }

    /**
     * Starts the load. `listing` is the chunk directory (`None` when it cannot
     * be read); `create` says whether the engine accepts a model buffer.
     */
    constructor (listing: Option<seq<Chunk>>, create: seq<byte> -> bool)
      ensures Valid()
      ensures loading.Resolved? <==> listing.Some? && AssembleModel(listing.value).Ok?
                                     && create(AssembleModel(listing.value).value)
      ensures sessionBRIA.Some? ==> sessionBRIA.value == Session(AssembleModel(listing.value).value)
      ensures listing.None? ==> loading == Rejected(ListingFailed)
      ensures listing.Some? && AssembleModel(listing.value).Err? ==> loading == Rejected(NoChunks)
      ensures listing.Some? && AssembleModel(listing.value).Ok? && !create(AssembleModel(listing.value).value) ==>
                loading == Rejected(SessionCreateFailed)
    {
      sessionBRIA := None;
      loading := Resolved;
      new;
      loading := LoadModel(listing, create);
    }

    /**
     * Lists the chunks, orders and joins them, and creates the session from the
     * joined buffer. Every failure is rethrown, so the outcome is the promise's.
     */
    method LoadModel(listing: Option<seq<Chunk>>, create: seq<byte> -> bool) returns (outcome: Settled)
      modifies this`sessionBRIA
      ensures listing.None? ==> outcome == Rejected(ListingFailed) && sessionBRIA == old(sessionBRIA)
      ensures listing.Some? && AssembleModel(listing.value).Err? ==>
                outcome == Rejected(NoChunks) && sessionBRIA == old(sessionBRIA)
      ensures listing.Some? && AssembleModel(listing.value).Ok? ==>
                var model := AssembleModel(listing.value).value;
                if create(model) then outcome == Resolved && sessionBRIA == Some(Session(model))
                else outcome == Rejected(SessionCreateFailed) && sessionBRIA == old(sessionBRIA)
    {
      if listing.None? {
        return Rejected(ListingFailed);
      }
      var files := ChunkOrder(listing.value);
      if |files| == 0 {
        return Rejected(NoChunks);
      }
      var modelBuffer := Concat(files);
      if !create(modelBuffer) {
        return Rejected(SessionCreateFailed);
      }
      sessionBRIA := Some(Session(modelBuffer));
      return Resolved;
    }

    /** Awaits the load (rethrowing its error) and then requires a session. */
    method EnsureLoaded() returns (g: Gate)
      ensures loading.Rejected? ==> g == Fail(loading.error)
      ensures loading.Resolved? && sessionBRIA.None? ==> g == Fail(ModelNotLoaded)
      ensures g.Pass? <==> loading.Resolved? && sessionBRIA.Some?
      ensures Valid() ==> (g.Pass? <==> loading.Resolved?)
    {
      if loading.Rejected? {
        return Fail(loading.error);
      }
      if sessionBRIA.None? {
        return Fail(ModelNotLoaded);
      }
      return Pass;
    }

    /**
     * The request path: gate, decode, stretch to 1024 x 1024, encode, infer,
     * decode the mask with exponent 2.2, stretch it back and composite.
     * Returns the composited image (its PNG encoding is not modelled).
     */
    method RemoveBackgroundBRIA(input: seq<byte>, decode: Decoder, sample: Sampler, engine: Engine, pow: Pow)
      returns (r: Result<Image>)
      ensures loading.Rejected? ==> r == Err(loading.error)
      ensures loading.Resolved? && sessionBRIA.None? ==> r == Err(ModelNotLoaded)
      ensures loading.Resolved? && sessionBRIA.Some? && decode(input).None? ==> r == Err(DecodeFailure)
      ensures loading.Resolved? && sessionBRIA.Some? && decode(input).Some? ==>
                r == Removed(decode(input).value, ModelSize, sample, sessionBRIA, InputName, engine, pow, SharpenExponent)
      ensures r.Ok? ==> loading.Resolved? && sessionBRIA.Some? && decode(input).Some?
    {
      var g := EnsureLoaded();
      if g.Fail? {
        return Err(g.error);
      }
      var decoded := decode(input);
      if decoded.None? {
        return Err(DecodeFailure);
      }
      r := RemoveBackgroundWith(decoded.value, ModelSize, sample, sessionBRIA, InputName, engine, pow, SharpenExponent);
    }
  }
}
