/** Error values and the small failure-carrying datatypes shared by the service. */
module Outcomes {

  /** A value that may be absent (a JavaScript `null`, or a foreign call that threw). */
  datatype Option<+T> = None | Some(value: T)

  /** The ways a request or the model load can fail. */
  datatype Error =
    | ListingFailed        // the model directory could not be listed
    | NoChunks             // no `.bin` chunk was found
    | SessionCreateFailed  // the inference engine refused the assembled model
    | ModelNotLoaded       // the load gate found no session
    | DecodeFailure        // the uploaded bytes are not an image
    | NullSession          // `session!.run` called on a null session (a TypeError)
    | InferenceFailure     // the engine's `run` threw
    | NoOutput             // the engine returned an empty output map

  datatype Result<+T> = Ok(value: T) | Err(error: Error)

  /** Outcome of a load gate (`ensureLoaded` / `ensureSession`). */
  datatype Gate = Pass | Fail(error: Error)

  /** A settled `loading` promise. */
  datatype Settled = Resolved | Rejected(error: Error)
}
