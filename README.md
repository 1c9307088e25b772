# Background removal service — a Dafny model

This project models the core of a background-removal service. The service takes an uploaded image. It stretches the image to the square input of a segmentation model (ONNX) and encodes it as a planar float tensor. It runs the model and turns the model's raw mask into a grey bitmap with an edge-sharpening power. It stretches that mask back to the original size and writes it into the alpha channel of a clone of the original. The model covers two versions of the service class `BackgroundService`:

- `NODE_PURO/src/background/background.service.ts`, the standalone version. When constructed it assembles the BRIA model from numbered `.bin` chunk files. Each request waits on the load gate `ensureLoaded`, which rethrows a failed load.
- `src/background/background.service.ts`, the framework-hosted version. It loads `bria.onnx` and swallows creation errors. Its gate `ensureSession` checks a `session` field that is never assigned. It has four paths: `removeBackground` (320 × 320, exponent 1.5, no gate), `removeBackgroundBRIA`, `removeBackgroundMODEL20` (1024 × 1024, exponent 2.2) and `animateGANv2` (512 × 512, image-to-image).

Modules:

- `Outcomes`: error values, `Option`, `Result`, the gate outcome and the settled `loading` promise.
- `Imaging`: RGBA bitmaps as a byte sequence, the abstract resize, the clamp and the truncating byte store.
- `ChunkLoader`: the chunk pipeline in its pure form, as functions. It filters `.bin` names, sorts them stably by the first decimal run of the name, and concatenates the contents.
- `TensorCodec`: the interleaved-to-planar encode loop (a `pixelIndex` counter inside a row-major scan). It also holds the planar-to-RGBA decode loop of `animateGANv2`.
- `MaskCodec`: the mask loop.
- `Compositor`: the clone-and-scan that overwrites alpha bytes.
- `Pipeline`: one removal pass, shared by all removal paths.
- `NodePuroService`, `NestService`: the two classes, with their session fields, the `loading` outcome, the load methods, the gates and the request paths.

The model follows the code as written:

- The code stretches the image to the model square with a plain `resize`. It does no letterboxing.
- The code has no inference queue. Concurrent requests share the session.
- In `src/`, a failed session creation is logged and swallowed. A failed directory listing still rejects `loading`, and every gated request then fails with it.

Inputs that come from outside are passed as parameters:

- the directory listing, with each file's bytes;
- whether the engine accepts a model buffer;
- the image decoder;
- the resampler;
- the engine's `run`;
- `Math.pow`.

## Model

| member | source | states |
|---|---|---|
| `ChunkLoader.Bins` | NODE_PURO/src/background/background.service.ts:24-26 | every kept entry's name ends in `.bin`, and each `.bin` entry is kept exactly as often as it is listed; other entries are dropped |
| `ChunkLoader.ChunkIndexIsFirstRun` | NODE_PURO/src/background/background.service.ts:28-29 | a name's sort key is the decimal value of its first maximal run of digits (leading zeros allowed) |
| `ChunkLoader.ChunkIndexNoDigits` | NODE_PURO/src/background/background.service.ts:28-29 | a name with no digit has sort key 0 (the `?? 0` fallback) |
| `ChunkLoader.SortByIndex` | NODE_PURO/src/background/background.service.ts:27-31 | the sorted chunks are a permutation of the input, non-decreasing by key |
| `ChunkLoader.SortIsStable` | NODE_PURO/src/background/background.service.ts:27-31 | for every key, the chunks with that key appear in the same relative order as before sorting (a stable sort) |
| `ChunkLoader.BinsWithIndex` | NODE_PURO/src/background/background.service.ts:24-26 | the filter keeps listing order: the kept chunks with any one key are exactly the `.bin` entries with that key, in listing order |
| `ChunkLoader.ChunkOrderSpec` | NODE_PURO/src/background/background.service.ts:24-31 | the chunk order holds exactly the listed `.bin` entries, ascending by key; the chunks with any one key are the listing's `.bin` entries with that key, in listing order |
| `ChunkLoader.ConcatLength` | NODE_PURO/src/background/background.service.ts:39-43 | the model buffer's length is the sum of the chunk lengths |
| `ChunkLoader.ConcatPlacesChunk` | NODE_PURO/src/background/background.service.ts:39-43 | chunk k's bytes sit in the buffer right after the bytes of the chunks before it |
| `ChunkLoader.AssembleModel` | NODE_PURO/src/background/background.service.ts:24-43 | loading fails with `NoChunks` exactly when no listed name ends in `.bin`; otherwise the buffer is the chunks joined in chunk order, with the summed length |
| `Imaging.Resize` | NODE_PURO/src/background/background.service.ts:82 | the stretched image has exactly the requested width and height |
| `Imaging.StoreByte` | NODE_PURO/src/background/background.service.ts:116-118 | storing a value in [0,255] into a byte buffer truncates it: the byte is the value's floor |
| `TensorCodec.PlanarLayout` | NODE_PURO/src/background/background.service.ts:88-93 | the tensor has 3·n slots; slots i, i+n and i+2n hold the bytes at 4i, 4i+1 and 4i+2, each divided by 255 |
| `TensorCodec.PlanarIgnoresAlpha` | NODE_PURO/src/background/background.service.ts:88-93 | the alpha byte is never read: bitmaps that differ only in alpha give the same tensor |
| `TensorCodec.EncodePixel` | NODE_PURO/src/background/background.service.ts:88-92 | the scan callback sets slots `pixelIndex`, `pixelIndex+n` and `pixelIndex+2n` to the R, G and B bytes at `idx == 4·pixelIndex`, divided by 255, and changes no other slot |
| `TensorCodec.EncodeTensor` | NODE_PURO/src/background/background.service.ts:85-93 | the scan with `pixelIndex == y·size + x` and byte offset `4·pixelIndex` fills a 3·size² tensor equal to the planar layout, and writes every slot exactly once |
| `TensorCodec.DecodePlanar` | src/background/background.service.ts:213-224 | the decode loop yields, for pixel i, the slots i, i+n and i+2n scaled by 255, clamped and truncated into bytes 4i, 4i+1 and 4i+2, with alpha 255; a slot past the tensor's end gives 0 |
| `TensorCodec.DecodeInvertsEncode` | src/background/background.service.ts:197-224 | decoding an encoded bitmap gives back every colour byte unchanged, with alpha 255 |
| `MaskCodec.MaskLevelBounds` | NODE_PURO/src/background/background.service.ts:113-114 | the grey level is 0 when the sharpened value is at most 0, 255 when it is at least 1, and grows with the sharpened value |
| `MaskCodec.MaskIsGrey` | NODE_PURO/src/background/background.service.ts:110-120 | for every i below both n and the mask length, bytes 4i, 4i+1 and 4i+2 are equal to the clamped, truncated level of value i, and byte 4i+3 is 255 |
| `MaskCodec.DecodeMask` | NODE_PURO/src/background/background.service.ts:110-120 | the mask loop over a zeroed size×size bitmap yields exactly the mask bitmap; values past size² are dropped and pixels with no value stay 0 |
| `Compositor.CompositedPixel` | NODE_PURO/src/background/background.service.ts:126-130 | at pixel (x,y), with offset (y·W+x)·4, the R, G and B bytes are the original's and the alpha byte is the mask's red byte at the same offset |
| `Compositor.Composite` | NODE_PURO/src/background/background.service.ts:126-130 | clone-then-scan returns a newly allocated buffer of the original's length: every alpha byte comes from the mask, every other byte from the original |
| `Pipeline.Infer` | NODE_PURO/src/background/background.service.ts:102-105 | inference fails on a null session, on an engine error or on an empty output map; otherwise it yields the first output, whatever its name |
| `Pipeline.Removed` | NODE_PURO/src/background/background.service.ts:80-130 | a removal fails exactly when inference fails, and succeeds only with a session; a result has the original's width and height and its colour bytes |
| `Pipeline.RemovedPixel` | NODE_PURO/src/background/background.service.ts:123-130 | in a result, pixel (x,y) keeps the original's RGB, and its alpha is the red byte of the stretched mask at (y·W+x)·4 |
| `Pipeline.RemoveBackgroundWith` | NODE_PURO/src/background/background.service.ts:80-130 | the resize / encode / run / mask / resize / composite steps compute exactly `Removed`; the original is a value, so no step can change it, and compositing writes into a newly allocated clone |
| `NodePuroService.BackgroundService.constructor` | NODE_PURO/src/background/background.service.ts:12-15 | after the load, `loading` is resolved exactly when the listing has `.bin` chunks and the engine accepts their joined bytes; a session is present exactly then, built from that buffer; a rejected load holds its own error: `ListingFailed` for an unreadable directory, `NoChunks` for no `.bin` entry, `SessionCreateFailed` for a refused buffer |
| `NodePuroService.BackgroundService.LoadModel` | NODE_PURO/src/background/background.service.ts:20-57 | a failed listing, no chunks, or a refused buffer rejects the load and leaves the session unassigned; otherwise the session is created from the joined buffer |
| `NodePuroService.BackgroundService.EnsureLoaded` | NODE_PURO/src/background/background.service.ts:59-64 | the gate rethrows a rejected load's own error and fails on a null session; it passes exactly when the load resolved with a session |
| `NodePuroService.BackgroundService.RemoveBackgroundBRIA` | NODE_PURO/src/background/background.service.ts:69-137 | a request fails with the load error, with "not loaded", or with a decode failure; otherwise it is the 1024-pixel, exponent-2.2 removal on `sessionBRIA`; a result implies the gate passed |
| `NestService.Animated` | src/background/background.service.ts:204-226 | the image-to-image path fails exactly when inference fails, and otherwise returns a 512×512 image |
| `NestService.AnimatedEcho` | src/background/background.service.ts:197-224 | with an engine that hands its input back, the path returns the stretched image's colour bytes unchanged, with alpha 255 |
| `NestService.BackgroundService.constructor` | src/background/background.service.ts:14-17 | the load rejects only when the listing fails; `sessionBRIA` is the created session, or null; `session`, `sessionMODEL20` and `sessionGANv2` stay null |
| `NestService.BackgroundService.LoadModel` | src/background/background.service.ts:19-38 | a listing failure rejects the promise; once the listing succeeds the promise resolves, even when session creation fails, and only `sessionBRIA` is assigned |
| `NestService.BackgroundService.EnsureSession` | src/background/background.service.ts:40-44 | the gate rethrows a rejected load and passes only when `session` is set, so in every reachable state it fails |
| `NestService.BackgroundService.RemoveBackground` | src/background/background.service.ts:47-99 | the ungated 320-pixel path fails on a decode error; otherwise it is the exponent-1.5 removal on `session` with input `input.1`, so in every reachable state it fails |
| `NestService.BackgroundService.RemoveBackgroundBRIA` | src/background/background.service.ts:101-142 | the gate's error comes first, then a decode failure, then the 1024-pixel, exponent-2.2 removal on `sessionBRIA`; in every reachable state it fails |
| `NestService.BackgroundService.RemoveBackgroundMODEL20` | src/background/background.service.ts:144-185 | the same as the BRIA path on `sessionMODEL20` with input `pixel_values`; in every reachable state it fails |
| `NestService.BackgroundService.AnimateGANv2` | src/background/background.service.ts:187-227 | the gate's error comes first, then a decode failure, then the 512-pixel image-to-image path on `sessionGANv2`; in every reachable state it fails |

"Every reachable state" means every state satisfying the class invariant `Valid()`, which the constructor establishes. Nothing else assigns the session fields.

## Left out

- Imaging.Resize: states only the target dimensions. The library's resampling filter is an arbitrary `Sampler` parameter. So nothing is proved about pixel values after a resize, for example that a uniform mask stays uniform.
- Pipeline.Infer: the engine is an arbitrary function. The shape and name of its output are not checked, and neither does the code check them.
- Image decoding (`Jimp.read`) is an abstract `Decoder` that may fail. The final PNG encoding (`getBufferAsync`) is not modelled, and the paths return the composited image.
- `Math.pow` is an abstract `Pow` with the exponent passed in. Float32 rounding is not modelled: tensor and mask values are exact reals. NaN is not modelled either: a NaN mask value, such as a negative value under a fractional power, would store as 0.
- `Number()` of a very long digit run loses precision in JavaScript. `ChunkLoader.ChunkIndex` is exact.
- The chunk files' bytes are given with the listing. A failure of `readFileSync` for one chunk, and the building of paths, are not modelled.
- `src/` creates `bria.onnx` from a path. The model takes the created session, or its absence, as input.
- Asynchrony: `loading` is modelled as the promise's settled outcome. A request made before it settles simply waits. Interleaving of concurrent requests is not modelled, and the code has no inference queue to model.
- Unhandled rejection: nothing handles a rejected `loading` until a request awaits it (NODE_PURO/src/background/background.service.ts:14, src/background/background.service.ts:16). Under Node's default unhandled-rejection mode (since Node 15) a load that fails while no request is waiting ends the process. That every later gate call fails with the load's error is the model's reading for a process that survives, not guaranteed runtime behaviour.
- Console logging.
- The HTTP controller (including the 1 MiB upload check), bootstrap, module wiring, the runtime loader `ort-loader.ts`, and the commented-out variants after line 139 of the standalone file are not part of this model.
