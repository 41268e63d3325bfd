# Upload, render and cleanup decision logic of a Remotion + Next.js front end

This project models the decision logic inside the API routes and client
components of a small web application. A user previews a video composition,
optionally uploads a replacement clip to S3, and starts a render on Remotion
Lambda. The model covers:

- the props schema and its defaults (`Constants`);
- the render route's guards and the option record it submits (`LambdaRender`);
- the presigned-upload route (`PresignedUrl`): validation, the sanitised and
  timestamped storage key, and the public URL;
- the delete route (`DeleteObject`);
- the proxied upload route (`ProxyUpload`);
- the download button (`DownloadButton`): status guard, download file name,
  and best-effort delete;
- the render controls (`RenderControls`): a class whose event methods
  update `videoFile`, `videoSrc` and the readiness flag, plus the view it
  derives from the render status.

Shared pieces are kept in their own modules. `Js` holds JavaScript values,
truthiness, `${…}` of an optional string, and the message a `catch` reports.
`Decimal` renders `Date.now()` as decimal text and parses it back.
`RenderingState` is the render hook's status union. `Wrappers` holds
`Option` and `Result`.

Every call to a service or library becomes an outcome parameter. This covers
the URL signer, `s3Client.send`, form parsing and `fetch`. Each route is a
function from the request and those outcomes to an `Exchange`. An `Exchange`
holds the reply and the external request the route issued along the way, if
any. That makes "no URL is signed" and "no delete is issued" statable.
`Date.now()` is a natural-number parameter. Environment variables are
`Option<string>` values, or configuration records.

Where the code and its design description disagree, the model follows the code:

- The presign route reads `videoWidth`/`videoHeight` from the body, not
  `width`/`height`.
- A truthy `filename` that is not a string passes the 400 guard. If it
  converts to a string, the log line succeeds, then `filename.replace`
  throws, and the route answers 500 (`PresignedUrl.Handle`).
- Both S3 routes log the body fields in a template literal before they
  sign or delete anything. A decoded object that has no primitive value,
  such as one with its own `toString` key, makes that log line throw, so
  the route answers 500 with the `TypeError`'s message and issues nothing
  (`PresignedUrl.Handle`, `DeleteObject.Handle`).
- The delete request is sent on the download click, not when the render
  ends. It is sent only when the button has a bucket and a key. The render
  controls mount the button without either, so in the current wiring no
  delete is ever requested (`RenderControls.ClickMountedDownload`).
- The render controls upload through the proxied route
  (`src/pages/api/upload.ts`), not the presigned one. The proxied route
  keys objects by the original file name, without sanitising it.
- The schema is a plain object schema. The model does not claim that
  unknown keys are rejected.

## Model

| member | source | states |
|---|---|---|
| `Constants.SchemaCharacterized` | types/constants.ts:4-15 | A record validates iff `title` is a string and each of `videoSrc`, `s3Bucket`, `s3Key` is undefined or a string and each of `rotation`, `scale`, `width`, `height`, `durationInFrames`, `fps` is undefined or a number |
| `Constants.TitleRequired` | types/constants.ts:5 | A record whose `title` is missing or not a string never validates, whatever else it holds |
| `Constants.DefaultPropsValid` | types/constants.ts:17-22 | The default props validate, carry the default title, rotation 5 and scale 0.95, and leave `videoSrc`, `width`, `height`, `durationInFrames`, `fps`, `s3Bucket` and `s3Key` undefined |
| `LambdaRender.Render` | src/pages/api/lambda/render.ts:12-32 | A non-POST method fails first. Then a missing access key fails (neither variable set), then a missing secret. The options are built and submitted iff the method is POST and both credentials are present |
| `LambdaRender.BuildRenderOptions` | src/pages/api/lambda/render.ts:43-80 | The forwarded input props are the props minus `width`, `height`, `durationInFrames` and `fps`, with every other key unchanged. `forceWidth`/`forceHeight` are set iff the prop is defined, and then carry its value, 0 included. `frameRange` is set iff the duration is defined and positive, and then starts at 0 and covers exactly N frames inclusive. Codec `h264`, composition = id, 10 frames per Lambda and the `video.mp4` download are fixed |
| `LambdaRender.FpsNeverForwarded` | src/pages/api/lambda/render.ts:81-85 | `fps` never reaches the renderer: it is not among the input props, and changing it leaves the whole option record unchanged |
| `LambdaRender.FrameRangeDerivation` | src/pages/api/lambda/render.ts:76-80 | A duration N > 0 gives the range (0, N-1). A zero, negative or undefined duration gives no range |
| `Decimal.NatToString` | src/pages/api/s3/get-presigned-url.ts:38 | `${Date.now()}` is a non-empty string of decimal digits without a leading zero |
| `Decimal.ParseNatToString` | src/pages/api/s3/get-presigned-url.ts:38 | Reading back the decimal text of a timestamp gives the timestamp |
| `Decimal.NatToStringInjective` | src/pages/api/s3/get-presigned-url.ts:38 | Distinct timestamps print differently |
| `PresignedUrl.Sanitize` | src/pages/api/s3/get-presigned-url.ts:38 | The sanitised name has the original's length. A character in `[a-zA-Z0-9.]` is kept and any other character becomes `_` |
| `PresignedUrl.SanitizeIdempotent` | src/pages/api/s3/get-presigned-url.ts:38 | Sanitising an already sanitised name changes nothing |
| `PresignedUrl.SanitizeFixedPoints` | src/pages/api/s3/get-presigned-url.ts:38 | Sanitising leaves a name unchanged iff every character is in `[a-zA-Z0-9.]` or is `_` |
| `PresignedUrl.UploadKey` | src/pages/api/s3/get-presigned-url.ts:38 | The key starts with `uploads/`, contains no further `/`, and ends with the sanitised file name |
| `PresignedUrl.ParseUploadKey` | src/pages/api/s3/get-presigned-url.ts:38 | The key parses back into exactly its timestamp and its sanitised file name |
| `PresignedUrl.UploadKeyInjective` | src/pages/api/s3/get-presigned-url.ts:38 | Two keys are equal only if their timestamps are equal and their sanitised names are equal |
| `PresignedUrl.PublicUrl` | src/pages/api/s3/get-presigned-url.ts:53 | The public URL splits exactly into `https://` and the bucket, then `.s3.<region>.amazonaws.com`, then `/`, then the key, and its length is the sum of those parts |
| `PresignedUrl.PublicUrlInjective` | src/pages/api/s3/get-presigned-url.ts:53 | Within one bucket and region, two keys with the same public URL are the same key |
| `PresignedUrl.Handle` | src/pages/api/s3/get-presigned-url.ts:18-67 | A non-POST method gives 405 with nothing signed. A falsy `filename` or `fileType`, or a non-number `videoWidth`/`videoHeight`, gives 400 with nothing signed. A `filename` or `fileType` that cannot be converted to a string makes the log line throw: 500 with the `TypeError`'s message, nothing signed. A printable truthy non-string `filename` then makes `.replace` throw: 500, nothing signed. Otherwise the handler signs a `public-read` put of the derived key to the configured bucket for 300 seconds. Success replies with the signed URL, that key, its public URL and the bucket. A signer failure gives 500 with the error's message or the unknown-error fallback |
| `PresignedUrl.IssuedReplyConsistent` | src/pages/api/s3/get-presigned-url.ts:53-60 | A success reply has status 200. Its key starts with `uploads/` and ends its `finalUrl`, and that URL names the configured bucket right after `https://` |
| `PresignedUrl.MissingNameOrTypeRejected` | src/pages/api/s3/get-presigned-url.ts:27-31 | A POST with a missing or empty `filename` or `fileType` gets 400 and signs nothing |
| `DeleteObject.Handle` | src/pages/api/s3/delete-object.ts:17-49 | A non-POST method gives 405 and a falsy `s3Bucket` or `s3Key` gives 400, with no delete in either case. A bucket or key that cannot be converted to a string makes the log line throw: 500 with the `TypeError`'s message and no delete. Otherwise exactly one delete is issued, for exactly the given bucket and key. 200 comes iff that delete completes; when it throws, the reply is 500 with the error's message or the unknown-error fallback |
| `ProxyUpload.VideoFile` | src/pages/api/upload.ts:35 | The uploaded file is the first file under field `video`, and there is one iff that field holds at least one file |
| `ProxyUpload.ObjectKey` | src/pages/api/upload.ts:56 | The key is never empty. It is the original file name when that is non-empty, and `upload-<timestamp>` otherwise |
| `ProxyUpload.ContentType` | src/pages/api/upload.ts:68 | The content type is never empty. It is the file's MIME type when that is non-empty, and `application/octet-stream` otherwise |
| `ProxyUpload.S3Url` | src/pages/api/upload.ts:74 | The URL is the same virtual-hosted template as the presign route's, built from the bucket and region variables as they print. It splits exactly into `https://` and the bucket, then `.s3.<region>.amazonaws.com`, then `/`, then the key. An unset variable prints as `undefined`, so an unset bucket gives a URL starting `https://undefined` |
| `ProxyUpload.Handle` | src/pages/api/upload.ts:20-100 | A non-POST method gives 405 with `Allow: POST`, and only then is that header set. A parse error gives 500 and no file under `video` gives 400, with no S3 write in either case. Otherwise one `public-read` put is issued, of the file's temporary path, under the key and content type above. Success gives 200 with the key's URL and file details naming that key. An S3 failure gives 500 with the thrown message |
| `ProxyUpload.UploadedReplyConsistent` | src/pages/api/upload.ts:74-86 | A success reply has status 200 and its `fileDetails.s3Key` is the key written. Its `videoUrl` is that key's S3 URL: it starts with `https://` and the bucket variable, and it ends with the key |
| `DownloadButton.Guard` | src/components/DownloadButton.tsx:33-39 | `rendering` shows a disabled button and `done` the download button for its URL and size. Every other status throws |
| `DownloadButton.LastIndexOf` | src/components/DownloadButton.tsx:45 | The result is the last position of the character, or -1 when it does not occur |
| `DownloadButton.DownloadFileNameIsLastSegment` | src/components/DownloadButton.tsx:45 | The download name is never empty and holds no `/`. A URL that is empty or ends in `/` gets `rendered-video.mp4`. Any other URL ends with the name, preceded by `/` or by nothing |
| `DownloadButton.DeleteErrorMessage` | src/components/DownloadButton.tsx:59-65 | The logged error of a non-ok delete answer is never empty: it is the body's non-empty `message`, else `Failed to delete S3 object.`. A thrown fetch error keeps its own message |
| `DownloadButton.HandleDownloadAndMaybeDelete` | src/components/DownloadButton.tsx:41-71 | The download, with the derived name, is the first effect. Exactly one delete request follows iff both `s3Bucket` and `s3Key` are non-empty, and it carries exactly those values; otherwise there is none. A failed delete ends in a logged error, and the handler still completes |
| `RenderControls.UploadedUrl` | src/components/RenderControls.tsx:55-67 | Only an ok upload response with a non-empty `videoUrl` hands over a URL, and it is that `videoUrl` |
| `RenderControls.UploadErrorText` | src/components/RenderControls.tsx:55-59 | The error raised for a non-ok upload answer is never empty: the body's non-empty `message` comes first, then its non-empty `error`, then `Upload failed` |
| `RenderControls.AlertText` | src/components/RenderControls.tsx:55-87 | A thrown upload alerts `Error uploading video: ` and its description. A non-ok answer alerts that prefix and the error text above. An ok answer without a URL alerts `File parsed by server: `, the body's `message` (`undefined` when missing) and `. S3 upload next.`. The alert starts with the error prefix exactly when the upload failed |
| `RenderControls.ActualInputProps` | src/components/RenderControls.tsx:26-30 | The render props are the page props with `title` replaced by the text and `videoSrc` replaced by the local state (undefined when unset). Every other key is unchanged |
| `RenderControls.ActualInputPropsConform` | src/components/RenderControls.tsx:26-30 | If the page props validate against the schema, so do the merged render props |
| `RenderControls.Controls.constructor` | src/components/RenderControls.tsx:20-34 | The controls start with no file, an undefined `videoSrc`, the readiness flag down and no effects |
| `RenderControls.Controls.OnFileChange` | src/components/RenderControls.tsx:120-131 | Picking a file sets `videoFile` and the local object URL as `videoSrc`. Clearing sets both to none. Either way the player is notified and the flag is untouched |
| `RenderControls.Controls.HandleRenderWithUpload` | src/components/RenderControls.tsx:36-92 | Without a file, it renders at once and never uploads. With a file, it uploads and never renders. A response with a URL sets `videoSrc` to it and raises the flag. A non-ok response, a thrown error, or an ok response without a URL only alerts, and leaves `videoSrc` and the flag as they were |
| `RenderControls.Controls.ReadinessEffect` | src/components/RenderControls.tsx:94-99 | It renders iff the flag is up and the status is neither `invoking` nor `rendering`, and then it lowers the flag. The invariant `Valid` keeps renders started here plus a pending flag at or below the number of raises, so each raise yields at most one render |
| `RenderControls.ViewIsProjection` | src/components/RenderControls.tsx:101-163 | Exactly one panel shows. The form shows for `init`, `invoking` and `error`, and is disabled iff `invoking`. The progress panel shows for `rendering` and `done`, with progress 1 when `done`. The download button it mounts never reaches its throwing branch |
| `RenderControls.ClickMountedDownload` | src/components/RenderControls.tsx:158 | Clicking the download button as the controls mount it only triggers the download. It never requests a delete, since no bucket or key is passed |

The duration, width, height and frame-rate constants of
`types/constants.ts:24-27` are the constants `Constants.DurationInFrames`
(200), `Constants.VideoWidth` (1280), `Constants.VideoHeight` (720) and
`Constants.VideoFps` (30).

## Left out

- Network and library calls are not modelled. This covers S3 signing and
  sending, `renderMediaOnLambda`, `speculateFunctionName`, `formidable`, `fs`
  streams and `fetch`. Each one is an outcome parameter, or a
  `Deployment`/`Config`/`Env` value.
- The module-load environment checks of the two S3 routes are not modelled.
  `PresignedUrl.Config` stands for the bucket and region they guarantee.
- `src/helpers/api-response` (`executeApi`) and `types/schema`
  (`RenderRequest`) are not part of this model. How the render route's body
  is validated and how its thrown errors become responses is not modelled.
  The render functions require props that pass the composition schema, as
  their TypeScript type demands.
- `renderMediaOnLambda`'s result is not modelled. `LambdaRender.Render`
  returns the option record that would be submitted.
- JavaScript numbers are reals: NaN and the infinities are not modelled.
- Whether a decoded object converts to a string is a flag on the value
  (`Js.Value.Object`), not computed from its keys and elements. The text a
  printable object converts to is not modelled: it reaches only the log.
- A Dafny character is a Unicode scalar value, while JavaScript strings are
  sequences of UTF-16 code units. Characters outside the Basic Multilingual
  Plane and lone surrogates are not modelled. JavaScript sees the former as
  two code units, and the sanitiser replaces them with two underscores. A
  JSON `filename` can carry a lone surrogate, which no Dafny character
  stands for.
- `Decimal.NatToString` covers integers below 10^21, which is every
  `Date.now()` value. JavaScript's exponent notation for larger numbers is
  not modelled.
- A request body that is not an object is not modelled, nor a
  `PutObjectCommand` constructor that throws on an odd `fileType`. Such a
  throw would end in the same 500 as a signer failure.
- Console logging, `alert` aside, is not modelled. The one exception is the
  error the download button logs when a delete fails, which is how the
  failure is swallowed.
- DOM work is not modelled: the anchor element, `URL.createObjectURL`,
  `Megabytes`' number formatting and the undo button. A download is the
  effect "download triggered with this name". A local object URL is a
  parameter of `OnFileChange`.
- React scheduling is not modelled. Each event handler, and the effect, is
  one atomic method call, and the upload's outcome settles within the click
  that started it. The disabled state of the form controls is part of the
  view; the event methods do not enforce it.
- The render hook (`useRendering`) is not modelled: its status is an input.
  `RenderMedia` records which `videoSrc` the render's props carried.
- `src/pages/index.tsx` is not modelled: the player, the video-metadata
  probe and its floating-point duration. Neither are
  `src/remotion/MyComp/Main.tsx` or `src/remotion/Root.tsx`:
  composition rendering and registration.
- Nothing is said about unknown keys in the props schema.
