# heyama_web client logic in Dafny

This project models the three pieces of logic in the heyama_web front end that do more than wire up UI:

- **The image pipeline of `lib/imageHelper.ts`.**
  - `convertFileToBase64` fills in default options and passes non-image files through unchanged.
  - It shrinks an image to fit a bounding box while keeping its aspect ratio.
  - It encodes the image once. When the first blob is over the byte budget, it re-encodes once at quality max(0.1, quality × budget / size). That is lower than the requested quality unless the requested quality is at most 0.1.
  - `compressAndConvertImage` reports an estimated size and a compression ratio derived from the resulting data URL.
  - `useImageUpload` turns the outcome into a success or error record.
- **The request middleware of `middleware.ts`.** Requests whose path starts with `/api/` are rewritten to the fixed backend `http://51.75.123.172:5005`, with that prefix replaced by `/`. All other requests continue unchanged.
- **The home page's object list in `app/page.tsx`.** This covers the `objects`/`loading` state, `loadObjects`, the real-time `objectCreated` and `objectDeleted` handlers, and the choice between the loading text, the empty-state text and the grid of cards.

Files:

- `wrappers.dfy`: the `Option` and `Result` datatypes.
- `data_url.dfy` (module `DataUrls`) covers the data URL a `FileReader` produces:
  - the text format follows section 3 of RFC 2397;
  - the payload is base64 with padding, as in section 4 of RFC 4648;
  - `split(',')[1]` and the `0.75` size estimate applied to that text.
- `image_helper.dfy` (module `ImageHelper`) covers:
  - the option defaults and the resize arithmetic;
  - the retry quality;
  - the browser services as an abstract `Browser` value;
  - `Convert`, which states the whole of `convertFileToBase64`, and the `ConvertFileToBase64` / `ImageLoaded` methods, which follow the source step by step on a `Canvas` object that logs every `toBlob` request;
  - `compressAndConvertImage`, `useImageUpload`, and the options used by the creation form.
- `middleware.dfy` (module `Middleware`): the URL as a record of strings and the rewrite.
- `home_page.dfy` (module `HomePage`): the list reducers, the render choice, and the `Page` class holding the component state.

Modelling choices:

- **Numbers.** JavaScript numbers are reals. Division and `Math.min` are exact. A zero side divides to +Infinity as in IEEE arithmetic, so the other quotient becomes the ratio. `Math.floor` and `Math.round` are exact.
- **Browser services.**
  - `FileReader`, `Image` decoding, `getContext('2d')` and `toBlob` are the fields of a `Browser` value.
  - The decoder maps bytes to dimensions, or to none, which fires `onerror`.
  - The encoder maps a request (surface, format, quality) to a blob, or to none for a null blob.
  - The number of encode calls is the length of the canvas's request log.
- **Failures.**
  - A failure is either an `Error` with its message, or the event that `FileReader.onerror` passes on, which is not an `Error`.
  - The second `Image` load in `compressAndConvertImage` has no error handler, so a result that does not decode leaves the promise pending. `Settlement.Pending` models this, and `UploadImage` returns `None` for it.

## Model

| member | source | states |
|---|---|---|
| ImageHelper.WithDefaults | lib/imageHelper.ts:15-21 | a supplied option is kept as given; an omitted one takes 1920, 1080, 0.8, 500 or image/jpeg; sensible options give settings with positive bounds and a non-negative budget |
| ImageHelper.DefaultsFillOnlyGaps | lib/imageHelper.ts:15-21 | fully supplied options come back unchanged; no options at all give exactly the default settings |
| ImageHelper.Exceeds | lib/imageHelper.ts:52 | the resize guard is false exactly when both sides are within their bounds |
| ImageHelper.Quotient | lib/imageHelper.ts:53 | a quotient of two positive numbers is positive, multiplies back to the dividend, and is below 1 when the dividend is smaller |
| ImageHelper.ScaleRatio | lib/imageHelper.ts:53 | when a side is over its bound, the ratio is strictly between 0 and 1, brings both sides within their bounds, and makes at least one side meet its bound exactly |
| ImageHelper.FloorNat | lib/imageHelper.ts:54-55 | the result is the greatest whole number not above the argument |
| ImageHelper.FloorScaled | lib/imageHelper.ts:54-55 | a side scaled by a ratio below 1 and floored is the floor of the scaled length, stays within its bound and never exceeds the original side |
| ImageHelper.Downscaled | lib/imageHelper.ts:54-55 | both sides scaled by an admissible ratio and floored stay within their bounds and never exceed the original sides |
| ImageHelper.TargetSize | lib/imageHelper.ts:49-56 | an image that fits is left at its own size (no upscaling); the target is always within both bounds and no side grows |
| ImageHelper.TargetIsFlooredScaling | lib/imageHelper.ts:52-55 | when a side is over its bound, both target sides are the floors of the source sides times the one common ratio |
| ImageHelper.DownscaledIsFloored | lib/imageHelper.ts:54-55 | flooring both sides scaled by any admissible ratio gives the floors of the scaled lengths |
| ImageHelper.TargetKeepsAspect | lib/imageHelper.ts:48-56 | the target keeps the source's aspect ratio up to flooring: cross-multiplied, the two ratios differ by less than one pixel of either side |
| ImageHelper.FloorsKeepAspect | lib/imageHelper.ts:54-55 | any common scaling of both sides, floored, keeps the aspect ratio to within one pixel |
| ImageHelper.NewDimensions | lib/imageHelper.ts:49-56 | the reassigned `width`/`height` are exactly the target size |
| ImageHelper.NeedsRetry | lib/imageHelper.ts:81 | a zero budget never triggers the retry; for a non-negative budget the retry happens exactly when the budget is positive and the blob is larger than budget × 1024 bytes |
| ImageHelper.RetryQuality | lib/imageHelper.ts:83 | the retry quality is never below 0.1 and never above max(0.1, quality); it is strictly lower than a quality above 0.1; scaled to the first blob's size it is at least quality × budget |
| ImageHelper.IsImageType | lib/imageHelper.ts:24 | a type is an image type exactly when its first six characters are `image/` |
| ImageHelper.KnownFailure | lib/imageHelper.ts:29-104 | every failure convertFileToBase64 can reject with (the reader errors at 29 and 45, and the thrown errors at 65, 76, 87 and 104) maps to one of the five texts `useImageUpload` can report |
| ImageHelper.ReadBlob | lib/imageHelper.ts:111-118 | reading a blob succeeds exactly when the reader can read it, and gives the blob's own type and bytes |
| ImageHelper.Convert | lib/imageHelper.ts:9-108 | every rejection is one of the five failures the function can raise |
| ImageHelper.OnLoad | lib/imageHelper.ts:47-102 | every rejection of the load handler is one of its known failures |
| ImageHelper.NonImagePassesThrough | lib/imageHelper.ts:24-31 | a non-image file makes no encode call and yields a data URL of its own type and bytes (or the read error), for any options at all |
| ImageHelper.EncodePolicy | lib/imageHelper.ts:73-101 | at most two encodes; once the file is an image that reads, decodes and has a 2D context, at least one encode happens; the first uses the target surface and the requested format and quality; a second happens iff the first blob exists and is over a non-zero budget; it re-encodes the same surface in the same format at the retry quality, which lies in [0.1, max(0.1, quality)] |
| ImageHelper.EncodedSurfacesAreBounded | lib/imageHelper.ts:47-73 | every surface sent to the encoder is within the bounds and no larger than the decoded image |
| ImageHelper.ImageOutcome | lib/imageHelper.ts:41-104 | a success is the read-back of the last encode's blob; conversely, whenever the last encode gives a blob, its read-back is the result, so the first blob is returned when under budget and the second even if still over budget; an unreadable file gives the reader error; the context, load, first-pass and second-pass failures each occur exactly in their own situation |
| ImageHelper.Canvas.constructor | lib/imageHelper.ts:59 | a new canvas is 300 by 150, blank, and has encoded nothing |
| ImageHelper.Canvas.DrawImage | lib/imageHelper.ts:70 | after drawing, the canvas holds the image |
| ImageHelper.Canvas.ToBlob | lib/imageHelper.ts:73-101 | each call appends exactly one request for the current surface to the log, and returns what the encoder gives for it |
| ImageHelper.ConvertFileToBase64 | lib/imageHelper.ts:9-108 | the method's result and encode log are exactly those of `Convert` |
| ImageHelper.ImageLoaded | lib/imageHelper.ts:47-102 | the load handler's result and encode log are exactly those of `OnLoad` |
| ImageHelper.CompressionRatio | lib/imageHelper.ts:153 | the ratio is non-negative; it is 1 for an empty original; otherwise it times the original size gives the compressed size |
| ImageHelper.CompressAndConvertImage | lib/imageHelper.ts:121-155 | rejects exactly when the conversion fails, with the same failure; stays pending exactly when the result does not decode; otherwise reports the data URL text, the file's size, the decoded dimensions, the size estimate `floor(0.75 · |split(',')[1]|)` of that text (no longer than the text), and the guarded ratio of that estimate to the file's size |
| ImageHelper.ReportedSizeTracksResult | lib/imageHelper.ts:136-138 | for a result whose media type contains no comma, the reported compressed size is exactly 3·⌈n/3⌉ for n bytes, so between the true byte count and two bytes more |
| ImageHelper.ReportedDimensionsAreTarget | lib/imageHelper.ts:47-56 | when the browser's decoder reads back the encoded surface's size from every blob its encoder produces, the width and height reported for an image are its target size: within the bounds, no larger than the decoded file, and of the same aspect ratio to within one pixel |
| ImageHelper.Round | lib/imageHelper.ts:194 | the result is the nearest integer, with halves rounded up |
| ImageHelper.ErrorText | lib/imageHelper.ts:199 | an `Error` gives its own message; anything else gives 'Erreur inconnue' |
| ImageHelper.UploadImage | lib/imageHelper.ts:183-202 | never rejects; success exactly when compression resolves, carrying its record and the percentage `Math.round(compressionRatio * 100)`; a rejection gives the error's own message, or 'Erreur inconnue' for a non-Error; every error text is one of the five known messages |
| ImageHelper.ModalScenario | components/CreateObjectModal.tsx:46-50 | with the creation form's options the height bound defaults to 1080, and a 2000 by 1000 image gets ratio 0.4 and becomes 800 by 400 |
| ImageHelper.ModalRetryRepeatsFirstPass | components/CreateObjectModal.tsx:46-50 | with quality 0.1 a retry repeats the first request; since the encoder is modelled as a function of its request, the second-pass failure then cannot occur and the result is the first blob's |
| DataUrls.Digit | lib/imageHelper.ts:115 | each 6-bit value maps to a base64 alphabet character other than the pad |
| DataUrls.Base64 | lib/imageHelper.ts:115 | the encoding has 4 characters per started group of 3 bytes, all from the base64 alphabet |
| DataUrls.Text | lib/imageHelper.ts:115 | a data URL starts with `data:` and its length is the prefix, the media type and the payload |
| DataUrls.IndexOf | lib/imageHelper.ts:137 | the result is the first position of the character, or none when it does not occur |
| DataUrls.SecondField | lib/imageHelper.ts:137 | the field exists exactly when the text has a comma; it is the text from just after the first comma up to the next comma or the end, and it contains no comma |
| DataUrls.SizeEstimate | lib/imageHelper.ts:137-138 | the estimate never exceeds the text's length |
| DataUrls.PayloadIsSecondField | lib/imageHelper.ts:137 | for a media type without a comma, the second comma-separated field is the whole base64 payload |
| DataUrls.EstimateOfDataUrl | lib/imageHelper.ts:136-138 | for a media type without a comma, the estimate is 3 bytes per 4 payload characters: the byte count rounded up to a multiple of 3, at most 2 above it |
| Middleware.FindFirst | middleware.ts:11 | the result is the first position where the pattern occurs, or none when it never does |
| Middleware.ReplaceFirst | middleware.ts:11 | a string without the pattern is unchanged; otherwise the text before the first occurrence is kept, the occurrence is replaced by the replacement, and the text after it is kept |
| Middleware.PrefixIsFirstOccurrence | middleware.ts:6-11 | when the path starts with `/api/`, the replacement gives `/` followed by the rest of the path |
| Middleware.Handle | middleware.ts:4-17 | passes through exactly when the path does not start with `/api/`; a rewrite targets http:, 51.75.123.172 and port 5005; its path is `/` plus the text after `/api/`, 4 characters shorter and starting with `/`; user, password, query and fragment are unchanged |
| Middleware.RewriteIsInvertible | middleware.ts:11 | putting `/api` back in front of the rewritten path gives the original path |
| Middleware.OnlyFirstOccurrenceReplaced | middleware.ts:11 | `/api/x/api/y` becomes `/x/api/y` |
| HomePage.Created | app/page.tsx:32 | the new object comes first and the previous list follows unchanged, one element longer |
| HomePage.Keeps | app/page.tsx:36 | an object is kept exactly when it has no `_id` or a different one; an object without `_id` is always kept |
| HomePage.Deleted | app/page.tsx:36 | an object survives iff it was in the list and its `_id` differs from the id; objects without `_id` are never removed; each survivor keeps its multiplicity; the list never grows |
| HomePage.DeletedKeepsOrder | app/page.tsx:36 | the survivors keep their original relative order |
| HomePage.DeletedDistributes | app/page.tsx:36 | deletion works element by element: it distributes over concatenation |
| HomePage.DeletedAbsentIsIdentity | app/page.tsx:36 | deleting an id no object carries leaves the list unchanged |
| HomePage.DeletedIdempotent | app/page.tsx:35-37 | delivering the same deletion twice equals delivering it once |
| HomePage.DeleteUndoesCreate | app/page.tsx:31-37 | deleting the id a creation just announced restores the previous list, when no older object carries that id |
| HomePage.Render | app/page.tsx:57-72 | loading text iff loading; empty-state text iff loaded and empty; otherwise a grid whose cards are the objects in list order |
| HomePage.CreatedObjectShownFirst | app/page.tsx:31-72 | once loaded, a created object is shown as the first card |
| HomePage.Page.constructor | app/page.tsx:12-13 | the page starts with an empty list and loading |
| HomePage.Page.LoadObjects | app/page.tsx:16-25 | on success the fetched list replaces the current one; on failure the list is kept; loading is false afterwards either way |
| HomePage.Page.OnObjectCreated | app/page.tsx:31-33 | the list becomes the creation reducer applied to the old list |
| HomePage.Page.OnObjectDeleted | app/page.tsx:35-37 | the list becomes the deletion reducer applied to the old list |

## Left out

- ImageHelper.Convert: for an image file it requires positive `maxWidth`/`maxHeight` and a non-negative `maxSizeKB`. Without these, JavaScript computes with Infinity, NaN or a negative budget (a negative budget always triggers the retry, at quality 0.1). A non-image file may come with any options. The same precondition is carried by `ConvertFileToBase64`, `CompressAndConvertImage`, `UploadImage` and the lemmas about them.
- ImageHelper.ReportedDimensionsAreTarget: the width and height `compressAndConvertImage` reports come from decoding the result again, and the decoder is abstract. They are proved to be the target size only for a browser whose decoder reads back the encoded surface's size (`ReadsBackSize`). A browser that encodes at some other size is not excluded.
- IEEE-754 rounding in the ratio, the products, the retry quality and `Math.round` is not reproduced; all arithmetic is exact over the reals.
- Pixels are not modelled. Drawing, the encoder's compression, the PNG fallback for an unsupported format and the clamping of an out-of-range quality all live inside the abstract `encode` function. A canvas surface is represented by the bytes it was drawn from and its size.
- The `console.log` size notice (lib/imageHelper.ts:34-36) has no effect on the result and is left out.
- The success message text of `useImageUpload` is represented by the rounded percentage it shows. The string formatting is left out.
- The `matcher` configuration (middleware.ts:19-21) and the Next.js request and response objects are left out. The URL is a record of its string parts, and URL setter normalisation is not modelled.
- `hooks/useSocket.ts` (the socket connection and event subscription) is not part of this model. Only the handlers' effect on the list is modelled.
- `lib/api.ts` (the HTTP client) is not part of this model. A fetch is an optional list given to `LoadObjects`. `create` swallowing its errors is not modelled.
- The creation form and card components, the object detail page, router navigation, `ecosystem.config.js` and `next.config.ts` are not part of this model. The form's fixed compression options are used as a concrete scenario.
