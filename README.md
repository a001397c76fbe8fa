# koishi-plugin-sendimg, modelled in Dafny

A Koishi chat-bot plugin that maps keywords to image files and sends them, splitting images that
are too large for the platform into horizontal strips, plus a side path that asks an LLM for a
sales pitch. This project models the plugin's own logic, with every host call (file system,
canvas, HTTP, the bot session) reduced to a parameter or to an append to a message log, and
proves what that logic guarantees.

Modules, one per source file plus shared pieces:

- `Wrappers` (`wrappers.dfy`): `Option` and `Result`.
- `Raster` (`raster.dfy`): an image as `(width, height)` and a strip as `(y, w, h)`.
- `Messaging` (`messaging.dfy`): the outbound message kinds and `Session`, a class whose `Send` appends to `log`.
- `JsString` (`js_string.dfy`): JavaScript's `trim` (ECMA-262 sections 12.2 and 12.3 whitespace) and `indexOf`.
- `ImgChunks` (`img_chunks.dfy`): `sendLongImage`, as strip geometry, a send loop over a session and lemmas.
- `SendImg` (`sendimg.dfy`): `apply` in `src/index.ts`, with the keyword table load and the `message` handler.
- `ImageSender` (`image_sender.dfy`): the product-image middleware in `src/index-test.ts`.
- `RequestLlm` (`request_llm.dfy`): the reply clean-up, the prompt rule, the request body and error reporting.

Notes on how the code was read:

- The strips are not truncated. Every strip, the last one included, is a `width × chunkHeight`
  canvas drawn from row `i * chunkHeight`, so the last strip is padded below the image. A design
  where the last strip is `height - y` rows high would differ; the model follows the code.
- On the split path, `sendLongImage` is called without `await`. It runs up to its own `await loadImage`
  and sends nothing before that point, so the handler's "已自动拆分发送" notice is issued before the
  first strip. The model records the sends in that order.
- In the middleware, `session.send` is not awaited inside the `try`, so the `catch`/`continue`
  never runs and only the first image type is ever tried.
- `axios` rejects statuses outside 2xx with its own error. So the `status !== 200` check only ever
  sees 2xx answers, and those rejections arrive through the `http` parameter's `Err`.

## Model

| member | source | states |
|---|---|---|
| `ImgChunks.ChunkCount` | src/img_chunks.ts:14 | the strip count `n` satisfies `height <= n * chunkHeight < height + chunkHeight`, i.e. it is the ceiling of `height / chunkHeight` |
| `ImgChunks.ChunkCountUnique` | src/img_chunks.ts:14 | any count whose strips reach `height` with less than one strip to spare equals `ChunkCount`; the ceiling is unique |
| `ImgChunks.StripAt` | src/img_chunks.ts:17-23 | strip `i` is `width × chunkHeight`, and it starts inside the image exactly when `i` is below the strip count |
| `ImgChunks.Strips` | src/img_chunks.ts:17-23 | every strip the loop draws starts inside the image, and the strip after the last one would not |
| `ImgChunks.StripsContiguous` | src/img_chunks.ts:17-23 | the first strip starts at row 0, every strip is `width × chunkHeight` (the last one too), and each strip starts where the previous one ends |
| `ImgChunks.RowCoveredOnce` | src/img_chunks.ts:17-23 | each image row lies in exactly one strip, strip `row / chunkHeight`: no gap, no overlap |
| `ImgChunks.CoverageBounds` | src/img_chunks.ts:14-23 | the rows drawn in all, padding included, are at least `height` and less than `height + chunkHeight` |
| `ImgChunks.ExactCoverage` | src/img_chunks.ts:14-23 | coverage is exact iff `height` is a multiple of `chunkHeight`; then there are `height / chunkHeight` strips and the last ends on the last row |
| `ImgChunks.TallImageExample` | src/img_chunks.ts:14-23 | a 4096×9000 image at 2048 rows gives five 4096×2048 strips at rows 0, 2048, 4096, 6144, 8192 |
| `ImgChunks.RenderedPrefix` | src/img_chunks.ts:17-25 | the number of strips sent before a render failure: all earlier strips render, and the next one, if any, does not |
| `ImgChunks.SendLongImage` | src/img_chunks.ts:7-34 | the loop appends exactly `LongImageLog` to the session's log: one PNG per strip in index order, or the failure notice at the first error |
| `ImgChunks.LongImageAllSent` | src/img_chunks.ts:17-29 | with no error, exactly `ChunkCount` PNGs are sent and message `i` is strip `i` |
| `ImgChunks.LongImageFailsOnce` | src/img_chunks.ts:8-33 | after a load or render error the log ends with exactly one failure notice, preceded only by the strips already sent, in order |
| `ImgChunks.LongImageInOrder` | src/img_chunks.ts:17-27 | the PNG messages go strictly top to bottom, each one `chunkHeight` rows below the previous |
| `JsString.Trim` | src/index.ts:47 | `trim` removes exactly the leading and trailing whitespace: the input is whitespace, the result, whitespace; the result is unpadded and is empty iff the input is all whitespace |
| `JsString.TrimUnique` | src/index-test.ts:20 | for an unpadded text between whitespace, `trim` returns exactly that text |
| `JsString.TrimIdempotent` | src/index-test.ts:20 | trimming twice equals trimming once |
| `JsString.IndexOf` | src/request_llm.ts:92 | `indexOf` returns -1 iff the pattern does not occur; otherwise an occurrence with none before it |
| `JsString.IndexOfFirst` | src/request_llm.ts:92 | an occurrence with none before it is exactly what `indexOf` returns |
| `Messaging.Session.Send` | src/index.ts:45 | each `session.send` appends its message to the log after everything sent before, and never fails |
| `SendImg.Keyword` | src/index.ts:47 | the keyword is the text after the prefix without surrounding whitespace, no longer than that text, and empty iff only whitespace follows the prefix |
| `SendImg.ImagePath` | src/index.ts:53-57 | the path joins three segments, the file name last, so distinct file names give distinct segment lists (what `path.resolve` makes of them is not modelled) |
| `SendImg.EffectiveLimit` | src/index.ts:65 | the limit is the reported one when nonzero, else 1048576 (for a missing function too); it is never 0 |
| `SendImg.SizeGate` | src/index.ts:66-69 | whole-image delivery iff `fileSize <= limit`; otherwise a split at 2048 rows |
| `SendImg.Lookup` | src/index.ts:49-50 | a file name is found iff the keyword is in the table with a non-empty name, and it is that name |
| `SendImg.Plugin.Apply` | src/index.ts:31-38 | the keyword table is the parsed file, or stays empty when reading or parsing fails |
| `SendImg.Plugin.OnMessage` | src/index.ts:41-86 | the handler appends exactly `MessageActions` to the session's log |
| `SendImg.Deliver` | src/index.ts:58-85 | the `try` block appends exactly `DeliveryActions`: nothing for a missing file, else the split or whole-image sends chosen by the size gate |
| `SendImg.KnownKeywordDelivers` | src/index.ts:47-58 | a keyword mapped to a non-empty name gets the echo, then the delivery of the file at the resolved path for that name |
| `SendImg.UnprefixedIgnored` | src/index.ts:44 | a message without the prefix produces no send at all |
| `SendImg.EchoFirst` | src/index.ts:45 | a prefixed message is first echoed as `content + "," + prefix`, before any lookup result |
| `SendImg.KeywordOfPaddedMessage` | src/index.ts:47 | the keyword looked up is the message with the prefix removed, then trimmed |
| `SendImg.UnknownKeywordOnlyEcho` | src/index.ts:49-50 | an absent keyword, or one mapped to an empty name, stops after the echo |
| `SendImg.FailedTableOnlyEchoes` | src/index.ts:32-50 | with the empty table left by a failed load, every prefixed message gets only its echo |
| `SendImg.MissingFileOnlyEcho` | src/index.ts:60-63 | a keyword whose file does not exist sends nothing beyond the echo |
| `SendImg.WithinLimitSentWhole` | src/index.ts:69-81 | a file no larger than the limit gets exactly: the echo, the `<image file=…/>` tag, the PNG data URL, the caption with the JPEG buffer, then the stream with the file name |
| `SendImg.OverLimitSentAsStrips` | src/index.ts:66-68 | a larger file gets the echo, the split notice, then one PNG per 2048-row strip in order when every strip renders |
| `SendImg.DefaultConfigMissingFile` | src/index.ts:18-63 | with the default configuration, `#keyword` is echoed as `#keyword,#` and its file is looked for under `./data/images`; a missing file adds nothing |
| `SendImg.FallbackLimitBoundary` | src/index.ts:65-66 | with no reported limit (or 0), exactly 1 MiB goes whole and one byte more is split |
| `ImageSender.IsProductModel` | src/index-test.ts:21 | a model passing `^[a-zA-Z0-9]+$` is non-empty, has no whitespace at either end and holds no `/` or `.` |
| `ImageSender.ProductImagePath` | src/index-test.ts:23 | the path starts with the library path, ends in `.jpg`, and is six characters longer than its three parts |
| `ImageSender.ProductImagePathParts` | src/index-test.ts:23 | the path is the literal `lib + "/" + type + "/" + model + ".jpg"`, and lib, type and model can be read back at fixed positions |
| `ImageSender.DefaultLibraryDoubleSlash` | src/index-test.ts:13-23 | with the default library `./data/images/` the path contains `//` |
| `ImageSender.ProductModelIsPathSafe` | src/index-test.ts:20-21 | a model that passes `^[a-zA-Z0-9]+$` is already trimmed and holds no `/` or `.` |
| `ImageSender.Middleware` | src/index-test.ts:18-39 | the middleware appends exactly `Respond(config, content).sent` and returns whether `next()` is called |
| `ImageSender.UnprefixedFallsThrough` | src/index-test.ts:19-38 | an unprefixed message sends nothing and falls through to `next()` |
| `ImageSender.NextIffNoImage` | src/index-test.ts:22-38 | at most one message is sent, and `next()` is reached iff no image was sent |
| `ImageSender.InvalidModelRejected` | src/index-test.ts:34-38 | an empty or non-alphanumeric model gets the invalid-model reply, then `next()` |
| `ImageSender.ValidModelFirstTypeOnly` | src/index-test.ts:20-27 | a valid model with types configured sends one image, for the first type only, and `next()` is not reached |
| `ImageSender.NoTypesNotFound` | src/index-test.ts:22-33 | a valid model with no types configured gets the not-found reply, then `next()` |
| `RequestLlm.RemoveContentBeforeThinkingTag` | src/request_llm.ts:90-100 | the result is a suffix of the input and never longer; without `</thinking>` it is the input unchanged |
| `RequestLlm.CutAfterFirstTag` | src/request_llm.ts:92-99 | when the tag first occurs at `k`, the result is the text after it, of length `|input| - k - 11`, and input = before + tag + result |
| `RequestLlm.CutPointIsFirstTag` | src/request_llm.ts:92 | when the tag occurs, the cut point read off the result's length holds the tag and no earlier position does |
| `RequestLlm.UserPrompt` | src/request_llm.ts:106-110 | content shorter than 6 characters selects the fixed default prompt, otherwise the content verbatim; the prompt is never shorter than 6 |
| `RequestLlm.BuildRequest` | src/request_llm.ts:46-58 | the request has the model name, three `system` messages (role, product introduction, thinking format), then one `user` message carrying the prompt, temperature 0.6 and 4096 max tokens |
| `RequestLlm.GetAIResponse` | src/request_llm.ts:32-87 | a reply is returned iff the files load and the answer has status 200; every error is rethrown as "AI 处理失败: " followed by the cause's message (the file error, the client's rejection, or "API 请求失败: " + status text) |
| `RequestLlm.PrestChat` | src/request_llm.ts:103-129 | a request is posted iff the prompt files load, and it is `BuildRequest` of the prompt chosen from the message; something is sent iff the answer also has status 200, and then the text sent is the text returned |
| `RequestLlm.Non200Reported` | src/request_llm.ts:69-71 | a resolved status other than 200 (in practice a 2xx one, since the client rejects the rest itself) reaches the caller as "请求失败: AI 处理失败: API 请求失败: " + status text, with nothing sent |
| `RequestLlm.FailuresReturned` | src/request_llm.ts:113-128 | every failure is returned instead of thrown, as "请求失败: " + the error `getAIResponse` raised (so it starts "请求失败: AI 处理失败: " and ends with the cause's message), and nothing is sent |
| `RequestLlm.SuccessSendsCleanedReply` | src/request_llm.ts:114-125 | on status 200 the cleaned reply is sent and returned, it is a suffix of the model's text, and the posted request's last message is the chosen prompt as a `user` message |

## Left out

- Pixel copying and PNG encoding by the canvas library. An image is its dimensions, a strip is its geometry, and a strip that cannot be drawn or encoded is given by the `canRender` parameter.
- The file system (`existsSync`, `stat`, `readFileSync`, `createReadStream`, `readFile`). Its answers for a resolved path are the `disk` parameter. A `stat` or read that throws after `existsSync` succeeded is not modelled: the handler only logs it.
- `path.resolve` and `ctx.baseDir`. A resolved path is the list of segments it joins.
- Base64 encoding and the byte contents of messages. A message records what kind of send happened and with which path.
- Logging, `JSON.parse` of the configuration files, the HTTP call and the reply's timestamp. They are I/O; their outcomes are parameters (`table`, `files`, `http`).
- A keyword table that parses to something other than a string map, and keys inherited from `Object.prototype`. Lookups of those behave in JavaScript-specific ways.
- How the chain-of-thought object renders inside the template (`[object Object]` for an object). It is the `chainOfThought` string of `PromptFiles`.
- A reply whose JSON shape lacks `choices[0].message.content`, and a rejected `session.send` inside `prest_chat`. Both would also surface as "请求失败: …".
- Concurrency: the echo (src/index.ts:45, on every path), the split path's sends and the middleware's sends are not awaited and could interleave with other handlers. The model records them in the order they are issued.
- Messaging.Session.Send: a send never fails. On the whole-image path (src/index.ts:71-81) the four sends are awaited, so a rejected send would skip the ones after it and the handler would only log the error; the model always issues all four.
- JavaScript's floating-point `Math.ceil(height / chunkHeight)` and `chunkHeight <= 0`. Dimensions are naturals; the only call (src/index.ts:67) passes 2048, and 800 is the default.
- String lengths in UTF-16 code units. Strings are sequences of code points, which differ only for characters outside the Basic Multilingual Plane.
- The `area` parameter of `sendLongImage`, which the code never reads.
