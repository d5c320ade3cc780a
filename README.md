# Network download tasks, modelled in Dafny

This project models the download engine in `Network.java` of Beebdroid, an
Android application. The engine has three task variants. Each task is run once.

- `DownloadTextTask` fetches a small text body and its ETag.
- `DownloadJsonTask` parses that text and dispatches on the shape of the value.
- `DownloadBinaryTask` streams a body of any size into a local file. It can
  resume a partial file with a `Range: bytes=N-` request (RFC 9110, section
  14.1.2; a resumed answer is 206 Partial Content, section 15.3.7). It reports
  progress after every block and can be cancelled.

All three share `processStatusLine`, which accepts only 200 and 206. 403 becomes
"Access Denied" and every other code "HTTP Error <code>".

The network, the file system and the task runtime are replaced by plain inputs:

- The connection is a value. For the text task it is a status line, an ETag and
  a body text. For the binary task it is a status line, a content type, a content
  length, how far opening the stream and the local file gets, a body made of
  blocks, and the exception a closing `close()` may throw.
- A transport failure is an `IoError` value, which marks `UnknownHostException`
  and carries a message that may be null.
- The body is the sequence of blocks that `InputStream.read` returns. When the
  stream breaks, the exception comes from the read after the last block.
- Cancellation is the list of values `isCancelled()` returns after each block,
  plus the value it returns in `onPostExecute`.
- Callbacks are return values (`TextCallback`, `JsonCallback`, `BinaryCallback`),
  so each variant delivers one value per run. The JSON task returns a sequence.
- The local file is a `LocalFile` object: a presence flag and a byte sequence.
  `RandomAccessFile` writes into it at a file pointer.

Modules, one per part of the source:

- `Strings`: nullable strings, Java's `+` with a null operand (which gives
  "null"), and decimal rendering with its parser.
- `Io`: `IOException`, the local file, `RandomAccessFile` in "rw" mode and the
  body stream.
- `DownloadBase`: `processStatusLine` as the function `StatusLine` and as the
  method of the class `DownloadTaskBase`, which holds `httpCode` and
  `errorMessage`.
- `DownloadText`, `DownloadJson`, `DownloadBinary`: the three task variants.
  Each task class holds its own fields and a `DownloadTaskBase` for the shared
  ones, as composition instead of inheritance.
- `BinaryProperties`: lemmas about the binary download.

The binary `doInBackground` is imperative. It is the method
`DownloadBinaryTask.DoInBackground`, together with its parts `InspectFile`,
`Transfer`, `Copy` and `StreamBody`. `StreamBody` is a `while` loop that reads
each block into a 16384-byte array, writes it at the file pointer and appends a
progress entry. Each method is proved against a specification function:
`DoInBackground` equals `Download`, `InspectFile` equals `ResumeSetup`,
`Transfer` equals `Streamed` and `Copy` equals `Copied`. `StreamBody` leaves
the file as the bytes it had followed by `Flatten` of the blocks written, and
its progress calls are `ProgressLog` of those blocks. The lemmas in
`BinaryProperties` are stated about `Download`.

On these points the code does something subtle, and the model follows it:

- Cancellation is checked after each block is written, not before each read.
  A non-empty stream therefore always writes at least one block.
- An unknown content length (-1) is not treated as "unknown". The total becomes
  `offset + (-1)`.
- The field `cbDownloaded` is never written: a local variable with the same name
  shadows it, so the field keeps its initial 0.
- After a transport failure on the status line, the failure's own message is
  overwritten by "HTTP Error 500".
- An existing file is deleted (when not appending) before the connection is
  made. A later connect, status, `getInputStream` or file-open failure therefore
  leaves no file, and the next appending session sends no `Range` header.
- A failing `getInputStream` leaves `cbTotalSize` as it was. A failing open or
  seek of the local file comes after the total is set.
- A `Range` request answered with 200 passes the status check. When the server
  ignored the range, the whole body is appended after the partial file
  (`RangeIgnored`).
- When closing the file or the stream throws after the loop, the catch clause
  turns the run into a failure, also after a cancellation. After a failing
  read, a failing close is suppressed and the read's exception is reported.
- A `JSONException` thrown by the client's `onDownloadJsonComplete` is caught
  by the same `catch` as a parse error. `onError` then runs after the value was
  already delivered: two callbacks.
- For a fresh binary task the "Unspecified error" fallback cannot be reached,
  because every failure path stores a message. For the text task it is reached
  exactly when the body text is null.

## Model

| member | source | states |
|---|---|---|
| `Strings.IntToStringRoundTrip` | app/src/main/java/common/Network.java:50 | the decimal text that Java's string concatenation writes for an integer reads back as the same integer |
| `Strings.IntToStringInjective` | app/src/main/java/common/Network.java:50 | different integers are written as different decimal text |
| `Strings.IntToString` | app/src/main/java/common/Network.java:50 | the decimal text of an integer is canonical: digits with no leading zero, and a minus sign exactly for a negative number, never before a zero |
| `Strings.CanonicalIsRendering` | app/src/main/java/common/Network.java:50 | every canonical numeral is the rendering of the integer it reads as, so reading back and the canonical form together fix the text |
| `DownloadBase.StatusMessage` | app/src/main/java/common/Network.java:45-51 | the message of a rejected code is "Access Denied" exactly for 403. Any other code gives "HTTP Error " followed by a canonical numeral that reads back as the code, which by `CanonicalIsRendering` is exactly the code's decimal text |
| `DownloadBase.StatusLine` | app/src/main/java/common/Network.java:36-55 | proceeds exactly for codes 200 and 206. When it does, the stored message is left as it was. A rejected code leaves "Access Denied" for 403 and "HTTP Error <code>" otherwise. A transport failure gives code 500 and finally "HTTP Error 500": the transport message is lost |
| `DownloadBase.StatusMessageInjective` | app/src/main/java/common/Network.java:45-51 | two rejected codes leave the same message only when they are the same code |
| `DownloadBase.StatusLineIdempotent` | app/src/main/java/common/Network.java:36-55 | classifying the same status line again gives the same verdict and fields |
| `DownloadBase.ErrorText` | app/src/main/java/common/Network.java:97-99 | the reported message is never empty. It is the stored message, or "Unspecified error" when that is null or empty |
| `DownloadBase.DownloadTaskBase.constructor` | app/src/main/java/common/Network.java:29-30 | a new task starts with Java's default field values: `errorMessage` null and `httpCode` 0 |
| `DownloadBase.DownloadTaskBase.ProcessStatusLine` | app/src/main/java/common/Network.java:36-55 | the method's answer and its new `httpCode` and `errorMessage` are those of `StatusLine` |
| `DownloadBase.DownloadTaskBase.ReportError` | app/src/main/java/common/Network.java:96-101 | delivers `ErrorText` of the old message and leaves it stored in the field |
| `DownloadText.CaughtMessage` | app/src/main/java/common/Network.java:86-91 | the message the catch clauses store is "No network" exactly for an unknown host. Otherwise it is "Error during download: " followed by the exception's message, or "null" when that is null |
| `DownloadText.RunText` | app/src/main/java/common/Network.java:71-93 | `doInBackground` leaves the code of the status line, or the old code when the request fails. It leaves the caught message for a request or body failure and the status line's message otherwise. A result is returned only when it is the body text of an opened connection. Its ETag and null-result facts are in `TextRunFields` |
| `DownloadText.TextRunFields` | app/src/main/java/common/Network.java:71-93 | the ETag is the header value, or "" when the header is missing, and is stored only after the status line passes. A result is returned exactly when the status passes and the body text is non-null. Every other null result comes with a non-empty message, except a null body text |
| `DownloadText.PostText` | app/src/main/java/common/Network.java:95-105 | `onPostExecute` reports an error exactly for a null result, with `ErrorText` of the stored message, which is never empty. Any other result is handed on as the text |
| `DownloadText.TextOutcome` | app/src/main/java/common/Network.java:71-105 | a fresh text task invokes one callback. It is completion with the text exactly when the status is 200 or 206 and the body text is non-null. Otherwise it reports the request's or body's exception ("No network" exactly for an unknown host), the status message, or "Unspecified error" exactly for a null body. No message is empty |
| `DownloadText.DownloadTextTask.constructor` | app/src/main/java/common/Network.java:65 | a new text task has the base's default fields and an empty `responseETag` |
| `DownloadText.DownloadTextTask.DoInBackground` | app/src/main/java/common/Network.java:71-93 | the returned text and the new `httpCode`, `errorMessage` and `responseETag` are those of `RunText` on the old fields |
| `DownloadText.DownloadTextTask.OnPostExecute` | app/src/main/java/common/Network.java:95-105 | invokes the callback `PostText` gives and stores the fallback message for a null result |
| `DownloadJson.Dispatch` | app/src/main/java/common/Network.java:119-136 | an object or array reaches `onDownloadJsonComplete` with that value. Any other value gives "JSON response is an unexpected data type". A parse exception gives "JSONException while parsing response: " followed by its message. A second callback, `onError`, follows only when the handler itself throws |
| `DownloadJson.JsonOutcome` | app/src/main/java/common/Network.java:95-136 | a text failure reaches `onError` unchanged. A value is delivered exactly when the text arrives and parses to an object or array. There is exactly one callback unless the handler throws. A completed text gives exactly the callbacks of `Dispatch` on its parse: the parsed value itself, "JSON response is an unexpected data type", the parse exception's prefixed message, or the value followed by the handler exception's prefixed message |
| `DownloadBinary.RangeValue` | app/src/main/java/common/Network.java:173 | the header value is "bytes=", then canonical decimal digits with no leading zero, then "-". `RangeRoundTrip` reads the offset back from it, and by `CanonicalIsRendering` the two fix the exact text |
| `DownloadBinary.RangeRoundTrip` | app/src/main/java/common/Network.java:173 | a server reading the `Range` value `bytes=N-` recovers the offset N |
| `DownloadBinary.ResumeSetup` | app/src/main/java/common/Network.java:165-175 | a `Range` header is added exactly when the file exists and `append` is set, even for an empty file. It asks for the bytes from the file's length on. Without append an existing file is removed and the offset is 0. A missing file gives offset 0 and no header |
| `DownloadBinary.FirstCancel` | app/src/main/java/common/Network.java:195-202 | the first block after which cancellation is observed: no earlier block observes it, and the block found does |
| `DownloadBinary.BlocksWritten` | app/src/main/java/common/Network.java:195-202 | the loop writes at most all blocks, and at least one of a non-empty stream. It runs on past every block without cancellation and stops after the first block that observes it |
| `DownloadBinary.ProgressLog` | app/src/main/java/common/Network.java:194-198 | one progress entry per block written, each with the same total, the last one at the offset plus all bytes written. Its ordering facts are in `ProgressLogFacts` |
| `DownloadBinary.Download` | app/src/main/java/common/Network.java:161-211 | `doInBackground` returns "OK" or null. "OK" comes only when the stream and the file opened, and null always leaves a non-empty message. The code is the status line's, or the old one when connecting fails. The `Range` header is the one `ResumeSetup` chooses, and none when `getHttpRequest` fails. Cancellation is reported only when the loop ran. The file and progress facts are in the `BinaryProperties` lemmas |
| `DownloadBinary.Streamed` | app/src/main/java/common/Network.java:180-210 | after a passing status line, the content type is "" when absent and the code is unchanged. The total keeps its old value exactly when `getInputStream` fails, and is the offset plus the content length otherwise. A failing open of the stream or the file gives null, no progress, the file as it was and the prefixed message. The result is null exactly when an open fails or `TransferFailure` gives an exception |
| `DownloadBinary.Copied` | app/src/main/java/common/Network.java:190-209 | with both open: the file is the kept bytes followed by the blocks written, and there is one progress call per block written. The result is "OK" exactly when `TransferFailure` gives no exception; otherwise the message names that exception. No other field changes. The loop was cancelled exactly when some block observed cancellation |
| `DownloadBinary.TransferFailure` | app/src/main/java/common/Network.java:185-209 | with the stream and the file open, the catch clause receives the read's exception after the last block when the loop gets there, and otherwise exactly the close's exception. There is none exactly when no close fails and the loop stopped by cancellation or at a clean end |
| `DownloadBinary.BinaryOutcome` | app/src/main/java/common/Network.java:161-226 | a fresh binary task that is cancelled by delivery time invokes nothing. Otherwise it reports the exception of the request, the connect, `getInputStream`, the file open, the stream or a close (a failing read wins over a failing close), or the status message, or it completes. It never reports "Unspecified error" |
| `DownloadBinary.PostBinary` | app/src/main/java/common/Network.java:213-226 | `onPostExecute` invokes nothing exactly when cancelled. It reports an error exactly when the task was not cancelled and the result is null, with `ErrorText` of the stored message |
| `DownloadBinary.DownloadBinaryTask.constructor` | app/src/main/java/common/Network.java:146-158 | a new binary task keeps its `append` flag, has `cbTotalSize` -1, `cbDownloaded` 0, a null `contentType` and the base's default fields: the fields `FreshFields` names |
| `DownloadBinary.DownloadBinaryTask.DoInBackground` | app/src/main/java/common/Network.java:161-211 | the return value, the `Range` header, the progress calls, the local file and the fields are those of `Download`. The field `cbDownloaded` does not change |
| `DownloadBinary.DownloadBinaryTask.InspectFile` | app/src/main/java/common/Network.java:165-175 | offset, header and file state are those of `ResumeSetup` |
| `DownloadBinary.DownloadBinaryTask.Transfer` | app/src/main/java/common/Network.java:180-210 | after a passing status line: the content type is "" when absent. A failing `getInputStream` leaves the total as it was, a failing file open or seek comes after the total is set to offset plus content length, and neither changes the file. The rest is as `Streamed` gives |
| `DownloadBinary.DownloadBinaryTask.Copy` | app/src/main/java/common/Network.java:190-209 | opening, seeking, the loop, the closes and the catch clause give the result, progress calls, file and fields of `Copied` |
| `DownloadBinary.DownloadBinaryTask.StreamBody` | app/src/main/java/common/Network.java:194-202 | the file is the bytes it had followed by the blocks written. The progress calls are `ProgressLog` of those blocks. A stream failure is returned only when the loop reached it without observing cancellation |
| `DownloadBinary.DownloadBinaryTask.OnPostExecute` | app/src/main/java/common/Network.java:213-226 | invokes what `PostBinary` gives: nothing when cancelled, else `onError` with the stored message or the fallback, else completion |
| `Io.Overwrite` | app/src/main/java/common/Network.java:192-196 | writing at a position keeps the bytes before it, puts the data there, keeps any bytes after it and extends the file when needed |
| `Io.RandomAccessFile.constructor` | app/src/main/java/common/Network.java:190 | opening in "rw" mode keeps an existing file and creates an empty one otherwise. The pointer starts at 0 |
| `Io.RandomAccessFile.Write` | app/src/main/java/common/Network.java:196 | the file content becomes `Overwrite` at the pointer, and the pointer advances by the length written |
| `Io.InputStream.constructor` | app/src/main/java/common/Network.java:185 | a successful `getInputStream()` gives a stream over the response body, positioned at its first block |
| `Io.InputStream.Read` | app/src/main/java/common/Network.java:195 | fills the buffer with the next block and returns its size. At the end it returns EndOfStream, or the body's exception |
| `Io.LocalFile.Exists` | app/src/main/java/common/Network.java:166 | answers whether the file is present |
| `Io.LocalFile.Length` | app/src/main/java/common/Network.java:171 | the file's length in bytes, or 0 for a missing file |
| `Io.RandomAccessFile.Seek` | app/src/main/java/common/Network.java:191-193 | moves the file pointer to the given position |
| `Io.LocalFile.Delete` | app/src/main/java/common/Network.java:168 | the file no longer exists |
| `BinaryProperties.ProgressLogFacts` | app/src/main/java/common/Network.java:194-198 | one progress call per block. The total is fixed. The counter starts at the offset plus the first block, grows by each block's size, strictly increases, and ends at the offset plus all bytes written |
| `BinaryProperties.FileAfterDownload` | app/src/main/java/common/Network.java:162-208 | a failing `getHttpRequest` leaves the file untouched. A connect, status, `getInputStream` or file-open failure leaves it deleted unless appending, and creates no file. Otherwise the file is the kept old bytes followed by the blocks written, also after a stream or close failure, and nothing before the offset changes |
| `BinaryProperties.DownloadProgress` | app/src/main/java/common/Network.java:185-198 | the total stays as it was when `getInputStream` throws and is offset plus content length (offset - 1 when the length is unknown) once it succeeds. No progress calls unless the loop runs. Otherwise there is one per block written, each with that total. The counter strictly increases and ends at the offset plus the bytes written |
| `BinaryProperties.CancelStopsAfterBlock` | app/src/main/java/common/Network.java:195-209 | cancellation first observed after block k leaves exactly k + 1 blocks in the file and k + 1 progress calls. `doInBackground` returns "OK" exactly when no close then throws; a failing close is reported as "Exception in download: " and its message |
| `BinaryProperties.FailureKeepsData` | app/src/main/java/common/Network.java:195-209 | a broken stream gives a null result and "Exception in download: " followed by its message, also when a close then fails, and keeps every block already written |
| `BinaryProperties.ReplaceWhenNotAppending` | app/src/main/java/common/Network.java:166-169 | without append, a download that runs to the end leaves exactly the new bytes, whatever file was there before, given that the delete succeeds (see `Io.LocalFile.Delete` under Left out) |
| `BinaryProperties.ResumeEqualsUninterrupted` | app/src/main/java/common/Network.java:165-202 | take a first session that stopped anywhere after its status line and left a file, and a second, appending session whose server sends the bytes its `Range` header asks for. Together they leave the same file as one uninterrupted session |
| `BinaryProperties.RangeIgnored` | app/src/main/java/common/Network.java:165-202 | a server that ignores `Range` and answers 200 with the whole resource is accepted. The appending session then leaves the partial file followed by the whole body, so a non-empty partial file never becomes the resource |
| `BinaryProperties.DeliveryFollowsEnding` | app/src/main/java/common/Network.java:213-226 | with a cancellation flag that never resets: a cancelled run returned "OK" exactly when no close failed, and delivers nothing either way. A failure reports its message and a completion completes, unless cancelled by delivery time |

## Left out

- Threading and the task runtime (`AsyncTask`, `publishProgress` marshalling, `isCancelled` internals): concurrency of the framework. Progress calls are returned as a list; cancellation is a list of observed values.
- Building and sending the request (`getHttpRequest`, URL, headers other than `Range`): caller-supplied and network I/O. The `Range` header is returned as a value.
- `Utils.getHttpResponseText` is not part of this model. Its result is an input (text, null, or an exception).
- The JSON parser (`JSONTokener`) is a foreign library. Its result is an input (a value or an exception). The client's `onDownloadJsonComplete` is a function saying whether it throws.
- Logging (`Log`): it has no effect on the behaviour.
- Closing the stream and the file has no effect on the content; only the exception a close may throw is modelled, one for both closes (when both throw, the second is suppressed).
- A failing `seek` is modelled as a failing open of the file. Both leave the file as the inspection left it, since a seek happens only on an existing file.
- A failing `write`, and a read that fails in the middle of a block, are not separate inputs. The nearest input is a stream that breaks after the previous block; a partly written block is not modelled.
- `Io.RandomAccessFile.Write` requires the pointer to lie within the file. In the model the task only ever writes at the end of the file, so a seek past the end is not modelled.
- `Io.LocalFile.Delete` always succeeds. `File.delete()` can fail, and its answer is ignored. Then the old file stays, the "rw" open keeps it, and with offset 0 there is no seek. The loop overwrites it from byte 0 without truncating, so an old file longer than the new body keeps its tail. The model does not cover that case, and `ReplaceWhenNotAppending` holds only when the delete succeeds.
- Java's 32-bit `int` and 64-bit `long` are unbounded integers here. The offset, content length and counters never come near those limits.
- Android's own rule that `onPostExecute` is not called after a cancellation is not modelled. The model follows the code's own `isCancelled()` check.
