/** `Network.DownloadBinaryTask`: a resumable download of any size into a local
    file, with a `Range: bytes=N-` request (RFC 9110, section 14.1.2) when an
    existing file is appended to, progress after every block, and cooperative
    cancellation polled after every block. */
module DownloadBinary {
  import opened Strings
  import opened Io
  import opened DownloadBase

  /** The size of `sBuffer`, the block buffer of the streaming loop. */
  const BufferSize := 16384

  const DownloadFailurePrefix := "Exception in download: "

  /** How far opening the transfer gets once the status line has passed:
      `getInputStream()` throws, opening the local file or seeking in it throws,
      or both the stream and the file are open. */
  datatype Opening = Opens | StreamFails(error: IoError) | FileFails(error: IoError)

  /** The connection as the binary task sees it: `getHttpRequest` throws,
      `connect` throws, or the status line, `Content-Type`, `getContentLength()`
      (-1 when unknown), the opening of the transfer, the body stream and, when
      closing the file or the stream at the end of the try block throws, that
      exception. */
  datatype Connection =
    | RequestFails(error: IoError)
    | ConnectFails(error: IoError)
    | Connected(status: StatusRead, contentType: Option<string>, contentLength: int,
                opening: Opening, body: Body, closeFailure: Option<IoError>)

  predicate WellFormed(conn: Connection)
  {
    conn.Connected? ==> FitsIn(conn.body, BufferSize)
  }

  /** One `publishProgress(cbDownloaded, cbTotalSize)` call. */
  datatype Progress = Progress(downloaded: int, total: int)

  /** The fields of the task that `doInBackground` may change. */
  datatype Fields = Fields(httpCode: int, errorMessage: Option<string>, contentType: Option<string>, totalSize: int)

  /** The fields of a newly constructed task. */
  const FreshFields := Fields(0, None, None, -1)

  /** The `Range` header value `"bytes=" + offset + "-"`: an open-ended byte
      range whose first position is written in canonical decimal digits. */
  function RangeValue(offset: nat): (r: string)
    ensures |r| >= 8 && r[..6] == "bytes=" && r[|r| - 1] == '-'
    ensures AllDigits(r[6..|r| - 1]) && CanonicalNat(r[6..|r| - 1])
  {
    assert ("bytes=" + IntToString(offset) + "-")[6..|"bytes=" + IntToString(offset) + "-"| - 1] == IntToString(offset);
    "bytes=" + IntToString(offset) + "-"
  }

  /** How a server reads an open-ended byte range `bytes=N-`: the first byte it is to send. */
  function ParseRange(v: string): Option<nat>
  {
    if |v| >= 8 && v[..6] == "bytes=" && v[|v| - 1] == '-' && AllDigits(v[6..|v| - 1])
    then Some(ParseNat(v[6..|v| - 1]))
    else None
  }

  lemma RangeRoundTrip(offset: nat)
    ensures ParseRange(RangeValue(offset)) == Some(offset)
  {
    var v := RangeValue(offset);
    assert v[6..|v| - 1] == NatToString(offset);
    assert v[..6] == "bytes=";
    ParseNatToString(offset);
  }

  /** The local file, resume offset and `Range` header once the existing file
      has been inspected, before the connection is made. */
  datatype Setup = Setup(file: Option<seq<byte>>, offset: nat, range: Option<string>)

  /** Inspecting the local file before connecting: an existing file is deleted, or, when appending, its length
      becomes the resume offset and the request asks for the bytes from there on. */
  function ResumeSetup(file: Option<seq<byte>>, append: bool): (s: Setup)
    ensures s.range.Some? <==> file.Some? && append
    ensures s.range.Some? ==> ParseRange(s.range.value) == Some(s.offset)
    ensures s.offset == if file.Some? && append then |file.value| else 0
    ensures s.file == if append then file else None
    ensures s.file.Some? ==> s.offset == |s.file.value|
  {
    if file.Some? && append then
      RangeRoundTrip(|file.value|);
      Setup(file, |file.value|, Some(RangeValue(|file.value|)))
    else
      Setup(None, 0, None)
  }

  /** `isCancelled()` as seen right after block `k` was written. */
  predicate Observed(cancel: seq<bool>, k: nat)
  {
    k < |cancel| && cancel[k]
  }

  /** The first of the blocks `k` to `n - 1` after which cancellation is seen, or `n`. */
  function FirstCancel(cancel: seq<bool>, n: nat, k: nat): (j: nat)
    requires k <= n
    ensures k <= j <= n
    ensures j < n ==> Observed(cancel, j)
    ensures forall i :: k <= i < j ==> !Observed(cancel, i)
    decreases n - k
  {
    if k == n then n else if Observed(cancel, k) then k else FirstCancel(cancel, n, k + 1)
  }

  lemma FirstCancelIs(cancel: seq<bool>, n: nat, c: nat)
    requires c <= n && (c < n ==> Observed(cancel, c))
    requires forall j :: 0 <= j < c ==> !Observed(cancel, j)
    ensures FirstCancel(cancel, n, 0) == c
  {
  }

  /** The number of blocks written: the loop ends after the block at which
      cancellation is first seen, or when the stream has no more blocks. */
  function BlocksWritten(cancel: seq<bool>, n: nat): (b: nat)
    ensures b <= n
    ensures n > 0 ==> b > 0
    ensures forall j :: 0 <= j < b - 1 ==> !Observed(cancel, j)
    ensures b < n ==> Observed(cancel, b - 1)
  {
    var c := FirstCancel(cancel, n, 0);
    if c < n then c + 1 else n
  }

  /** The bytes of the blocks, in order. */
  function Flatten(chunks: seq<seq<byte>>): seq<byte>
    decreases |chunks|
  {
    if chunks == [] then [] else Flatten(chunks[..|chunks| - 1]) + chunks[|chunks| - 1]
  }

  lemma FlattenStep(chunks: seq<seq<byte>>, k: nat)
    requires k < |chunks|
    ensures Flatten(chunks[..k + 1]) == Flatten(chunks[..k]) + chunks[k]
  {
    assert chunks[..k + 1][..k] == chunks[..k];
  }

  /** The progress calls after the first `k` blocks, the counter starting at `offset`. */
  function ProgressLog(chunks: seq<seq<byte>>, offset: int, total: int, k: nat): (log: seq<Progress>)
    requires k <= |chunks|
    ensures |log| == k
    ensures forall i :: 0 <= i < k ==> log[i].total == total
    ensures k > 0 ==> log[k - 1].downloaded == offset + |Flatten(chunks[..k])|
  {
    if k == 0 then [] else ProgressLog(chunks, offset, total, k - 1) + [Progress(offset + |Flatten(chunks[..k])|, total)]
  }

  /** Everything `doInBackground` does: its return value ("OK" or null), the
      local file afterwards, the `Range` header it added, the progress calls,
      the task's fields, and whether the loop was left because of cancellation. */
  datatype BinaryRun = BinaryRun(
    result: Option<string>,
    file: Option<seq<byte>>,
    range: Option<string>,
    progress: seq<Progress>,
    fields: Fields,
    cancelled: bool)

  /** `doInBackground`, given the local file, the `append` flag, the connection,
      the cancellation observations and the fields it starts from. The total is
      the offset plus `getContentLength()`, also when that is -1. */
  function Download(file: Option<seq<byte>>, append: bool, conn: Connection, cancel: seq<bool>, fields: Fields): (r: BinaryRun)
    requires WellFormed(conn)
    ensures r.result.Some? ==> r.result == Some("OK") && conn.Connected? && conn.opening.Opens?
    ensures r.result.None? ==> !IsEmpty(r.fields.errorMessage)
    ensures r.fields.httpCode == if conn.Connected? then StatusLine(conn.status, fields.errorMessage).httpCode else fields.httpCode
    ensures r.range == if conn.RequestFails? then None else ResumeSetup(file, append).range
    ensures r.cancelled ==> conn.Connected? && conn.opening.Opens?
  {
    match conn
    case RequestFails(e) =>
      BinaryRun(None, file, None, [], fields.(errorMessage := Some(Concat(DownloadFailurePrefix, e.message))), false)
    case ConnectFails(e) =>
      var s := ResumeSetup(file, append);
      BinaryRun(None, s.file, s.range, [], fields.(errorMessage := Some(Concat(DownloadFailurePrefix, e.message))), false)
    case Connected(status, _, _, _, _, _) =>
      var s := ResumeSetup(file, append);
      var v := StatusLine(status, fields.errorMessage);
      if !v.proceed then
        BinaryRun(None, s.file, s.range, [], fields.(httpCode := v.httpCode, errorMessage := v.errorMessage), false)
      else
        Streamed(s, conn, cancel, fields.(httpCode := v.httpCode, errorMessage := v.errorMessage))
  }

  /** The exception that ends the transfer once the stream and the file are
      open: the read after the last block, when the loop gets there, and
      otherwise a failing close. A close failure after a failing read is
      suppressed by try-with-resources. */
  function TransferFailure(conn: Connection, cancel: seq<bool>): (e: Option<IoError>)
    requires conn.Connected?
    ensures FirstCancel(cancel, |conn.body.chunks|, 0) == |conn.body.chunks| && conn.body.failure.Some? ==>
      e == conn.body.failure
    ensures !(FirstCancel(cancel, |conn.body.chunks|, 0) == |conn.body.chunks| && conn.body.failure.Some?) ==>
      e == conn.closeFailure
    ensures e.None? <==>
      conn.closeFailure.None? && (FirstCancel(cancel, |conn.body.chunks|, 0) < |conn.body.chunks| || conn.body.failure.None?)
  {
    if FirstCancel(cancel, |conn.body.chunks|, 0) == |conn.body.chunks| && conn.body.failure.Some?
    then conn.body.failure
    else conn.closeFailure
  }

  /** Everything after a passing status line, including the catch clause, from
      the fields the status line left. The content type is set first; a failing
      `getInputStream()` leaves the total unset, a failing open or seek of the
      file leaves the file as the inspection left it. */
  function Streamed(s: Setup, conn: Connection, cancel: seq<bool>, fields: Fields): (r: BinaryRun)
    requires conn.Connected? && FitsIn(conn.body, BufferSize)
    requires s.offset == if s.file.Some? then |s.file.value| else 0
    ensures r.range == s.range && r.fields.httpCode == fields.httpCode
    ensures r.fields.contentType == Some(if conn.contentType.Some? then conn.contentType.value else "")
    ensures r.fields.totalSize == if conn.opening.StreamFails? then fields.totalSize else s.offset + conn.contentLength
    ensures !conn.opening.Opens? ==>
      && r.result.None? && r.file == s.file && r.progress == [] && !r.cancelled
      && r.fields.errorMessage == Some(Concat(DownloadFailurePrefix, conn.opening.error.message))
    ensures r.result.None? <==> !conn.opening.Opens? || TransferFailure(conn, cancel).Some?
  {
    var typed := fields.(contentType := Some(if conn.contentType.Some? then conn.contentType.value else ""));
    var total := s.offset + conn.contentLength;
    match conn.opening
    case StreamFails(e) =>
      BinaryRun(None, s.file, s.range, [], typed.(errorMessage := Some(Concat(DownloadFailurePrefix, e.message))), false)
    case FileFails(e) =>
      BinaryRun(None, s.file, s.range, [],
        typed.(errorMessage := Some(Concat(DownloadFailurePrefix, e.message)), totalSize := total), false)
    case Opens => Copied(s, conn, cancel, typed.(totalSize := total))
  }

  /** The stream and the file are open, the total is set: the loop writes the
      blocks after the kept bytes, then the closes and the catch clause. */
  function Copied(s: Setup, conn: Connection, cancel: seq<bool>, fields: Fields): (r: BinaryRun)
    requires conn.Connected? && FitsIn(conn.body, BufferSize)
    requires s.offset == if s.file.Some? then |s.file.value| else 0
    ensures r.file == Some((if s.file.Some? then s.file.value else []) + Flatten(conn.body.chunks[..BlocksWritten(cancel, |conn.body.chunks|)]))
    ensures |r.progress| == BlocksWritten(cancel, |conn.body.chunks|) && r.range == s.range
    ensures r.result.Some? <==> TransferFailure(conn, cancel).None?
    ensures r.result.Some? ==> r.result.value == "OK"
    ensures r.fields.errorMessage ==
      if TransferFailure(conn, cancel).Some? then Some(Concat(DownloadFailurePrefix, TransferFailure(conn, cancel).value.message))
      else fields.errorMessage
    ensures r.fields.(errorMessage := fields.errorMessage) == fields
    ensures r.cancelled <==> exists j :: 0 <= j < |conn.body.chunks| && Observed(cancel, j)
  {
    var chunks := conn.body.chunks;
    var blocks := BlocksWritten(cancel, |chunks|);
    var kept := if s.file.Some? then s.file.value else [];
    OverwriteAtEnd(kept, Flatten(chunks[..blocks]));
    var failure := TransferFailure(conn, cancel);
    BinaryRun(
      if failure.Some? then None else Some("OK"),
      Some(Overwrite(kept, s.offset, Flatten(chunks[..blocks]))),
      s.range,
      ProgressLog(chunks, s.offset, fields.totalSize, blocks),
      fields.(errorMessage := if failure.Some? then Some(Concat(DownloadFailurePrefix, failure.value.message)) else fields.errorMessage),
      FirstCancel(cancel, |chunks|, 0) < |chunks|)
  }

  /** What `onPostExecute` invokes: nothing, `onError`, or `onDownloadComplete`. */
  datatype BinaryCallback = NoCallback | OnError(message: string) | OnDownloadComplete

  /** `onPostExecute(str)` with `isCancelled()` as it then reads. */
  function PostBinary(cancelled: bool, result: Option<string>, errorMessage: Option<string>): (cb: BinaryCallback)
    ensures cb.NoCallback? <==> cancelled
    ensures cb.OnError? <==> !cancelled && result.None?
    ensures cb.OnError? ==> cb.message == ErrorText(errorMessage) && cb.message != ""
  {
    if cancelled then NoCallback
    else if result.None? then OnError(ErrorText(errorMessage))
    else OnDownloadComplete
  }

  /** The observations of `isCancelled()` over one run: after each block, and in `onPostExecute`. */
  datatype Cancellation = Cancellation(blocks: seq<bool>, atDelivery: bool)

  /** The whole life of a fresh binary task: `doInBackground`, then `onPostExecute`.
      The fallback message is never reached, since every failure stores a message. */
  function BinaryOutcome(file: Option<seq<byte>>, append: bool, conn: Connection, cancel: Cancellation): (cb: BinaryCallback)
    requires WellFormed(conn)
    ensures cancel.atDelivery ==> cb == NoCallback
    ensures !cancel.atDelivery && (conn.RequestFails? || conn.ConnectFails?) ==>
      cb == OnError(Concat("Exception in download: ", conn.error.message))
    ensures !cancel.atDelivery && conn.Connected? && !StatusLine(conn.status, None).proceed ==>
      cb == OnError(StatusMessage(StatusLine(conn.status, None).httpCode))
    ensures !cancel.atDelivery && conn.Connected? && StatusLine(conn.status, None).proceed ==>
      cb == match conn.opening
        case StreamFails(e) => OnError(Concat("Exception in download: ", e.message))
        case FileFails(e) => OnError(Concat("Exception in download: ", e.message))
        case Opens =>
          if FirstCancel(cancel.blocks, |conn.body.chunks|, 0) == |conn.body.chunks| && conn.body.failure.Some?
          then OnError(Concat("Exception in download: ", conn.body.failure.value.message))
          else if conn.closeFailure.Some? then OnError(Concat("Exception in download: ", conn.closeFailure.value.message))
          else OnDownloadComplete
    ensures cb.OnError? ==> cb.message != "Unspecified error"
  {
    var run := Download(file, append, conn, cancel.blocks, FreshFields);
    PostBinary(cancel.atDelivery, run.result, run.fields.errorMessage)
  }

  class DownloadBinaryTask {
    const base: DownloadTaskBase
    const append: bool
    var cbTotalSize: int
    /** The field the loop's counter shadows: the method never assigns it. */
    var cbDownloaded: int
    var contentType: Option<string>

    constructor (append: bool)
      ensures fresh(base) && this.append == append
      ensures Fields(base.httpCode, base.errorMessage, contentType, cbTotalSize) == FreshFields
      ensures cbDownloaded == 0
    {
      base := new DownloadTaskBase();
      this.append := append;
      cbTotalSize := -1;
      cbDownloaded := 0;
      contentType := None;
    }

    function CurrentFields(): Fields
      reads this, base
    {
      Fields(base.httpCode, base.errorMessage, contentType, cbTotalSize)
    }

    method DoInBackground(file: LocalFile, conn: Connection, cancel: seq<bool>)
      returns (result: Option<string>, range: Option<string>, progress: seq<Progress>)
      requires WellFormed(conn)
      modifies this, base, file
      ensures var run := Download(old(file.State()), append, conn, cancel, old(CurrentFields()));
        && result == run.result && range == run.range && progress == run.progress
        && file.State() == run.file && CurrentFields() == run.fields
      ensures cbDownloaded == old(cbDownloaded)
    {
      if conn.RequestFails? {
        base.errorMessage := Some(Concat(DownloadFailurePrefix, conn.error.message));
        return None, None, [];
      }
      var downloaded: nat;
      downloaded, range := InspectFile(file);
      if conn.ConnectFails? {
        base.errorMessage := Some(Concat(DownloadFailurePrefix, conn.error.message));
        return None, range, [];
      }
      var proceed := base.ProcessStatusLine(conn.status);
      if !proceed {
        return None, range, [];
      }
      result, progress := Transfer(file, conn, downloaded, range, cancel);
    }

    /** The transfer, once the status line has passed: the content type, the
        two opens, the streaming loop, the closes and the catch clause. */
    method Transfer(file: LocalFile, conn: Connection, downloaded: nat, range: Option<string>, cancel: seq<bool>)
      returns (result: Option<string>, progress: seq<Progress>)
      requires conn.Connected? && WellFormed(conn)
      requires downloaded == if file.present then |file.content| else 0
      modifies this, base`errorMessage, file
      ensures var run := Streamed(Setup(old(file.State()), downloaded, range), conn, cancel, old(CurrentFields()));
        && result == run.result && progress == run.progress
        && file.State() == run.file && CurrentFields() == run.fields
      ensures cbDownloaded == old(cbDownloaded)
    {
      contentType := Some("");
      if conn.contentType.Some? {
        contentType := conn.contentType;
      }
      if conn.opening.StreamFails? {
        base.errorMessage := Some(Concat(DownloadFailurePrefix, conn.opening.error.message));
        return None, [];
      }
      var input := new InputStream(conn.body);
      var thisDownloadSize := conn.contentLength;
      cbTotalSize := downloaded + thisDownloadSize;
      // A failing seek happens only on an existing file, which opening left as
      // it was, so it has the effect of a failing open.
      if conn.opening.FileFails? {
        base.errorMessage := Some(Concat(DownloadFailurePrefix, conn.opening.error.message));
        return None, [];
      }
      result, progress := Copy(file, input, conn, downloaded, range, cancel);
    }

    /** Opening the file, seeking to the offset, the streaming loop, the closes
        and the catch clause. */
    method Copy(file: LocalFile, input: InputStream, conn: Connection, downloaded: nat, range: Option<string>, cancel: seq<bool>)
      returns (result: Option<string>, progress: seq<Progress>)
      requires conn.Connected? && WellFormed(conn) && input.body == conn.body && input.next == 0
      requires downloaded == if file.present then |file.content| else 0
      modifies input, base`errorMessage, file
      ensures var run := Copied(Setup(old(file.State()), downloaded, range), conn, cancel, old(CurrentFields()));
        && result == run.result && progress == run.progress
        && file.State() == run.file && CurrentFields() == run.fields
    {
      var output := new RandomAccessFile(file);
      if downloaded > 0 {
        output.Seek(downloaded);
      }
      ghost var kept := file.content;
      var failure;
      failure, progress := StreamBody(input, output, downloaded, cbTotalSize, cancel);
      OverwriteAtEnd(kept, Flatten(conn.body.chunks[..BlocksWritten(cancel, |conn.body.chunks|)]));
      if failure.None? {
        failure := conn.closeFailure;
      }
      if failure.Some? {
        base.errorMessage := Some(Concat(DownloadFailurePrefix, failure.value.message));
        return None, progress;
      }
      return Some("OK"), progress;
    }

    /** Inspecting the local file: the resume offset (the local `cbDownloaded`) and the `Range` header. */
    method InspectFile(file: LocalFile) returns (downloaded: nat, range: Option<string>)
      modifies file
      ensures var s := ResumeSetup(old(file.State()), append);
        && downloaded == s.offset && range == s.range && file.State() == s.file
    {
      downloaded := 0;
      range := None;
      var present := file.Exists();
      if present {
        if !append {
          file.Delete();
        } else {
          downloaded := file.Length();
          range := Some(RangeValue(downloaded));
        }
      }
    }

    /** The streaming loop: read a block into the buffer, write
        it at the file pointer, publish the counter, stop once cancellation is seen. */
    method StreamBody(input: InputStream, output: RandomAccessFile, downloaded: nat, total: int, cancel: seq<bool>)
      returns (failure: Option<IoError>, progress: seq<Progress>)
      requires FitsIn(input.body, BufferSize) && input.next == 0
      requires output.file.present && output.pointer == downloaded == |output.file.content|
      modifies input, output, output.file
      ensures var chunks := input.body.chunks;
        && output.file.State() == Some(old(output.file.content) + Flatten(chunks[..BlocksWritten(cancel, |chunks|)]))
        && progress == ProgressLog(chunks, downloaded, total, BlocksWritten(cancel, |chunks|))
        && failure == if FirstCancel(cancel, |chunks|, 0) == |chunks| then input.body.failure else None
    {
      var buffer := new byte[BufferSize];
      var counter := downloaded;
      ghost var kept := output.file.content;
      ghost var chunks := input.body.chunks;
      progress := [];
      while true
        invariant input.next <= |chunks|
        invariant forall j :: 0 <= j < input.next ==> !Observed(cancel, j)
        invariant buffer.Length == BufferSize
        invariant output.file.present && output.file.content == kept + Flatten(chunks[..input.next])
        invariant output.pointer == counter == downloaded + |Flatten(chunks[..input.next])|
        invariant progress == ProgressLog(chunks, downloaded, total, input.next)
        decreases |chunks| - input.next
      {
        var r := input.Read(buffer);
        if r.Throws? {
          assert chunks[..|chunks|] == chunks;
          return Some(r.error), progress;
        }
        if r.EndOfStream? {
          FirstCancelIs(cancel, |chunks|, input.next);
          assert input.next == BlocksWritten(cancel, |chunks|);
          assert output.file.State() == Some(kept + Flatten(chunks[..input.next]));
          return None, progress;
        }
        FlattenStep(chunks, input.next - 1);
        ghost var before := output.file.content;
        output.Write(buffer, r.count);
        OverwriteAtEnd(before, chunks[input.next - 1]);
        assert output.file.content == kept + Flatten(chunks[..input.next]);
        counter := counter + r.count;
        progress := progress + [Progress(counter, total)];
        if Observed(cancel, input.next - 1) {
          FirstCancelIs(cancel, |chunks|, input.next - 1);
          assert input.next == BlocksWritten(cancel, |chunks|);
          assert output.file.State() == Some(kept + Flatten(chunks[..input.next]));
          return None, progress;
        }
      }
    }

    method OnPostExecute(result: Option<string>, cancelled: bool) returns (cb: BinaryCallback)
      modifies base`errorMessage
      ensures cb == PostBinary(cancelled, result, old(base.errorMessage))
      ensures base.errorMessage == if cb.OnError? then Some(cb.message) else old(base.errorMessage)
    {
      if cancelled {
        return NoCallback;
      }
      if result.None? {
        var message := base.ReportError();
        return OnError(message);
      }
      return OnDownloadComplete;
    }
  }

  lemma OverwriteAtEnd(s: seq<byte>, data: seq<byte>)
    ensures Overwrite(s, |s|, data) == s + data
  {
    assert s[..|s|] == s;
  }
}
