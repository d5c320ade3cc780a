/** What the binary download guarantees: the file afterwards, the progress
    reports, where cancellation stops the loop, resuming, and delivery. */
module BinaryProperties {
  import opened Strings
  import opened Io
  import opened DownloadBase
  import opened DownloadBinary

  /** The bytes of the blocks split at any block boundary. */
  lemma {:induction false} FlattenSplit(chunks: seq<seq<byte>>, k: nat)
    requires k <= |chunks|
    ensures Flatten(chunks) == Flatten(chunks[..k]) + Flatten(chunks[k..])
    decreases |chunks|
  {
    if k < |chunks| {
      var init := chunks[..|chunks| - 1];
      FlattenSplit(init, k);
      assert init[..k] == chunks[..k];
      assert chunks[k..][..|chunks[k..]| - 1] == init[k..];
    } else {
      assert chunks[..k] == chunks;
      assert chunks[k..] == [];
    }
  }

  /** With non-empty blocks, more blocks mean strictly more bytes. */
  lemma FlattenGrows(chunks: seq<seq<byte>>, i: nat, j: nat)
    requires forall k :: 0 <= k < |chunks| ==> |chunks[k]| > 0
    requires i < j <= |chunks|
    ensures |Flatten(chunks[..i])| < |Flatten(chunks[..j])|
  {
    var prefix := chunks[..j];
    FlattenSplit(prefix, i);
    assert prefix[..i] == chunks[..i];
    var rest := prefix[i..];
    assert |Flatten(rest)| >= |rest[|rest| - 1]| > 0;
  }

  /** Entry `i` of the progress log reports the offset plus the bytes of blocks 0 to `i`. */
  lemma {:induction false} ProgressLogAt(chunks: seq<seq<byte>>, offset: int, total: int, k: nat)
    requires k <= |chunks|
    ensures |ProgressLog(chunks, offset, total, k)| == k
    ensures forall i :: 0 <= i < k ==>
      ProgressLog(chunks, offset, total, k)[i] == Progress(offset + |Flatten(chunks[..i + 1])|, total)
  {
    if k > 0 {
      ProgressLogAt(chunks, offset, total, k - 1);
    }
  }

  /** The progress calls: one per block, the total fixed, the counter strictly
      increasing by the size of each block, and ending at the offset plus all bytes written. */
  lemma ProgressLogFacts(chunks: seq<seq<byte>>, offset: int, total: int, k: nat)
    requires forall j :: 0 <= j < |chunks| ==> |chunks[j]| > 0
    requires k <= |chunks|
    ensures var log := ProgressLog(chunks, offset, total, k);
      && |log| == k
      && (forall i :: 0 <= i < k ==> log[i].total == total)
      && (forall i, j :: 0 <= i < j < k ==> log[i].downloaded < log[j].downloaded)
      && (forall i :: 0 < i < k ==> log[i].downloaded == log[i - 1].downloaded + |chunks[i]|)
      && (k > 0 ==> log[0].downloaded == offset + |chunks[0]|)
      && (k > 0 ==> log[k - 1].downloaded == offset + |Flatten(chunks[..k])|)
  {
    var log := ProgressLog(chunks, offset, total, k);
    ProgressLogAt(chunks, offset, total, k);
    forall i, j | 0 <= i < j < k ensures log[i].downloaded < log[j].downloaded {
      FlattenGrows(chunks, i + 1, j + 1);
    }
    forall i | 0 < i < k ensures log[i].downloaded == log[i - 1].downloaded + |chunks[i]| {
      FlattenStep(chunks, i);
    }
    if k > 0 {
      FlattenStep(chunks, 0);
      assert chunks[..0] == [];
    }
  }

  /** The bytes kept from the old file: all of it when appending to an existing file, else none. */
  function Kept(file: Option<seq<byte>>, append: bool): seq<byte>
  {
    if append && file.Some? then file.value else []
  }

  /** Whether the status line of the connection lets the body be read. */
  predicate Streams(conn: Connection, fields: Fields)
  {
    conn.Connected? && StatusLine(conn.status, fields.errorMessage).proceed
  }

  /** Whether the loop runs: the status line passes and the stream and the file open. */
  predicate Reads(conn: Connection, fields: Fields)
  {
    Streams(conn, fields) && conn.opening.Opens?
  }

  /** The local file afterwards. A failure before the connection leaves it
      untouched; a failure at or before the status line, or in opening the
      stream or the file, leaves it deleted unless appending (and creates no
      file); otherwise it holds the kept bytes followed by the blocks written,
      also when the stream breaks or a close fails. Nothing before the resume
      offset changes. */
  lemma FileAfterDownload(file: Option<seq<byte>>, append: bool, conn: Connection, cancel: seq<bool>, fields: Fields)
    requires WellFormed(conn)
    ensures var run := Download(file, append, conn, cancel, fields);
      && (conn.RequestFails? ==> run.file == file)
      && (conn.ConnectFails? || (conn.Connected? && !Reads(conn, fields)) ==>
            run.file == if append then file else None)
      && (Reads(conn, fields) ==>
            run.file == Some(Kept(file, append) + Flatten(conn.body.chunks[..BlocksWritten(cancel, |conn.body.chunks|)])))
      && (Reads(conn, fields) && append && file.Some? ==> run.file.value[..|file.value|] == file.value)
  {
    if Reads(conn, fields) {
      var w := Flatten(conn.body.chunks[..BlocksWritten(cancel, |conn.body.chunks|)]);
      OverwriteAtEnd(Kept(file, append), w);
      assert (Kept(file, append) + w)[..|Kept(file, append)|] == Kept(file, append);
    }
  }

  /** The total and the progress calls of a run. The total is set to
      `offset + getContentLength()` (so `offset - 1` when the length is unknown)
      once the stream is open, and is left as it was when `getInputStream()`
      throws. There are no progress calls unless the body is read; then one per
      block written, each with that total, the counter strictly increasing and
      ending at the offset plus the bytes written. */
  lemma DownloadProgress(file: Option<seq<byte>>, append: bool, conn: Connection, cancel: seq<bool>, fields: Fields)
    requires WellFormed(conn)
    ensures var run := Download(file, append, conn, cancel, fields);
      && (!Reads(conn, fields) ==> run.progress == [])
      && (Streams(conn, fields) && conn.opening.StreamFails? ==> run.fields.totalSize == fields.totalSize)
      && (Streams(conn, fields) && !conn.opening.StreamFails? ==>
            run.fields.totalSize == |Kept(file, append)| + conn.contentLength)
      && (Reads(conn, fields) ==>
            var offset := |Kept(file, append)|;
            var blocks := BlocksWritten(cancel, |conn.body.chunks|);
            && |run.progress| == blocks
            && (forall i :: 0 <= i < blocks ==> run.progress[i].total == offset + conn.contentLength)
            && (forall i, j :: 0 <= i < j < blocks ==> run.progress[i].downloaded < run.progress[j].downloaded)
            && (blocks > 0 ==> run.progress[blocks - 1].downloaded
                                 == offset + |Flatten(conn.body.chunks[..blocks])|))
  {
    if Reads(conn, fields) {
      var offset := |Kept(file, append)|;
      var blocks := BlocksWritten(cancel, |conn.body.chunks|);
      var run := Download(file, append, conn, cancel, fields);
      assert run.progress == ProgressLog(conn.body.chunks, offset, offset + conn.contentLength, blocks);
      ProgressLogFacts(conn.body.chunks, offset, offset + conn.contentLength, blocks);
    }
  }

  /** Cancellation first seen after block `k` ends the loop right there: k + 1
      blocks are on disk, and `doInBackground` still returns "OK" unless closing
      the file or the stream then throws, which the catch clause reports. */
  lemma CancelStopsAfterBlock(file: Option<seq<byte>>, append: bool, conn: Connection, cancel: seq<bool>, fields: Fields, k: nat)
    requires WellFormed(conn) && Reads(conn, fields)
    requires k < |conn.body.chunks| && Observed(cancel, k)
    requires forall j :: 0 <= j < k ==> !Observed(cancel, j)
    ensures var run := Download(file, append, conn, cancel, fields);
      && run.cancelled
      && (run.result == Some("OK") <==> conn.closeFailure.None?)
      && (conn.closeFailure.Some? ==>
            run.fields.errorMessage == Some(Concat("Exception in download: ", conn.closeFailure.value.message)))
      && run.file == Some(Kept(file, append) + Flatten(conn.body.chunks[..k + 1]))
      && |run.progress| == k + 1
  {
    FirstCancelIs(cancel, |conn.body.chunks|, k);
    FileAfterDownload(file, append, conn, cancel, fields);
    DownloadProgress(file, append, conn, cancel, fields);
  }

  /** A stream that breaks after delivering all its blocks, with no cancellation
      seen: the result is null, the message names the read's exception (also
      when a close then fails), and every block already read stays in the file. */
  lemma FailureKeepsData(file: Option<seq<byte>>, append: bool, conn: Connection, cancel: seq<bool>, fields: Fields)
    requires WellFormed(conn) && Reads(conn, fields) && conn.body.failure.Some?
    requires forall j :: 0 <= j < |conn.body.chunks| ==> !Observed(cancel, j)
    ensures var run := Download(file, append, conn, cancel, fields);
      && run.result.None? && !run.cancelled
      && run.fields.errorMessage == Some(Concat("Exception in download: ", conn.body.failure.value.message))
      && run.file == Some(Kept(file, append) + Flatten(conn.body.chunks))
  {
    FirstCancelIs(cancel, |conn.body.chunks|, |conn.body.chunks|);
    FileAfterDownload(file, append, conn, cancel, fields);
    assert conn.body.chunks[..|conn.body.chunks|] == conn.body.chunks;
  }

  /** Without append, a download that runs to the end leaves exactly the new
      bytes, whatever file was there before. */
  lemma ReplaceWhenNotAppending(file: Option<seq<byte>>, conn: Connection, cancel: seq<bool>, fields: Fields)
    requires WellFormed(conn) && Reads(conn, fields)
    requires forall j :: 0 <= j < |conn.body.chunks| ==> !Observed(cancel, j)
    ensures Download(file, false, conn, cancel, fields).file == Some(Flatten(conn.body.chunks))
  {
    FirstCancelIs(cancel, |conn.body.chunks|, |conn.body.chunks|);
    FileAfterDownload(file, false, conn, cancel, fields);
    assert conn.body.chunks[..|conn.body.chunks|] == conn.body.chunks;
  }

  /** Resuming. A first session, from any file without append, may stop anywhere
      after its status line (cancellation, a broken stream, a failing close), as
      long as it left a file. A second session appends to what it left, asking
      for the bytes from its length on, and the server sends exactly those. The
      file then equals the one a single uninterrupted session gives. */
  lemma ResumeEqualsUninterrupted(file: Option<seq<byte>>, first: Connection, cancel: seq<bool>, second: Connection, whole: Connection)
    requires WellFormed(first) && WellFormed(second) && WellFormed(whole)
    requires Streams(first, FreshFields) && Reads(second, FreshFields) && Reads(whole, FreshFields)
    requires Flatten(first.body.chunks) <= Flatten(whole.body.chunks)
    requires var partial := Download(file, false, first, cancel, FreshFields).file;
      && partial.Some? && |partial.value| <= |Flatten(whole.body.chunks)|
      && Flatten(second.body.chunks) == Flatten(whole.body.chunks)[|partial.value|..]
    ensures var partial := Download(file, false, first, cancel, FreshFields).file.value;
      var resumed := Download(Some(partial), true, second, [], FreshFields);
      && ParseRange(resumed.range.value) == Some(|partial|)
      && resumed.file == Download(file, false, whole, [], FreshFields).file
      && resumed.file == Some(Flatten(whole.body.chunks))
  {
    var blocks := BlocksWritten(cancel, |first.body.chunks|);
    FileAfterDownload(file, false, first, cancel, FreshFields);
    assert Reads(first, FreshFields);
    var partial := Flatten(first.body.chunks[..blocks]);
    FlattenSplit(first.body.chunks, blocks);
    var content := Flatten(whole.body.chunks);
    assert partial <= content;
    assert content == partial + content[|partial|..];
    UninterruptedRun(Some(partial), true, second);
    UninterruptedRun(file, false, whole);
  }

  /** A session in which no block observes cancellation writes every block
      after the kept bytes. */
  lemma UninterruptedRun(file: Option<seq<byte>>, append: bool, conn: Connection)
    requires WellFormed(conn) && Reads(conn, FreshFields)
    ensures Download(file, append, conn, [], FreshFields).file == Some(Kept(file, append) + Flatten(conn.body.chunks))
  {
    FirstCancelIs([], |conn.body.chunks|, |conn.body.chunks|);
    FileAfterDownload(file, append, conn, [], FreshFields);
    assert conn.body.chunks[..|conn.body.chunks|] == conn.body.chunks;
  }

  /** `isCancelled()` never resets: once seen, it is still set in `onPostExecute`. */
  predicate Sticky(cancel: Cancellation)
  {
    forall k :: 0 <= k < |cancel.blocks| && cancel.blocks[k] ==> cancel.atDelivery
  }

  /** How a run ended, in the terms of the task's state machine. */
  datatype Ending = Completed | Cancelled | Failed(message: string)

  function EndingOf(run: BinaryRun): Ending
  {
    if run.result.None? then Failed(ErrorText(run.fields.errorMessage))
    else if run.cancelled then Cancelled
    else Completed
  }

  /** Delivery: a run that ends in cancellation invokes nothing, although
      `doInBackground` returned "OK"; a failure invokes `onError` with its
      message and a completion `onDownloadComplete`, each unless the task was
      cancelled afterwards. */
  lemma DeliveryFollowsEnding(file: Option<seq<byte>>, append: bool, conn: Connection, cancel: Cancellation)
    requires WellFormed(conn) && Sticky(cancel)
    ensures var run := Download(file, append, conn, cancel.blocks, FreshFields);
      && (run.cancelled ==> (run.result == Some("OK") <==> conn.closeFailure.None?))
      && BinaryOutcome(file, append, conn, cancel) ==
           match EndingOf(run)
           case Cancelled => NoCallback
           case Completed => if cancel.atDelivery then NoCallback else OnDownloadComplete
           case Failed(m) => if cancel.atDelivery then NoCallback else OnError(m)
  {
    var run := Download(file, append, conn, cancel.blocks, FreshFields);
    if run.cancelled {
      var c := FirstCancel(cancel.blocks, |conn.body.chunks|, 0);
      assert Observed(cancel.blocks, c);
    }
  }

  /** A server may ignore `Range` and answer 200 with the whole resource, and
      the status check accepts 200 on a ranged request. The appending session
      then puts the whole body after the partial file: the bytes already
      present are duplicated, and a non-empty partial file never becomes the
      resource. */
  lemma RangeIgnored(partial: seq<byte>, conn: Connection)
    requires WellFormed(conn) && Reads(conn, FreshFields) && conn.status == Code(200)
    ensures var run := Download(Some(partial), true, conn, [], FreshFields);
      && ParseRange(run.range.value) == Some(|partial|)
      && run.file == Some(partial + Flatten(conn.body.chunks))
      && (|partial| > 0 ==> run.file != Some(Flatten(conn.body.chunks)))
  {
    FirstCancelIs([], |conn.body.chunks|, |conn.body.chunks|);
    FileAfterDownload(Some(partial), true, conn, [], FreshFields);
    assert conn.body.chunks[..|conn.body.chunks|] == conn.body.chunks;
  }
}
