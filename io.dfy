/** Stand-ins for the java.io and java.net pieces the download tasks use:
    the exceptions they catch, the local file (`File` together with
    `RandomAccessFile` in "rw" mode) and the response body stream. */
module Io {
  import opened Strings

  type byte = bv8

  /** An `IOException`. `unknownHost` marks the subclass `UnknownHostException`;
      `message` is what `getMessage()` / `getLocalizedMessage()` return (possibly null). */
  datatype IoError = IoError(unknownHost: bool, message: Option<string>)

  /** `RandomAccessFile.write` at position `pos`: the bytes of `data` replace
      those at `pos` and following, and extend the file where they run past its end. */
  function Overwrite(s: seq<byte>, pos: nat, data: seq<byte>): (r: seq<byte>)
    requires pos <= |s|
    ensures |r| == if pos + |data| <= |s| then |s| else pos + |data|
    ensures r[..pos] == s[..pos]
    ensures r[pos..pos + |data|] == data
    ensures pos + |data| <= |s| ==> r[pos + |data|..] == s[pos + |data|..]
  {
    s[..pos] + data + (if pos + |data| <= |s| then s[pos + |data|..] else [])
  }

  /** A file on the local disk, as `java.io.File` sees it. */
  class LocalFile {
    var present: bool
    var content: seq<byte>

    /** What is on disk: `None` when there is no file. */
    function State(): Option<seq<byte>>
      reads this
    {
      if present then Some(content) else None
    }

    constructor (initial: Option<seq<byte>>)
      ensures State() == initial
    {
      present := initial.Some?;
      content := if initial.Some? then initial.value else [];
    }

    /** `File.exists()`. */
    method Exists() returns (b: bool)
      ensures b == present
    {
      b := present;
    }

    /** `File.length()`, which is 0 for a missing file. */
    method Length() returns (n: nat)
      ensures n == if present then |content| else 0
    {
      n := if present then |content| else 0;
    }

    /** `File.delete()`. */
    method Delete()
      modifies this
      ensures State() == None
    {
      present := false;
      content := [];
    }
  }

  /** `RandomAccessFile` opened in "rw" mode on a `LocalFile`. */
  class RandomAccessFile {
    const file: LocalFile
    var pointer: nat

    /** Opening in "rw" mode creates an empty file when there is none and
        leaves an existing file as it is; the file pointer starts at 0. */
    constructor (f: LocalFile)
      modifies f
      ensures file == f && pointer == 0
      ensures f.State() == Some(if old(f.present) then old(f.content) else [])
    {
      file := f;
      pointer := 0;
      new;
      if !f.present {
        f.content := [];
      }
      f.present := true;
    }

    /** `seek(pos)`. */
    method Seek(pos: nat)
      modifies this
      ensures pointer == pos
    {
      pointer := pos;
    }

    /** `write(buf, 0, len)`: writes at the file pointer and advances it. */
    method Write(buf: array<byte>, len: nat)
      requires len <= buf.Length && pointer <= |file.content|
      modifies this, file
      ensures file.present == old(file.present)
      ensures file.content == Overwrite(old(file.content), old(pointer), buf[..len])
      ensures pointer == old(pointer) + len
    {
      file.content := Overwrite(file.content, pointer, buf[..len]);
      pointer := pointer + len;
    }
  }

  /** A response body: the blocks successive reads deliver and, when the
      connection breaks, the exception raised by the read after the last block. */
  datatype Body = Body(chunks: seq<seq<byte>>, failure: Option<IoError>)

  /** Every block holds at least one byte and fits a buffer of `size` bytes,
      as `InputStream.read(byte[])` guarantees for a non-empty buffer. */
  predicate FitsIn(body: Body, size: nat)
  {
    forall i :: 0 <= i < |body.chunks| ==> 0 < |body.chunks[i]| <= size
  }

  /** The outcome of `InputStream.read(byte[])`: a byte count, -1 at the end, or an exception. */
  datatype ReadResult = Bytes(count: nat) | EndOfStream | Throws(error: IoError)

  class InputStream {
    const body: Body
    var next: nat

    constructor (b: Body)
      ensures body == b && next == 0
    {
      body := b;
      next := 0;
    }

    /** Fills the front of `buf` with the next block. */
    method Read(buf: array<byte>) returns (r: ReadResult)
      requires FitsIn(body, buf.Length) && next <= |body.chunks|
      modifies this, buf
      ensures old(next) < |body.chunks| ==>
        && r == Bytes(|body.chunks[old(next)]|)
        && buf[..r.count] == body.chunks[old(next)]
        && next == old(next) + 1
      ensures old(next) == |body.chunks| ==>
        && next == old(next)
        && r == if body.failure.Some? then Throws(body.failure.value) else EndOfStream
    {
      if next == |body.chunks| {
        r := if body.failure.Some? then Throws(body.failure.value) else EndOfStream;
        return;
      }
      var chunk := body.chunks[next];
      forall i | 0 <= i < |chunk| {
        buf[i] := chunk[i];
      }
      assert buf[..|chunk|] == chunk;
      next := next + 1;
      r := Bytes(|chunk|);
    }
  }
}
