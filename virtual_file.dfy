/**
 * `TmpJavaFileObject`: an in-memory Java file that is either a source unit
 * holding text, or an output unit whose bytes the compiler streams into a
 * `ByteArrayOutputStream`.
 */
module VirtualFiles {
  import opened Wrappers

  /** A Java `byte`: signed, eight bits. */
  newtype byte = x: int | -128 <= x < 128

  /** `JavaFileObject.Kind`. */
  datatype Kind = Source | Class | Html | Other

  /** `ByteArrayOutputStream`: a buffer that accumulates every byte written to it. */
  class ByteSink {
    var written: seq<byte>

    constructor ()
      ensures written == []
    {
      written := [];
    }

    /** `write`: appends to what the buffer holds. */
    method Write(bytes: seq<byte>)
      modifies this
      ensures written == old(written) + bytes
    {
      written := written + bytes;
    }
  }

  /**
   * `TmpJavaFileObject`. In source mode `source` holds the text; in output
   * mode it is `None` (the Java field is `null`). `outputStream` is `null`
   * until `OpenOutputStream` is first called.
   */
  class VirtualFile {
    /** The class name that the Java object carries only inside its URI. */
    const name: string
    const kind: Kind
    const source: Option<string>
    var outputStream: ByteSink?

    /** The source-mode constructor: a `Kind.SOURCE` file holding `source`. */
    constructor FromSource(name: string, source: string)
      ensures this.name == name && kind == Source && this.source == Some(source)
      ensures outputStream == null
    {
      this.name := name;
      this.kind := Source;
      this.source := Some(source);
      outputStream := null;
    }

    /** The output-mode constructor: a file of the given kind with no text. */
    constructor ForOutput(name: string, kind: Kind)
      ensures this.name == name && this.kind == kind && source == None
      ensures outputStream == null
    {
      this.name := name;
      this.kind := kind;
      this.source := None;
      outputStream := null;
    }

    /** `getCharContent`: the text of a source-mode file; an output-mode file throws. */
    method GetCharContent(ignoreEncodingErrors: bool) returns (r: Result<string, JavaException>)
      ensures source.Some? <==> r.Success?
      ensures source.Some? ==> r.value == source.value
      ensures source.None? ==> r.error == IllegalArgumentException("source == null")
    {
      if source.None? {
        return Failure(IllegalArgumentException("source == null"));
      }
      return Success(source.value);
    }

    /**
     * `openOutputStream`: installs a new, empty buffer and hands it out.
     * A buffer handed out earlier is no longer the file's.
     */
    method OpenOutputStream() returns (stream: ByteSink)
      modifies this
      ensures fresh(stream) && stream.written == []
      ensures outputStream == stream
    {
      stream := new ByteSink();
      outputStream := stream;
    }

    /**
     * `getCompiledBytes`: what was written to the buffer installed by the
     * latest `OpenOutputStream`; before any, the `null` buffer throws.
     */
    method GetCompiledBytes() returns (r: Result<seq<byte>, JavaException>)
      ensures outputStream == null <==> r.Failure?
      ensures outputStream == null ==> r.error == NullPointerException
      ensures outputStream != null ==> r.value == outputStream.written
    {
      if outputStream == null {
        return Failure(NullPointerException);
      }
      return Success(outputStream.written);
    }
  }

  /** A source-mode file gives back exactly the text it was built with. */
  method SourceTextRoundTrip(name: string, text: string) returns (r: Result<string, JavaException>)
    ensures r == Success(text)
  {
    var f := new VirtualFile.FromSource(name, text);
    r := f.GetCharContent(false);
  }

  /** An output-mode file refuses to give character content, whatever its kind. */
  method OutputFileHasNoText(name: string, kind: Kind) returns (r: Result<string, JavaException>)
    ensures r == Failure(IllegalArgumentException("source == null"))
  {
    var f := new VirtualFile.ForOutput(name, kind);
    r := f.GetCharContent(false);
  }

  /**
   * Reopening resets the buffer: after writes to a first stream, a reopen, and
   * writes to both the new and the old stream, the compiled bytes are exactly
   * those written to the new stream.
   */
  method CompiledBytesSinceLastOpen(name: string, kind: Kind, before: seq<byte>, after: seq<byte>, stale: seq<byte>)
    returns (r: Result<seq<byte>, JavaException>)
    ensures r == Success(after)
  {
    var f := new VirtualFile.ForOutput(name, kind);
    var first := f.OpenOutputStream();
    first.Write(before);
    var second := f.OpenOutputStream();
    second.Write(after);
    assert first != second && second.written == after;
    first.Write(stale);
    r := f.GetCompiledBytes();
  }

  /** An output file that was never opened has no buffer: reading its bytes throws. */
  method UnopenedOutputThrows(name: string, kind: Kind) returns (r: Result<seq<byte>, JavaException>)
    ensures r == Failure(NullPointerException)
  {
    var f := new VirtualFile.ForOutput(name, kind);
    r := f.GetCompiledBytes();
  }
}
