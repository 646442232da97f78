/**
 * `StringSourceCompiler.compile`: extract the class name, wrap the text as a
 * source file, run the compiler with the in-memory file manager, and fetch
 * the bytes stored under the extracted name.
 */
module StringSourceCompiler {
  import opened Wrappers
  import opened ClassName
  import opened VirtualFiles
  import opened FileManager

  /**
   * One thing the JDK compiler may do with the file manager during a task.
   * `OpenOutput` and `WriteBytes` refer to the files and streams the task
   * obtained earlier, by the order in which it obtained them; `ReadSource`
   * reads the text of the compilation unit it was given.
   */
  datatype CompilerStep =
    | RequestOutput(location: Location, className: string, kind: Kind)
    | RequestInput(location: Location, className: string, kind: Kind)
    | ReadSource
    | OpenOutput(file: nat)
    | WriteBytes(stream: nat, bytes: seq<byte>)

  /** The class names for which `steps` asks for an output file. */
  function OutputNames(steps: seq<CompilerStep>): (names: set<string>)
    ensures forall n :: n in names <==> exists k :: 0 <= k < |steps| && steps[k].RequestOutput? && steps[k].className == n
  {
    if steps == [] then {}
    else
      var last := steps[|steps| - 1];
      var earlier := OutputNames(steps[..|steps| - 1]);
      assert forall k :: 0 <= k < |steps| - 1 ==> steps[..|steps| - 1][k] == steps[k];
      if last.RequestOutput? then earlier + {last.className} else earlier
  }

  // ---------------------------------------------------------------------------
  // What a script does, in terms of the handles it holds
  // ---------------------------------------------------------------------------

  /**
   * The effect of a prefix of a script: the class name of each output file
   * obtained, in order; for each of those files the stream it holds now, if
   * any; and for each stream opened, the bytes written to it.
   */
  datatype ScriptState = ScriptState(outputs: seq<string>, current: seq<Option<nat>>, streams: seq<seq<byte>>)

  /** Every output file has a stream slot, and every slot names an opened stream. */
  ghost predicate WellFormed(a: ScriptState) {
    |a.current| == |a.outputs| &&
    forall h :: 0 <= h < |a.current| && a.current[h].Some? ==> a.current[h].value < |a.streams|
  }

  /** The effect of one step: a new output file, a new (empty) stream that replaces the file's, or a write. */
  function Step(a: ScriptState, step: CompilerStep): (b: ScriptState)
    requires WellFormed(a)
    ensures WellFormed(b)
    ensures |a.outputs| <= |b.outputs| && b.outputs[..|a.outputs|] == a.outputs
  {
    match step
    case RequestOutput(_, className, _) =>
      ScriptState(a.outputs + [className], a.current + [None], a.streams)
    case OpenOutput(file) =>
      if file < |a.outputs| then ScriptState(a.outputs, a.current[file := Some(|a.streams|)], a.streams + [[]]) else a
    case WriteBytes(stream, bytes) =>
      if stream < |a.streams| then ScriptState(a.outputs, a.current, a.streams[stream := a.streams[stream] + bytes]) else a
    case RequestInput(_, _, _) => a
    case ReadSource => a
  }

  /** The effect of a whole script, one step after another. */
  function Run(steps: seq<CompilerStep>): (a: ScriptState)
    ensures WellFormed(a)
    ensures forall n :: n in a.outputs <==> n in OutputNames(steps)
  {
    if steps == [] then ScriptState([], [], [])
    else
      var prefix := Run(steps[..|steps| - 1]);
      var last := steps[|steps| - 1];
      assert last.RequestOutput? ==> Step(prefix, last).outputs == prefix.outputs + [last.className];
      Step(prefix, last)
  }

  /** The last output file obtained for `n`, which is the one the store keeps. */
  function LatestOutput(outputs: seq<string>, n: string): (h: Option<nat>)
    ensures h.None? <==> n !in outputs
    ensures h.Some? ==> h.value < |outputs| && outputs[h.value] == n
    ensures h.Some? ==> forall g :: h.value < g < |outputs| ==> outputs[g] != n
  {
    if outputs == [] then None
    else if outputs[|outputs| - 1] == n then Some(|outputs| - 1)
    else
      var h := LatestOutput(outputs[..|outputs| - 1], n);
      assert outputs == outputs[..|outputs| - 1] + [outputs[|outputs| - 1]];
      h
  }

  /**
   * The buffer that the script leaves in the file stored under `n`: `None`
   * when that file was never opened, otherwise the bytes written to its
   * latest stream.
   */
  function ScriptBuffer(steps: seq<CompilerStep>, n: string): Option<seq<byte>>
    requires n in OutputNames(steps)
  {
    var a := Run(steps);
    var h := LatestOutput(a.outputs, n).value;
    match a.current[h]
    case None => None
    case Some(st) => Some(a.streams[st])
  }

  /** A script that outputs `Foo`, opens that file and writes `bytes` leaves exactly `bytes` in it. */
  lemma OneClassScript(location: Location, kind: Kind, bytes: seq<byte>)
    ensures "Foo" in OutputNames([RequestOutput(location, "Foo", kind), OpenOutput(0), WriteBytes(0, bytes)])
    ensures ScriptBuffer([RequestOutput(location, "Foo", kind), OpenOutput(0), WriteBytes(0, bytes)], "Foo") == Some(bytes)
  {
    var steps := [RequestOutput(location, "Foo", kind), OpenOutput(0), WriteBytes(0, bytes)];
    var a0 := Run(steps[..0]);
    assert a0 == ScriptState([], [], []);
    assert steps[..1][..0] == steps[..0];
    var a1 := Run(steps[..1]);
    assert a1 == Step(a0, steps[0]) == ScriptState(["Foo"], [None], []);
    assert steps[..2][..1] == steps[..1];
    var a2 := Run(steps[..2]);
    assert a2 == Step(a1, steps[1]) == ScriptState(["Foo"], [Some(0)], [[]]);
    assert steps[..2] == steps[..|steps| - 1];
    assert a2.streams[0] + bytes == bytes;
    assert |a2.streams[0 := bytes]| == 1 && a2.streams[0 := bytes][0] == bytes;
    assert Run(steps) == Step(a2, steps[2]) == ScriptState(["Foo"], [Some(0)], [bytes]);
  }

  /** Appending a name other than `n` does not change which output file is the latest for `n`. */
  lemma LatestOutputAppend(outputs: seq<string>, m: string, n: string)
    ensures LatestOutput(outputs + [m], n) == if m == n then Some(|outputs|) else LatestOutput(outputs, n)
  {
    assert (outputs + [m])[..|outputs|] == outputs;
  }

  // ---------------------------------------------------------------------------
  // Performing a script against the file manager
  // ---------------------------------------------------------------------------

  /**
   * The objects a task holds mirror the script's effect `a`: the i-th output
   * file and stream are distinct objects carrying the i-th name and bytes,
   * each file holds the stream `a` says, and the store maps each output name
   * to the latest file obtained for it.
   */
  ghost predicate Mirrors(store: FileStore, outputs: seq<VirtualFile>, streams: seq<ByteSink>, a: ScriptState)
    reads store, set f | f in outputs, set b | b in streams
  {
    && WellFormed(a)
    && |outputs| == |a.outputs| && |streams| == |a.streams|
    && (forall h :: 0 <= h < |outputs| ==> outputs[h].name == a.outputs[h])
    && (forall g, h :: 0 <= g < h < |outputs| ==> outputs[g] != outputs[h])
    && (forall s, t :: 0 <= s < t < |streams| ==> streams[s] != streams[t])
    && (forall st :: 0 <= st < |streams| ==> streams[st].written == a.streams[st])
    && (forall h :: 0 <= h < |outputs| ==>
          outputs[h].outputStream == if a.current[h].None? then null else streams[a.current[h].value])
    && (forall n :: n in a.outputs ==>
          n in store.files && store.files[n] == outputs[LatestOutput(a.outputs, n).value])
  }

  /** A `RequestOutput` step: `getJavaFileForOutput`, keeping the new file as the next handle. */
  method PerformRequestOutput(fm: TmpJavaFileManager, location: Location, className: string, kind: Kind,
                              outputs: seq<VirtualFile>, streams: seq<ByteSink>, ghost a: ScriptState)
    returns (outputs': seq<VirtualFile>)
    requires fm.store.Valid() && Mirrors(fm.store, outputs, streams, a)
    modifies fm.store
    ensures fm.store.Valid() && Mirrors(fm.store, outputs', streams, Step(a, RequestOutput(location, className, kind)))
    ensures |outputs'| == |outputs| + 1 && outputs'[..|outputs|] == outputs && fresh(outputs'[|outputs|])
    ensures fm.store.files == old(fm.store.files)[className := outputs'[|outputs|]]
  {
    var f := fm.GetJavaFileForOutput(location, className, kind);
    outputs' := outputs + [f];
    var b := Step(a, RequestOutput(location, className, kind));
    forall n | n in b.outputs
      ensures n in fm.store.files && fm.store.files[n] == outputs'[LatestOutput(b.outputs, n).value]
    {
      LatestOutputAppend(a.outputs, className, n);
    }
  }

  /** An `OpenOutput` step: `openOutputStream` on an output file the task holds. */
  method PerformOpenOutput(store: FileStore, outputs: seq<VirtualFile>, streams: seq<ByteSink>, ghost a: ScriptState, file: nat)
    returns (streams': seq<ByteSink>)
    requires file < |outputs| && Mirrors(store, outputs, streams, a)
    modifies outputs[file]
    ensures Mirrors(store, outputs, streams', Step(a, OpenOutput(file)))
    ensures |streams'| == |streams| + 1 && streams'[..|streams|] == streams && fresh(streams'[|streams|])
  {
    var stream := outputs[file].OpenOutputStream();
    streams' := streams + [stream];
  }

  /** A `WriteBytes` step: a write on a stream the task holds. */
  method PerformWrite(store: FileStore, outputs: seq<VirtualFile>, streams: seq<ByteSink>, ghost a: ScriptState,
                      stream: nat, bytes: seq<byte>)
    requires stream < |streams| && Mirrors(store, outputs, streams, a)
    modifies streams[stream]
    ensures Mirrors(store, outputs, streams, Step(a, WriteBytes(stream, bytes)))
  {
    streams[stream].Write(bytes);
  }

  /**
   * Performs one step of a script: the task's handles after the step mirror
   * `Step(a, step)`, every object it adds is new, and only a `RequestOutput`
   * changes the store, by putting the new file under its name.
   */
  method PerformStep(fm: TmpJavaFileManager, unit: VirtualFile, outputs: seq<VirtualFile>, streams: seq<ByteSink>,
                     ghost a: ScriptState, step: CompilerStep)
    returns (outputs': seq<VirtualFile>, streams': seq<ByteSink>)
    requires fm.store.Valid() && Mirrors(fm.store, outputs, streams, a)
    modifies fm.store, set f | f in outputs, set b | b in streams
    ensures fm.store.Valid() && Mirrors(fm.store, outputs', streams', Step(a, step))
    ensures forall f :: f in outputs' ==> f in outputs || fresh(f)
    ensures forall b :: b in streams' ==> b in streams || fresh(b)
    ensures step.RequestOutput? ==> |outputs'| > |outputs| && fm.store.files == old(fm.store.files)[step.className := outputs'[|outputs|]]
    ensures !step.RequestOutput? ==> fm.store.files == old(fm.store.files)
  {
    outputs', streams' := outputs, streams;
    match step {
      case RequestOutput(location, className, kind) =>
        outputs' := PerformRequestOutput(fm, location, className, kind, outputs, streams, a);
      case RequestInput(location, className, kind) =>
        var found := fm.GetJavaFileForInput(location, className, kind);
      case ReadSource =>
        var text := unit.GetCharContent(false);
      case OpenOutput(file) =>
        if file < |outputs| {
          streams' := PerformOpenOutput(fm.store, outputs, streams, a, file);
        }
      case WriteBytes(stream, bytes) =>
        if stream < |streams| {
          PerformWrite(fm.store, outputs, streams, a, stream, bytes);
        }
    }
  }

  /**
   * The compilation task `compiler.getTask(...)`, which this model does not
   * look inside: `steps` is what it does with the file manager and `verdict`
   * is what `call()` reports.
   */
  class CompilationTask {
    const steps: seq<CompilerStep>
    const verdict: bool

    constructor (steps: seq<CompilerStep>, verdict: bool)
      ensures this.steps == steps && this.verdict == verdict
    {
      this.steps := steps;
      this.verdict := verdict;
    }

    /**
     * `call()`: performs the steps against `fm`, reading `unit` as the
     * compilation unit. Afterwards the store has a new file for each name the
     * task asked to output, holding what the script left in it, and every
     * other entry is the one it had before.
     */
    method Call(fm: TmpJavaFileManager, unit: VirtualFile) returns (ok: bool)
      requires fm.store.Valid()
      modifies fm.store
      ensures fm.store.Valid()
      ensures ok == verdict
      ensures fm.store.files.Keys == old(fm.store.files.Keys) + OutputNames(steps)
      ensures forall n :: n in OutputNames(steps) ==> fresh(fm.store.files[n])
      ensures forall n :: n in OutputNames(steps) ==>
        (fm.store.files[n].outputStream == null <==> ScriptBuffer(steps, n).None?) &&
        (fm.store.files[n].outputStream != null ==>
           fm.store.files[n].outputStream.written == ScriptBuffer(steps, n).value)
      ensures forall n :: n in old(fm.store.files) && n !in OutputNames(steps) ==>
        fm.store.files[n] == old(fm.store.files[n])
    {
      var outputs: seq<VirtualFile> := [];
      var streams: seq<ByteSink> := [];
      var i := 0;
      while i < |steps|
        invariant 0 <= i <= |steps|
        invariant fm.store.Valid()
        invariant Mirrors(fm.store, outputs, streams, Run(steps[..i]))
        invariant forall f :: f in outputs ==> fresh(f)
        invariant forall b :: b in streams ==> fresh(b)
        invariant fm.store.files.Keys == old(fm.store.files.Keys) + OutputNames(steps[..i])
        invariant forall n :: n in old(fm.store.files) && n !in OutputNames(steps[..i]) ==>
          fm.store.files[n] == old(fm.store.files[n])
      {
        assert steps[..i + 1][..i] == steps[..i];
        ghost var a := Run(steps[..i]);
        assert Run(steps[..i + 1]) == Step(a, steps[i]);
        outputs, streams := PerformStep(fm, unit, outputs, streams, a, steps[i]);
        i := i + 1;
      }
      assert steps[..|steps|] == steps;
      ghost var a := Run(steps);
      forall n | n in OutputNames(steps)
        ensures fresh(fm.store.files[n])
        ensures fm.store.files[n].outputStream == null <==> ScriptBuffer(steps, n).None?
        ensures fm.store.files[n].outputStream != null ==>
          fm.store.files[n].outputStream.written == ScriptBuffer(steps, n).value
      {
        var h := LatestOutput(a.outputs, n).value;
        assert fm.store.files[n] == outputs[h] && outputs[h] in outputs;
        match a.current[h] {
          case None =>
            assert ScriptBuffer(steps, n) == None && outputs[h].outputStream == null;
          case Some(st) =>
            assert ScriptBuffer(steps, n) == Some(a.streams[st]) && outputs[h].outputStream == streams[st];
        }
      }
      ok := verdict;
    }
  }

  /**
   * `compile`. With no match of the class pattern it throws
   * `IllegalArgumentException` before the compiler runs and the store is
   * untouched. Otherwise it returns the bytes of the file stored under the
   * extracted name when the compiler reports success and such a file exists,
   * and `None` (Java's `null`) in every other case; reading a stored file
   * that was never opened throws `NullPointerException`.
   */
  method Compile(store: FileStore, platform: PlatformLookup, compiler: CompilationTask, source: string)
    returns (r: Result<Option<seq<byte>>, JavaException>)
    requires store.Valid()
    modifies store
    ensures store.Valid()
    ensures ExtractClassName(source).Failure? ==>
      r == Failure(IllegalArgumentException("No valid class")) && store.files == old(store.files)
    ensures ExtractClassName(source).Success? ==>
      var name := ExtractClassName(source).value;
      && store.files.Keys == old(store.files.Keys) + OutputNames(compiler.steps)
      && (forall n :: n in OutputNames(compiler.steps) ==> fresh(store.files[n]))
      && (forall n :: n in OutputNames(compiler.steps) ==>
            (store.files[n].outputStream == null <==> ScriptBuffer(compiler.steps, n).None?) &&
            (store.files[n].outputStream != null ==>
               store.files[n].outputStream.written == ScriptBuffer(compiler.steps, n).value))
      && (forall n :: n in old(store.files) && n !in OutputNames(compiler.steps) ==>
            store.files[n] == old(store.files[n]))
      && (r.Success? && r.value.Some? <==>
            compiler.verdict && name in store.files && store.files[name].outputStream != null)
      && (r.Success? && r.value.Some? ==> r.value.value == store.files[name].outputStream.written)
      && (r.Failure? <==> compiler.verdict && name in store.files && store.files[name].outputStream == null)
      && (r.Failure? ==> r.error == NullPointerException)
    ensures ExtractClassName(source).Success? && ExtractClassName(source).value in OutputNames(compiler.steps) ==>
      r == if !compiler.verdict then Success(None)
           else match ScriptBuffer(compiler.steps, ExtractClassName(source).value)
             case None => Failure(NullPointerException)
             case Some(bytes) => Success(Some(bytes))
  {
    var fm := new TmpJavaFileManager(store, platform);
    var extracted := ExtractClassName(source);
    if extracted.Failure? {
      return Failure(extracted.error);
    }
    var className := extracted.value;
    var unit := new VirtualFile.FromSource(className, source);
    var ok := compiler.Call(fm, unit);
    if ok && className in store.files {
      var bytes := store.files[className].GetCompiledBytes();
      if bytes.Failure? {
        return Failure(bytes.error);
      }
      return Success(Some(bytes.value));
    }
    return Success(None);
  }

  /**
   * End to end: when the compiler outputs the extracted class, opens it,
   * writes `bytes` and reports success, `compile` returns exactly `bytes`,
   * whatever the store held before.
   */
  method CompileOneClass(store: FileStore, platform: PlatformLookup, bytes: seq<byte>)
    returns (r: Result<Option<seq<byte>>, JavaException>)
    requires store.Valid()
    modifies store
    ensures r == Success(Some(bytes))
  {
    var steps := [RequestOutput(ClassOutput, "Foo", Class), OpenOutput(0), WriteBytes(0, bytes)];
    OneClassScript(ClassOutput, Class, bytes);
    var task := new CompilationTask(steps, true);
    MatchInsideWord();
    r := Compile(store, platform, task, "subclass Foo");
  }
}
