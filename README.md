# StringSourceCompiler in Dafny

A model of `org.olexec.compile.StringSourceCompiler`, the adapter that turns
the text of one Java class into bytecode held in memory. It has two parts.

- **Class-name extraction.** `compile` takes group 1 of the first match of
  `class\s+([$_a-zA-Z][$_a-zA-Z0-9]*)\s*`. If there is no match, it throws
  `IllegalArgumentException("No valid class")` before the compiler runs.
  Module `ClassName` defines what a match of that pattern is, as ghost
  predicates. It then computes the leftmost match with a forward scan made of
  recursive functions. The contracts and lemmas tie the two together: the
  result is leftmost and maximal, its characters are in the pattern's classes,
  and the call fails exactly when nothing matches. There is no word boundary,
  so `subclass Foo` yields `Foo`.
- **In-memory files.** `TmpJavaFileObject` is the class `VirtualFile`, which
  has a source mode and an output mode. Its `ByteArrayOutputStream` is the
  class `ByteSink`, kept as a separate object. That way, reopening a file
  really leaves the old stream unreachable from it. The process-wide
  `fileObjectMap` is a `FileStore` object holding a `map` from class name to
  file. `TmpJavaFileManager` reads that map for input lookups, falling back to
  an opaque platform lookup. For output requests it writes a fresh
  output-mode file into the map.

The JDK compiler is an oracle, `CompilationTask`. It is a script of steps
plus the boolean that `call()` reports. The steps are file-manager requests,
reads of the compilation unit's text, stream opens and byte writes. `Run`
gives the script's effect in terms of the handles the compiler holds.
`Compile` is proved against every such script. Afterwards the store has a
fresh entry for each name the compiler asked to output. That entry holds
what the script left in the last file requested under the name. Every other
entry is unchanged. The result is the bytes of the entry stored under the
extracted name when the compiler succeeded and that entry exists. Otherwise
the result is `None` (Java's `null`).

If the compiler does not ask to output the extracted name, an entry left by an
earlier, unrelated call is still found. Its bytes are then returned. The
`Compile` contract states this case explicitly.

One might expect success plus a registered entry always to yield bytes.
In the code, `getCompiledBytes` dereferences `outputStream`,
which is `null` until `openOutputStream` is called. A registered file that
was never opened therefore makes `compile` throw `NullPointerException`, and
the model says so.

## Model

| member | source | states |
|---|---|---|
| ClassName.IsSpace | src/main/java/org/olexec/compile/StringSourceCompiler.java:24 | Java's default `\s` is exactly the space and the code points from tab to carriage return (`[ \t\n\x0B\f\r]`), and no such character is a name character |
| ClassName.IsIdentStart | src/main/java/org/olexec/compile/StringSourceCompiler.java:24 | `[$_a-zA-Z]` holds only ASCII characters and no digit |
| ClassName.IsIdentPart | src/main/java/org/olexec/compile/StringSourceCompiler.java:24 | `[$_a-zA-Z0-9]` includes every name-start character and holds only ASCII characters |
| ClassName.MatchesAt | src/main/java/org/olexec/compile/StringSourceCompiler.java:24 | reference meaning of a match at `i`: `class`, at least one `\s`, then a name start, for some split of `\s+`; a match needs room for those seven characters |
| ClassName.IsNameGroup | src/main/java/org/olexec/compile/StringSourceCompiler.java:24 | reference meaning of group 1 at a match: it starts right after the whole `\s+` run and is the longest `[$_a-zA-Z0-9]` run; a group implies a match at its start |
| ClassName.SpaceRunEnd | src/main/java/org/olexec/compile/StringSourceCompiler.java:24 | the greedy `\s+` run from a position ends at the first non-`[ \t\n\x0B\f\r]` character, and everything before it is white space |
| ClassName.IdentRunEnd | src/main/java/org/olexec/compile/StringSourceCompiler.java:24 | the greedy `[$_a-zA-Z0-9]*` run ends at the first character outside that class, and every character before it is inside |
| ClassName.MatchAt | src/main/java/org/olexec/compile/StringSourceCompiler.java:24 | trying the pattern at one position succeeds exactly when the pattern matches there, and then reports group 1 with its greedy extent |
| ClassName.NoMatchPastSpaces | src/main/java/org/olexec/compile/StringSourceCompiler.java:24 | after `class` and a whole white-space run, a character that is not a name start means no match at that position, whichever `\s+` split is tried |
| ClassName.NoMatchWithoutSpace | src/main/java/org/olexec/compile/StringSourceCompiler.java:24 | `class` not followed by at least one `\s` character does not match |
| ClassName.FindFrom | src/main/java/org/olexec/compile/StringSourceCompiler.java:33-35 | scanning forward from a position finds a match with no match before it in the scanned range; finding nothing means no match at or after that position |
| ClassName.NoMatchBeyond | src/main/java/org/olexec/compile/StringSourceCompiler.java:24 | no match starts past the end of the text |
| ClassName.Find | src/main/java/org/olexec/compile/StringSourceCompiler.java:33-35 | `find()` reports the leftmost match with its group, and reports none exactly when no position matches |
| ClassName.ExtractClassName | src/main/java/org/olexec/compile/StringSourceCompiler.java:33-40 | extraction fails, with `IllegalArgumentException("No valid class")`, exactly when no position matches; otherwise it returns group 1 of the leftmost match |
| ClassName.NameGroupUnique | src/main/java/org/olexec/compile/StringSourceCompiler.java:24 | a match at a given start has exactly one group 1, so the extracted name is determined by the pattern alone |
| ClassName.ExtractionFollowsPattern | src/main/java/org/olexec/compile/StringSourceCompiler.java:33-36 | conversely, whenever the pattern's leftmost match starts at `i` with group `source[k..e]`, extraction returns exactly that text |
| ClassName.ExtractedNameIsIdentifier | src/main/java/org/olexec/compile/StringSourceCompiler.java:24-36 | the name is non-empty, starts in `[$_a-zA-Z]` and continues in `[$_a-zA-Z0-9]` |
| ClassName.ExtractedNameIsMaximal | src/main/java/org/olexec/compile/StringSourceCompiler.java:24-36 | the name follows a white-space character in the text and is the longest run: the next character, if any, is not a name character |
| ClassName.ExtractedNameIsLeftmost | src/main/java/org/olexec/compile/StringSourceCompiler.java:33-36 | every position where the pattern matches is at or after the start of the match the name is taken from |
| ClassName.MatchInsideWord | src/main/java/org/olexec/compile/StringSourceCompiler.java:24 | without a word boundary, `subclass Foo` yields `Foo` |
| ClassName.NoKeywordIsRefused | src/main/java/org/olexec/compile/StringSourceCompiler.java:33-40 | text in which `class` never occurs is refused with `IllegalArgumentException` |
| ClassName.InterfaceIsRefused | src/main/java/org/olexec/compile/StringSourceCompiler.java:37-39 | `interface I {}` is refused |
| VirtualFiles.ByteSink.Write | src/main/java/org/olexec/compile/StringSourceCompiler.java:124-126 | writing to an open stream appends to exactly that stream's buffer |
| VirtualFiles.VirtualFile.FromSource | src/main/java/org/olexec/compile/StringSourceCompiler.java:101-104 | a source-mode file has kind SOURCE, holds the given text and has no output buffer |
| VirtualFiles.VirtualFile.ForOutput | src/main/java/org/olexec/compile/StringSourceCompiler.java:110-113 | an output-mode file has the given kind, `source == null` and no output buffer |
| VirtualFiles.VirtualFile.GetCharContent | src/main/java/org/olexec/compile/StringSourceCompiler.java:115-121 | returns the text exactly when the file is in source mode; an output-mode file throws `IllegalArgumentException("source == null")` |
| VirtualFiles.VirtualFile.OpenOutputStream | src/main/java/org/olexec/compile/StringSourceCompiler.java:123-127 | installs and returns a fresh, empty buffer as the file's output stream |
| VirtualFiles.VirtualFile.GetCompiledBytes | src/main/java/org/olexec/compile/StringSourceCompiler.java:129-131 | returns the current buffer's bytes; with no buffer yet it throws `NullPointerException` |
| VirtualFiles.SourceTextRoundTrip | src/main/java/org/olexec/compile/StringSourceCompiler.java:101-121 | a source-mode file gives back exactly the text it was constructed with |
| VirtualFiles.OutputFileHasNoText | src/main/java/org/olexec/compile/StringSourceCompiler.java:110-121 | an output-mode file of any kind throws on `getCharContent` |
| VirtualFiles.CompiledBytesSinceLastOpen | src/main/java/org/olexec/compile/StringSourceCompiler.java:123-131 | after a reopen, the compiled bytes are exactly those written to the new stream; writes before the reopen or to the old stream are not seen |
| VirtualFiles.UnopenedOutputThrows | src/main/java/org/olexec/compile/StringSourceCompiler.java:110-131 | an output file that was never opened throws `NullPointerException` on `getCompiledBytes` |
| FileManager.FileStore.constructor | src/main/java/org/olexec/compile/StringSourceCompiler.java:19 | the store starts empty and satisfies its invariant: every entry is an output-mode file named by its key |
| FileManager.TmpJavaFileManager.constructor | src/main/java/org/olexec/compile/StringSourceCompiler.java:63-66 | a manager forwards to the given platform file manager and works on the given shared store |
| FileManager.TmpJavaFileManager.GetJavaFileForInput | src/main/java/org/olexec/compile/StringSourceCompiler.java:68-75 | returns the stored file when the name is in the store, otherwise the platform's answer, and modifies nothing |
| FileManager.TmpJavaFileManager.GetJavaFileForOutput | src/main/java/org/olexec/compile/StringSourceCompiler.java:77-82 | maps the name to a fresh output-mode file with no buffer, replacing any earlier entry; every other key is unchanged; the store invariant is kept |
| FileManager.StoredFileHasNoText | src/main/java/org/olexec/compile/StringSourceCompiler.java:77-121 | every stored file is an output-mode file, so asking it for text throws |
| FileManager.InputFindsLatestOutput | src/main/java/org/olexec/compile/StringSourceCompiler.java:68-82 | after two output requests for one name, an input lookup finds the second, distinct file |
| StringSourceCompiler.Run | src/main/java/org/olexec/compile/StringSourceCompiler.java:50-51 | the effect of the compiler's script is well formed, and the names it outputs are exactly the names of its output requests |
| StringSourceCompiler.LatestOutput | src/main/java/org/olexec/compile/StringSourceCompiler.java:80 | the file kept for a name is the last one requested for it: it carries the name, and no later request does; there is none exactly when the name was never requested |
| StringSourceCompiler.OneClassScript | src/main/java/org/olexec/compile/StringSourceCompiler.java:78-81 | a script that requests output for `Foo`, opens it and writes some bytes leaves exactly those bytes in the file kept for `Foo` |
| StringSourceCompiler.CompilationTask.Call | src/main/java/org/olexec/compile/StringSourceCompiler.java:50-51 | whatever the compiler's script does, the store gains a fresh entry for each name it asked to output, holding exactly the buffer the script left in the last file for that name; it keeps every other entry; `call()` reports the task's verdict |
| StringSourceCompiler.Compile | src/main/java/org/olexec/compile/StringSourceCompiler.java:26-58 | with no class match it throws `IllegalArgumentException` and leaves the store untouched; otherwise every name the compiler output gets a fresh entry holding what the script left in the last file requested under it (`ScriptBuffer`), every entry it did not output keeps its old file, and it returns bytes exactly when the compiler succeeded and the entry under the extracted name has a buffer, and those bytes are that buffer's contents; it throws `NullPointerException` when that entry has no buffer, and returns `null` in every other case; when this call's compiler output the name, the result is the script's buffer for it, and otherwise the entry is the earlier call's |
| StringSourceCompiler.CompileOneClass | src/main/java/org/olexec/compile/StringSourceCompiler.java:26-58 | end to end: when the compiler outputs the extracted class, opens it, writes some bytes and succeeds, `compile` returns exactly those bytes, whatever the store held before |

## Left out

- The JDK compiler (`ToolProvider.getSystemJavaCompiler`, `getStandardFileManager`, `getTask(...).call()`) is an oracle. It is a script of file-manager requests, reads of the compilation unit, stream opens and writes, plus a verdict. The verdict is unrelated to the script. No parsing or code generation is modelled. A missing system compiler (a `null` at line 28) is not modelled.
- StringSourceCompiler.CompilationTask.Call: the oracle only opens and writes files and streams that it obtained in the same call. It never writes to files that an input lookup returned, which javac does not do either. The only text it reads is the compilation unit's.
- `super.getJavaFileForInput` is the opaque function `PlatformLookup`. Its `IOException` is not modelled.
- The `sibling` parameter of `getJavaFileForOutput` is unused by the source and is dropped.
- `DiagnosticCollector` and its diagnostics are produced only by the compiler and are not modelled.
- `ConcurrentHashMap` thread safety is not modelled. The store is single-threaded, so races between simultaneous compiles of one name are out of scope.
- The URI built from the class name (lines 102 and 111) and the logger (line 20) are not modelled.
- Java strings are UTF-16 code units. Here `char` is a Unicode scalar value. The pattern's classes are all ASCII, so only unpaired surrogates could behave differently.
- The trailing `\s*` of the pattern always matches the empty string and does not affect group 1, so it is not modelled.
