/**
 * The in-memory file store (the static `fileObjectMap`) and
 * `TmpJavaFileManager`, which routes the compiler's file requests to it.
 */
module FileManager {
  import opened Wrappers
  import opened VirtualFiles

  /**
   * `JavaFileManager.Location`, a partial list of `StandardLocation`'s values.
   * It is only passed through to the platform file manager, and nothing in the
   * model depends on which values it has.
   */
  datatype Location = ClassOutput | SourceOutput | ClassPath | SourcePath | PlatformClassPath

  /** A file found by the platform's own file manager; its contents are not modelled. */
  class PlatformFile {
    constructor () {}
  }

  /** `super.getJavaFileForInput`: the platform's lookup, `null` when it finds nothing. */
  type PlatformLookup = (Location, string, Kind) -> PlatformFile?

  /** What `getJavaFileForInput` returns: a stored virtual file or the platform's answer. */
  datatype InputFile = InMemory(file: VirtualFile) | Delegated(found: PlatformFile?)

  /**
   * The process-wide map from class name to file object. Every entry was put
   * there by `getJavaFileForOutput`, so it is an output-mode file named by
   * its key.
   */
  class FileStore {
    var files: map<string, VirtualFile>

    ghost predicate Valid()
      reads this
    {
      forall n :: n in files ==> files[n].name == n && files[n].source == None
    }

    constructor ()
      ensures Valid() && files == map[]
    {
      files := map[];
    }
  }

  /** `TmpJavaFileManager`: forwards to the platform, except for the two lookups below. */
  class TmpJavaFileManager {
    const store: FileStore
    const platform: PlatformLookup

    constructor (store: FileStore, platform: PlatformLookup)
      ensures this.store == store && this.platform == platform
    {
      this.store := store;
      this.platform := platform;
    }

    /**
     * `getJavaFileForInput`: the stored file for `className` when there is
     * one, otherwise whatever the platform finds. It changes nothing.
     */
    method GetJavaFileForInput(location: Location, className: string, kind: Kind) returns (r: InputFile)
      ensures r.InMemory? <==> className in store.files
      ensures r.InMemory? ==> r.file == store.files[className]
      ensures r.Delegated? ==> r.found == platform(location, className, kind)
    {
      if className !in store.files {
        return Delegated(platform(location, className, kind));
      }
      return InMemory(store.files[className]);
    }

    /**
     * `getJavaFileForOutput`: a new output-mode file for `className`, put in
     * the store over any earlier entry for that name; every other entry stays.
     */
    method GetJavaFileForOutput(location: Location, className: string, kind: Kind) returns (f: VirtualFile)
      requires store.Valid()
      modifies store
      ensures store.Valid()
      ensures fresh(f) && f.name == className && f.kind == kind
      ensures f.source == None && f.outputStream == null
      ensures store.files == old(store.files)[className := f]
    {
      f := new VirtualFile.ForOutput(className, kind);
      store.files := store.files[className := f];
    }
  }

  /** In a valid store every entry is an output-mode file, so asking it for text throws. */
  method StoredFileHasNoText(store: FileStore, className: string) returns (r: Result<string, JavaException>)
    requires store.Valid() && className in store.files
    ensures r == Failure(IllegalArgumentException("source == null"))
  {
    r := store.files[className].GetCharContent(false);
  }

  /**
   * A later output request for the same name replaces the earlier file: an
   * input lookup then finds the newer one.
   */
  method InputFindsLatestOutput(fm: TmpJavaFileManager, location: Location, className: string, kind: Kind)
    returns (first: VirtualFile, second: VirtualFile, found: InputFile)
    requires fm.store.Valid()
    modifies fm.store
    ensures fm.store.Valid()
    ensures first != second && found == InMemory(second)
  {
    first := fm.GetJavaFileForOutput(location, className, kind);
    second := fm.GetJavaFileForOutput(location, className, kind);
    found := fm.GetJavaFileForInput(location, className, kind);
  }
}
