/**
 * The per-file build steps of build/file.ts: what happens in the temporary build tree
 * when a source file of a game package is created, updated or deleted. The file system
 * is a set of directories and a map from file paths to contents; the path scheme of
 * the build (`paths.*`) and JSON serialisation are parameters, since the model cannot
 * see them.
 */
module FileDispatch {
  import opened Common

  /** A path as its sequence of segments; `d <= p` (sequence prefix) means `p` lies in the tree `d`. */
  type Path = seq<string>

  /** The arguments that pick out one source file of one build. */
  datatype Coordinate = Coordinate(
    buildName: string,
    gameName: string,
    packageName: string,
    fileName: string,
    fileExtension: string)

  /** One generated entry: audio has a data string per audio format, anything else one data string. */
  datatype Artifact =
    | Audio(code: string, audioData: map<string, string>)
    | NonAudio(code: string, data: string)

  /** What a transformer returns: generated entries keyed by path. */
  type Generated = map<string, Artifact>

  /**
   * A file-type transformer, called with the build, game, package and file names and the
   * audio formats; `Err` stands for the promise it returns being rejected.
   */
  type Transformer = (string, string, string, string, seq<string>) -> Result<Generated, string>

  /** The registry of lines 14-34: exactly the two file types `svg` and `wav`. */
  function Extensions(svg: Transformer, wav: Transformer): (r: map<string, Transformer>)
    ensures r.Keys == {"svg", "wav"}
    ensures r["svg"] == svg && r["wav"] == wav
  {
    map["svg" := svg, "wav" := wav]
  }

  /**
   * Lookup is by own property (line 90): only `svg` and `wav` are registered extensions.
   * A Dafny map has no inherited members, so the `toString`/`hasOwnProperty` clause holds
   * for the map itself; what models the own-property test is `Create`'s membership test
   * `c.fileExtension in env.extensions`, which sends every other name to the warning path.
   */
  lemma OwnPropertyLookup(svg: Transformer, wav: Transformer, ext: string)
    ensures ext in Extensions(svg, wav) <==> ext == "svg" || ext == "wav"
    ensures "toString" !in Extensions(svg, wav) && "hasOwnProperty" !in Extensions(svg, wav)
  {
  }

  /** The temporary directory of a source file and the cache file its build output goes to. */
  datatype Naming = Naming(tempFile: Coordinate -> Path, cacheFile: Coordinate -> Path)

  datatype FileSystem = FileSystem(dirs: set<Path>, files: map<Path, string>)

  /** `mkdirp`: the directory and every directory above it exist afterwards. */
  function MakeDirs(fs: FileSystem, p: Path): (r: FileSystem)
    ensures r.files == fs.files
    ensures forall d :: d in r.dirs <==> d in fs.dirs || (d <= p && d != [])
  {
    assert forall d :: d <= p ==> d == p[..|d|];
    fs.(dirs := fs.dirs + set i | 1 <= i <= |p| :: p[..i])
  }

  /** `rimraf`: the directory and everything beneath it are removed; nothing else changes. */
  function RemoveTree(fs: FileSystem, p: Path): (r: FileSystem)
    ensures forall d :: d in r.dirs <==> d in fs.dirs && !(p <= d)
    ensures forall f :: f in r.files <==> f in fs.files && !(p <= f)
    ensures forall f :: f in r.files ==> r.files[f] == fs.files[f]
  {
    FileSystem(set d | d in fs.dirs && !(p <= d), map f | f in fs.files && !(p <= f) :: fs.files[f])
  }

  function WriteFile(fs: FileSystem, p: Path, contents: string): FileSystem {
    fs.(files := fs.files[p := contents])
  }

  /** How an operation ended: completed, or rejected with the transformer's reason. */
  datatype Completion = Done | Failed(reason: string)

  /** The state after creation, whether the unknown-extension warning was given, and how it ended. */
  datatype Creation = Creation(fs: FileSystem, warned: bool, completion: Completion)

  /** What the operations depend on: the registry, the path scheme and `JSON.stringify`. */
  datatype Environment = Environment(
    extensions: map<string, Transformer>,
    naming: Naming,
    stringify: Generated -> string)

  /** `performDeletion` (lines 69-78). */
  function Delete(env: Environment, fs: FileSystem, c: Coordinate): FileSystem {
    RemoveTree(fs, env.naming.tempFile(c))
  }

  /**
   * `performCreation` (lines 80-104): make the temporary directory; then, for a
   * registered extension, run its transformer and write the serialised result to the
   * cache file; for any other extension, warn and write `{}`. A rejected transformer
   * ends creation after the directory is made and before any write.
   */
  function Create(env: Environment, fs: FileSystem, c: Coordinate, audioFormats: seq<string>): (r: Creation)
    ensures r.fs.dirs == MakeDirs(fs, env.naming.tempFile(c)).dirs
    ensures r.warned <==> c.fileExtension !in env.extensions
    ensures r.completion.Failed? <==>
      c.fileExtension in env.extensions &&
      env.extensions[c.fileExtension](c.buildName, c.gameName, c.packageName, c.fileName, audioFormats).Err?
    ensures r.completion.Failed? ==> r.fs.files == fs.files
    ensures r.completion.Done? ==> r.fs.files.Keys == fs.files.Keys + {env.naming.cacheFile(c)}
    ensures r.completion.Done? ==> forall f :: f in fs.files && f != env.naming.cacheFile(c) ==> r.fs.files[f] == fs.files[f]
    ensures r.completion.Done? && c.fileExtension !in env.extensions ==> r.fs.files[env.naming.cacheFile(c)] == "{}"
    ensures r.completion.Done? && c.fileExtension in env.extensions ==>
      var generated := env.extensions[c.fileExtension](c.buildName, c.gameName, c.packageName, c.fileName, audioFormats);
      generated.Ok? && r.fs.files[env.naming.cacheFile(c)] == env.stringify(generated.value)
  {
    var made := MakeDirs(fs, env.naming.tempFile(c));
    var cache := env.naming.cacheFile(c);
    if c.fileExtension in env.extensions then
      match env.extensions[c.fileExtension](c.buildName, c.gameName, c.packageName, c.fileName, audioFormats)
      case Err(reason) => Creation(made, false, Failed(reason))
      case Ok(generated) => Creation(WriteFile(made, cache, env.stringify(generated)), false, Done)
    else
      Creation(WriteFile(made, cache, "{}"), true, Done)
  }

  /** `updated` (lines 47-57): deletion, then creation with the same arguments. */
  function Update(env: Environment, fs: FileSystem, c: Coordinate, audioFormats: seq<string>): Creation {
    Create(env, Delete(env, fs, c), c, audioFormats)
  }

  /**
   * Deletion removes the file's temporary directory and everything beneath it, and
   * leaves every directory and file outside that tree as it was.
   */
  lemma DeleteFrame(env: Environment, fs: FileSystem, c: Coordinate)
    ensures var temp, r := env.naming.tempFile(c), Delete(env, fs, c);
      && (forall d :: d in r.dirs ==> !(temp <= d))
      && (forall f :: f in r.files ==> !(temp <= f))
      && (forall d :: d in fs.dirs && !(temp <= d) ==> d in r.dirs)
      && (forall f :: f in fs.files && !(temp <= f) ==> f in r.files && r.files[f] == fs.files[f])
  {
  }

  /** Assuming the cache file lies in the temporary directory, deletion removes it. */
  lemma DeleteRemovesCache(env: Environment, fs: FileSystem, c: Coordinate)
    requires env.naming.tempFile(c) <= env.naming.cacheFile(c)
    ensures env.naming.cacheFile(c) !in Delete(env, fs, c).files
  {
  }

  /** Deleting twice is deleting once. */
  lemma DeleteIdempotent(env: Environment, fs: FileSystem, c: Coordinate)
    ensures Delete(env, Delete(env, fs, c), c) == Delete(env, fs, c)
  {
    var once := Delete(env, fs, c);
    var twice := Delete(env, once, c);
    assert twice.dirs == once.dirs;
    assert twice.files == once.files;
  }

  /** After creation the temporary directory exists, with every directory above it. */
  lemma CreateMakesTempDir(env: Environment, fs: FileSystem, c: Coordinate, audioFormats: seq<string>)
    ensures var temp := env.naming.tempFile(c);
      forall i :: 1 <= i <= |temp| ==> temp[..i] in Create(env, fs, c, audioFormats).fs.dirs
  {
  }

  /** Creating again with the same transformers and arguments changes nothing more. */
  lemma CreateIdempotent(env: Environment, fs: FileSystem, c: Coordinate, audioFormats: seq<string>)
    ensures var once := Create(env, fs, c, audioFormats);
      Create(env, once.fs, c, audioFormats) == once
  {
    var once := Create(env, fs, c, audioFormats);
    var twice := Create(env, once.fs, c, audioFormats);
    assert twice.fs.dirs == once.fs.dirs;
    assert twice.fs.files == once.fs.files;
  }

  /**
   * Assuming the cache file lies in the temporary directory, an update forgets
   * everything the earlier build left there: two file systems that agree outside the
   * temporary directory end the update identical.
   */
  lemma UpdateForgetsEarlierOutput(env: Environment, fs1: FileSystem, fs2: FileSystem, c: Coordinate, audioFormats: seq<string>)
    requires env.naming.tempFile(c) <= env.naming.cacheFile(c)
    requires forall d :: !(env.naming.tempFile(c) <= d) ==> (d in fs1.dirs <==> d in fs2.dirs)
    requires forall f :: !(env.naming.tempFile(c) <= f) ==> (f in fs1.files <==> f in fs2.files)
    requires forall f :: f in fs1.files && f in fs2.files && !(env.naming.tempFile(c) <= f) ==> fs1.files[f] == fs2.files[f]
    ensures Update(env, fs1, c, audioFormats) == Update(env, fs2, c, audioFormats)
  {
    var d1, d2 := Delete(env, fs1, c), Delete(env, fs2, c);
    assert d1.dirs == d2.dirs;
    assert d1.files == d2.files;
  }

  /**
   * Assuming the cache file lies in the temporary directory, an update whose
   * transformer fails leaves no stale cache file behind.
   */
  lemma FailedUpdateLeavesNoCache(env: Environment, fs: FileSystem, c: Coordinate, audioFormats: seq<string>)
    requires env.naming.tempFile(c) <= env.naming.cacheFile(c)
    ensures Update(env, fs, c, audioFormats).completion.Failed? ==>
      env.naming.cacheFile(c) !in Update(env, fs, c, audioFormats).fs.files
  {
    DeleteRemovesCache(env, fs, c);
  }

  /** Updating twice is updating once. */
  lemma UpdateIdempotent(env: Environment, fs: FileSystem, c: Coordinate, audioFormats: seq<string>)
    ensures var once := Update(env, fs, c, audioFormats);
      Update(env, once.fs, c, audioFormats) == once
  {
    var once := Update(env, fs, c, audioFormats);
    var twice := Update(env, once.fs, c, audioFormats);
    var deleted := Delete(env, fs, c);
    var redeleted := Delete(env, once.fs, c);
    var temp, cache := env.naming.tempFile(c), env.naming.cacheFile(c);
    assert MakeDirs(redeleted, temp).dirs == MakeDirs(deleted, temp).dirs;
    if temp <= cache || once.completion.Failed? {
      // the second deletion takes the tree back to the first one's result
      assert redeleted.files == deleted.files;
    } else {
      // the cache file survives deletion and the second creation rewrites the same text
      assert redeleted.files == once.fs.files;
      assert twice.fs.files == once.fs.files;
    }
  }

  /**
   * The temporary build tree as the three exported operations change it, with the
   * warnings given for unknown extensions.
   */
  class Workspace {
    var disk: FileSystem
    var warnings: seq<Coordinate>
    const env: Environment

    constructor(svg: Transformer, wav: Transformer, naming: Naming, stringify: Generated -> string, disk: FileSystem)
      ensures env == Environment(Extensions(svg, wav), naming, stringify)
      ensures this.disk == disk && warnings == []
    {
      env := Environment(Extensions(svg, wav), naming, stringify);
      this.disk := disk;
      warnings := [];
    }

    method PerformDeletion(c: Coordinate)
      modifies this
      ensures disk == Delete(env, old(disk), c)
      ensures warnings == old(warnings)
    {
      disk := RemoveTree(disk, env.naming.tempFile(c));
    }

    method PerformCreation(c: Coordinate, audioFormats: seq<string>) returns (completion: Completion)
      modifies this
      ensures var r := Create(env, old(disk), c, audioFormats);
        disk == r.fs && completion == r.completion &&
        warnings == old(warnings) + (if r.warned then [c] else [])
    {
      disk := MakeDirs(disk, env.naming.tempFile(c));
      if c.fileExtension in env.extensions {
        var generated := env.extensions[c.fileExtension](c.buildName, c.gameName, c.packageName, c.fileName, audioFormats);
        if generated.Err? {
          return Failed(generated.error);
        }
        disk := WriteFile(disk, env.naming.cacheFile(c), env.stringify(generated.value));
      } else {
        warnings := warnings + [c];
        disk := WriteFile(disk, env.naming.cacheFile(c), "{}");
      }
      completion := Done;
    }

    method Created(c: Coordinate, audioFormats: seq<string>) returns (completion: Completion)
      modifies this
      ensures var r := Create(env, old(disk), c, audioFormats);
        disk == r.fs && completion == r.completion &&
        warnings == old(warnings) + (if r.warned then [c] else [])
    {
      completion := PerformCreation(c, audioFormats);
    }

    /** Exactly a deletion followed by a creation with the same arguments. */
    method Updated(c: Coordinate, audioFormats: seq<string>) returns (completion: Completion)
      modifies this
      ensures var r := Update(env, old(disk), c, audioFormats);
        disk == r.fs && completion == r.completion &&
        warnings == old(warnings) + (if r.warned then [c] else [])
    {
      PerformDeletion(c);
      completion := PerformCreation(c, audioFormats);
    }

    /** Needs no audio formats: it only removes the temporary directory. */
    method Deleted(c: Coordinate)
      modifies this
      ensures disk == Delete(env, old(disk), c)
      ensures warnings == old(warnings)
    {
      PerformDeletion(c);
    }
  }
}
