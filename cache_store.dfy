/** The cache helpers of cache_players_utils.py over an in-memory file
    system: a set of directories and a map from file path to the artifact a
    file holds. `ensure_cache_dir` decides which directory a path needs and
    creates it with all its ancestors; `is_cached` and `load_df_cache` only
    look; `save_df_cache` creates the directory, then writes the file.

    Paths are compared as written, except that a directory is found with or
    without trailing slashes (`cache/` is the directory `cache`). */
module CacheStore {
  import opened Common

  /** The default cache location. */
  const CACHE_DIR := "cache/"

  /** What a file holds: a table the CSV reader can read back, or content it
      cannot read. Writing a table and reading it back gives the same table. */
  datatype Artifact<T> = Table(value: T) | Unreadable

  datatype LoadError =
    | NotFound        // FileNotFoundError
    | IsADirectory    // IsADirectoryError
    | Unparseable     // the CSV reader fails on the content

  // -----------------------------------------------------------------------
  // Path arithmetic of os.path

  predicate AllSlashes(s: string) {
    forall i :: 0 <= i < |s| ==> s[i] == '/'
  }

  function RStripSlashes(s: string): (r: string)
    ensures |r| <= |s| && r == s[..|r|]
    ensures r == [] || r[|r| - 1] != '/'
    ensures forall i :: |r| <= i < |s| ==> s[i] == '/'
  {
    if s != [] && s[|s| - 1] == '/' then RStripSlashes(s[..|s| - 1]) else s
  }

  /** How a directory name is stored: without its trailing slashes, unless
      it consists of slashes only. */
  function NormDir(d: string): (r: string)
    ensures |r| <= |d|
  {
    if d != [] && !AllSlashes(d) then RStripSlashes(d) else d
  }

  lemma NormDirIdempotent(d: string)
    ensures NormDir(NormDir(d)) == NormDir(d)
  {
    if d != [] && !AllSlashes(d) {
      var r := RStripSlashes(d);
      assert r != [];
      assert r[|r| - 1] != '/';
    }
  }

  /** os.path.splitext(p)[1]: the text from the last dot of the last path
      component, provided something other than dots precedes that dot in the
      component; "" otherwise. */
  function Extension(p: string): (e: string)
    ensures e != "" ==> |e| <= |p| && e[0] == '.' && p[|p| - |e|..] == e
  {
    var sep := LastIndexOf(p, '/');
    var dot := LastIndexOf(p, '.');
    if dot > sep && exists k | sep < k < dot :: p[k] != '.' then p[dot..] else ""
  }

  /** os.path.dirname(p): everything up to the last slash, with trailing
      slashes removed unless it is made of slashes only. */
  function DirName(p: string): (r: string)
    ensures |r| <= |p|
  {
    NormDir(p[..LastIndexOf(p, '/') + 1])
  }

  /** The directory `ensure_cache_dir` creates for a path: the parent when
      the path has an extension, the path itself otherwise, and CACHE_DIR
      when that comes out empty. */
  function TargetDir(path: string): string {
    var d := if Extension(path) != "" then DirName(path) else path;
    if d == "" then CACHE_DIR else d
  }

  /** The directories os.makedirs(d) leaves in place: d and each of its
      ancestors, named without trailing slashes. */
  function DirChain(d: string): set<string> {
    set i | 0 < i <= |d| && (i == |d| || d[i] == '/') :: NormDir(d[..i])
  }

  /** Whether a file may be created at p once its directories exist: p names
      no directory, does not end with a slash, and its parent exists. */
  predicate CanWrite(dirs: set<string>, p: string) {
    var parent := DirName(p);
    && p != ""
    && p[|p| - 1] != '/'
    && NormDir(p) !in dirs
    && (parent == "" || AllSlashes(parent) || parent in dirs)
  }

  /** When save_df_cache succeeds on a store: makedirs finds no file in the
      way, and the file can then be written. */
  predicate SaveSucceeds<T>(files: map<string, Artifact<T>>, dirs: set<string>, path: string) {
    var chain := DirChain(TargetDir(path));
    chain !! files.Keys && CanWrite(dirs + chain, path)
  }

  class FileStore<T> {
    var dirs: set<string>
    var files: map<string, Artifact<T>>

    /** No path is both a file and a directory; directories are stored in
        their normal form. */
    ghost predicate Valid()
      reads this
    {
      && files.Keys !! dirs
      && forall d :: d in dirs ==> NormDir(d) == d
    }

    constructor ()
      ensures Valid() && dirs == {} && files == map[]
    {
      dirs := {};
      files := map[];
    }

    function IsDir(p: string): bool
      reads this
    {
      NormDir(p) in dirs
    }

    /** is_cached: os.path.exists, true for a file or a directory. */
    function IsCached(p: string): (b: bool)
      reads this
      ensures b <==> p in files || NormDir(p) in dirs
    {
      p in files || IsDir(p)
    }

    /** load_df_cache: read the table stored at p. */
    function Load(p: string): (r: Result<T, LoadError>)
      reads this
      ensures r.Ok? <==> p in files && files[p].Table?
      ensures r.Ok? ==> files[p] == Table(r.value)
      ensures r == Err(NotFound) <==> !IsCached(p)
    {
      if p in files then
        match files[p]
        case Table(v) => Ok(v)
        case Unreadable => Err(Unparseable)
      else if IsDir(p) then Err(IsADirectory)
      else Err(NotFound)
    }

    /** os.makedirs(d, exist_ok=True): creates d and its missing ancestors;
        it fails, changing nothing, on an empty name or when a file stands
        where one of the directories should be. */
    method Makedirs(d: string) returns (ok: bool)
      requires Valid()
      modifies this
      ensures Valid()
      ensures ok <==> d != "" && DirChain(d) !! old(files).Keys
      ensures files == old(files)
      ensures dirs == if ok then old(dirs) + DirChain(d) else old(dirs)
      ensures ok ==> IsDir(d)
    {
      ok := d != "" && DirChain(d) !! files.Keys;
      if ok {
        forall c | c in DirChain(d) ensures NormDir(c) == c {
          var i :| 0 < i <= |d| && (i == |d| || d[i] == '/') && c == NormDir(d[..i]);
          NormDirIdempotent(d[..i]);
        }
        assert NormDir(d[..|d|]) in DirChain(d);
        assert d[..|d|] == d;
        dirs := dirs + DirChain(d);
      }
    }

    /** ensure_cache_dir(path). */
    method EnsureCacheDir(path: string) returns (ok: bool)
      requires Valid()
      modifies this
      ensures Valid()
      ensures ok <==> DirChain(TargetDir(path)) !! old(files).Keys
      ensures files == old(files)
      ensures dirs == if ok then old(dirs) + DirChain(TargetDir(path)) else old(dirs)
    {
      var dirpath := path;
      if Extension(path) != "" {
        dirpath := DirName(path);
      }
      if dirpath == "" {
        dirpath := CACHE_DIR;
      }
      ok := Makedirs(dirpath);
    }

    /** df.to_csv(p): create or overwrite the file at p. */
    method WriteFile(p: string, v: T) returns (ok: bool)
      requires Valid()
      modifies this
      ensures Valid()
      ensures ok <==> CanWrite(old(dirs), p)
      ensures dirs == old(dirs)
      ensures files == if ok then old(files)[p := Table(v)] else old(files)
    {
      ok := CanWrite(dirs, p);
      if ok {
        files := files[p := Table(v)];
      }
    }

    /** save_df_cache(df, path): ensure the directory, then write. On success
        the file holds exactly what was saved, so a load gives it back. */
    method Save(v: T, path: string) returns (ok: bool)
      requires Valid()
      modifies this
      ensures Valid()
      ensures ok <==> SaveSucceeds(old(files), old(dirs), path)
      ensures files == if ok then old(files)[path := Table(v)] else old(files)
      ensures ok ==> dirs == old(dirs) + DirChain(TargetDir(path))
      // a failed write keeps the directories ensure_cache_dir made
      ensures !ok ==> dirs == old(dirs) + (if DirChain(TargetDir(path)) !! old(files).Keys then DirChain(TargetDir(path)) else {})
      ensures ok ==> IsCached(path) && Load(path) == Ok(v)
    {
      ok := EnsureCacheDir(path);
      if ok {
        ok := WriteFile(path, v);
      }
    }

    /** os.remove(p): deletes a file; on a directory or a missing path it
        fails and changes nothing. */
    method Remove(p: string) returns (ok: bool)
      requires Valid()
      modifies this
      ensures Valid()
      ensures ok <==> p in old(files)
      ensures dirs == old(dirs)
      ensures files == old(files) - {p}
    {
      ok := p in files;
      files := files - {p};
    }
  }

  // -----------------------------------------------------------------------
  // Which saves can succeed

  lemma DirChainHasTarget(d: string)
    requires d != ""
    ensures NormDir(d) in DirChain(d)
  {
    assert d[..|d|] == d;
  }

  /** A path without an extension is itself created as a directory by
      ensure_cache_dir, so save_df_cache on it can never write the file; in
      particular the default `save_df_cache(df)`, whose path is CACHE_DIR,
      always fails. */
  lemma SaveWithoutExtensionFails<T>(files: map<string, Artifact<T>>, dirs: set<string>, path: string)
    requires Extension(path) == ""
    ensures !SaveSucceeds(files, dirs, path)
  {
    if path != "" {
      DirChainHasTarget(path);
    }
  }

  lemma ExtensionNotAtSlash(p: string)
    requires Extension(p) != ""
    ensures p != "" && p[|p| - 1] != '/'
  {
  }

  lemma DirChainShorter(d: string, c: string)
    requires c in DirChain(d)
    ensures |c| <= |d|
  {
  }

  lemma CacheDirChain()
    ensures DirChain(CACHE_DIR) == {"cache"}
  {
    assert NormDir("cache") == "cache" by {
      assert !AllSlashes("cache") by { assert "cache"[0] != '/'; }
    }
    assert NormDir("cache/") == "cache" by {
      assert !AllSlashes("cache/") by { assert "cache/"[0] != '/'; }
      assert RStripSlashes("cache/") == RStripSlashes("cache");
    }
    assert CACHE_DIR[..5] == "cache";
    assert CACHE_DIR[..6] == "cache/";
    assert NormDir(CACHE_DIR[..5]) in DirChain(CACHE_DIR);
  }

  /** A path with an extension is saved whenever no file blocks its directory
      chain and no directory already has the path's name. */
  lemma SaveWithExtensionSucceeds<T>(files: map<string, Artifact<T>>, dirs: set<string>, path: string)
    requires Extension(path) != ""
    requires DirChain(TargetDir(path)) !! files.Keys
    requires NormDir(path) !in dirs
    ensures SaveSucceeds(files, dirs, path)
  {
    ExtensionNotAtSlash(path);
    if DirName(path) != "" {
      ParentChain(path);
    } else {
      RootChain(path);
    }
  }

  /** With a parent: the chain is the parent's, which holds the parent but
      not the (longer) path. */
  lemma ParentChain(path: string)
    requires Extension(path) != "" && DirName(path) != ""
    ensures NormDir(path) == path
    ensures path !in DirChain(TargetDir(path))
    ensures AllSlashes(DirName(path)) || DirName(path) in DirChain(TargetDir(path))
  {
    var parent := DirName(path);
    ExtensionNotAtSlash(path);
    assert TargetDir(path) == parent;
    if path in DirChain(parent) {
      DirChainShorter(parent, path);
    }
    if !AllSlashes(parent) {
      DirChainHasTarget(parent);
      NormDirIdempotent(path[..LastIndexOf(path, '/') + 1]);
    }
  }

  /** Without a parent: the chain is the cache directory, which has no
      extension and so is not the path. */
  lemma RootChain(path: string)
    requires Extension(path) != "" && DirName(path) == ""
    ensures NormDir(path) == path
    ensures path !in DirChain(TargetDir(path))
  {
    ExtensionNotAtSlash(path);
    FileNameIsNormal(path);
    assert TargetDir(path) == CACHE_DIR;
    CacheDirChain();
    CacheNameHasNoExtension();
  }

  /** A name that does not end with a slash is already normal. */
  lemma FileNameIsNormal(path: string)
    requires path != "" && path[|path| - 1] != '/'
    ensures NormDir(path) == path
  {
    assert !AllSlashes(path);
  }

  /** The one directory of the cache chain, "cache", has no extension. */
  lemma CacheNameHasNoExtension()
    ensures Extension("cache") == ""
  {
    var c := "cache";
    assert forall i :: 0 <= i < |c| ==> c[i] != '.';
    assert LastIndexOf(c, '.') == -1;
  }

}
