/**
 * The part of the local file system the asset generator touches: a set of directories
 * and a map from file paths to contents, changed in place by `os.makedirs` and by
 * `open(path, "w").write(...)`.
 */
module FileSystem {
  import opened Common

  /** `path` and every ancestor of it: the directories `os.makedirs(path)` leaves in place. */
  function DirChain(path: string): (chain: set<string>)
    ensures path != [] ==> path in chain
  {
    assert path != [] ==> path[..|path|] == path;
    set k | 1 <= k <= |path| && (k == |path| || path[k] == '/') :: path[..k]
  }

  /** The path of the file `name` inside the directory `dir`. */
  function FilePath(dir: string, name: string): string
  {
    dir + "/" + name
  }

  class Disk {
    var dirs: set<string>
    var files: map<string, string>

    constructor (dirs0: set<string>, files0: map<string, string>)
      ensures dirs == dirs0 && files == files0
    {
      dirs, files := dirs0, files0;
    }

    /** `os.path.exists(path)`. */
    predicate Exists(path: string)
      reads this
    {
      path in dirs || path in files
    }

    /**
     * `os.makedirs(path)`: creates the directory and its missing ancestors, or raises
     * `FileExistsError` when the path already exists, changing nothing.
     */
    method MakeDirs(path: string) returns (r: Result<(), PyError>)
      requires path != []
      modifies this
      ensures old(Exists(path)) ==> r == Err(FileExistsError) && dirs == old(dirs)
      ensures !old(Exists(path)) ==> r.Ok? && dirs == old(dirs) + DirChain(path)
      ensures files == old(files)
      ensures old(dirs) <= dirs
    {
      if Exists(path) {
        return Err(FileExistsError);
      }
      dirs := dirs + DirChain(path);
      return Ok(());
    }

    /**
     * `open(dir + "/" + name, "w").write(content)`: replaces the file's contents, or raises
     * `FileNotFoundError` when the directory does not exist, changing nothing.
     */
    method WriteFile(dir: string, name: string, content: string) returns (r: Result<(), PyError>)
      modifies this
      ensures dir in old(dirs) ==> r.Ok? && files == old(files)[FilePath(dir, name) := content]
      ensures dir !in old(dirs) ==> r == Err(FileNotFoundError) && files == old(files)
      ensures dirs == old(dirs)
    {
      if dir !in dirs {
        return Err(FileNotFoundError);
      }
      files := files[FilePath(dir, name) := content];
      return Ok(());
    }

    /** `open(dir + "/" + name).read()`, or `FileNotFoundError` when there is no such file. */
    function ReadFile(dir: string, name: string): (r: Result<string, PyError>)
      reads this
      ensures r.Ok? <==> FilePath(dir, name) in files
      ensures r.Ok? ==> r.value == files[FilePath(dir, name)]
    {
      var path := FilePath(dir, name);
      if path in files then Ok(files[path]) else Err(FileNotFoundError)
    }
  }
}
