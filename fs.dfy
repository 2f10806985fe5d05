/**
 * The part of the filesystem the router sees through `Path::exists`,
 * `fs::metadata`, `File` reads and `fs::read_dir`: a map from path to the
 * object found there. A key is a path as the router builds it, without a
 * trailing "/" (the root is "/"); symbolic links are not modelled.
 */
module Fs {
  import opened Wrappers
  import opened Bytes

  datatype Kind = File | Dir

  /**
   * One filesystem object: its kind, its `st_mode` bits, its bytes (for a
   * file) and the names `read_dir` yields for it (for a directory), in the
   * order the directory happens to list them.
   */
  datatype Entry = Entry(kind: Kind, mode: bv32, data: Str, children: seq<Str>)

  type FileSystem = map<Str, Entry>

  /** 0o444: read permission for owner, group and others. */
  const READ_ALL: bv32 := 0x124
  /** 0o111: execute permission for owner, group and others. */
  const EXEC_ALL: bv32 := 0x49

  /** `perm.mode() & 0o444 == 0o444`. */
  predicate ReadableByAll(e: Entry) {
    e.mode & READ_ALL == READ_ALL
  }

  /** `perm.mode() & 0o111 == 0o111`. */
  predicate ExecutableByAll(e: Entry) {
    e.mode & EXEC_ALL == EXEC_ALL
  }

  /** The mode test needs all three read bits; any two of them are not enough. */
  lemma ReadableNeedsEveryClass(e: Entry)
    ensures ReadableByAll(e) <==> e.mode & 0x100 != 0 && e.mode & 0x20 != 0 && e.mode & 0x4 != 0
  {
  }

  /**
   * `fs::metadata(path)`: the empty path names nothing, and a path with a
   * trailing "/" resolves only to a directory.
   */
  function Lookup(fs: FileSystem, path: Str): (r: Option<Entry>)
    ensures path == [] ==> r.None?
    ensures r.Some? && EndsWith(path, [SLASH]) ==> r.value.kind == Dir
    ensures path != [] && !EndsWith(path, [SLASH]) ==> r == if path in fs then Some(fs[path]) else None
  {
    if path == [] then None
    else if EndsWith(path, [SLASH]) then
      var t := TrimEnd(path, SLASH);
      var key := if t == [] then [SLASH] else t;
      if key in fs && fs[key].kind == Dir then Some(fs[key]) else None
    else if path in fs then Some(fs[path])
    else None
  }

  /** "d/" and "d" name the same directory, and "d/" names nothing else. */
  lemma TrailingSlashNamesDirectory(fs: FileSystem, dir: Str)
    requires dir != [] && !EndsWith(dir, [SLASH])
    ensures Lookup(fs, dir + [SLASH]) == if dir in fs && fs[dir].kind == Dir then Some(fs[dir]) else None
  {
    var p := dir + [SLASH];
    assert p[..|p| - 1] == dir;
    assert TrimEnd(p, SLASH) == TrimEnd(dir, SLASH);
    assert dir[|dir| - 1] != SLASH by {
      assert dir[|dir| - 1..] == [dir[|dir| - 1]];
    }
  }
}
