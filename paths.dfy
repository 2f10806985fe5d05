/**
 * The `std::path` operations the router applies to the path it builds:
 * `PathBuf::push`, `Path::parent`, `PathBuf::pop`, `Path::file_name` and
 * `Path::extension`, on Unix paths given as bytes. Components "." and ".." and
 * repeated separators inside a path are kept as written, not normalised.
 */
module Paths {
  import opened Wrappers
  import opened Bytes

  predicate IsAbsolute(p: Str) {
    StartsWith(p, [SLASH])
  }

  /**
   * `base.push(p)`: an absolute `p` replaces the path; otherwise `p` is appended,
   * after a separator unless `base` is empty or already ends with one.
   */
  function Push(base: Str, p: Str): (r: Str)
    ensures IsAbsolute(p) ==> r == p
    ensures !IsAbsolute(p) ==> EndsWith(r, p) && StartsWith(r, base)
  {
    if IsAbsolute(p) then p
    else if base == [] || EndsWith(base, [SLASH]) then base + p
    else base + [SLASH] + p
  }

  /** Pushing a relative path onto a directory path ending in "/" concatenates them. */
  lemma PushOntoDirectory(base: Str, p: Str)
    requires EndsWith(base, [SLASH]) && !IsAbsolute(p)
    ensures Push(base, p) == base + p
  {
  }

  /** Pushing a relative path onto a path without a trailing "/" inserts exactly one. */
  lemma PushAddsSeparator(base: Str, p: Str)
    requires base != [] && !EndsWith(base, [SLASH]) && !IsAbsolute(p)
    ensures Push(base, p) == base + [SLASH] + p
  {
  }

  /**
   * `path.parent()`: the path without its last component and the separators
   * before it ("/" when only the root is left, "" for a single relative
   * component); `None` for the empty path and the root.
   */
  function Parent(p: Str): (r: Option<Str>)
    ensures r.None? <==> forall i :: 0 <= i < |p| ==> p[i] == SLASH
    ensures r.Some? ==> StartsWith(p, r.value) && |r.value| < |p|
  {
    var t := TrimEnd(p, SLASH);
    if t == [] then None
    else
      match FindLast(t, SLASH)
      case None => Some([])
      case Some(k) =>
        var q := TrimEnd(t[..k], SLASH);
        if q == [] then
          assert p[0] == SLASH by {
            assert forall i :: 0 <= i < k ==> t[i] == SLASH;
          }
          Some([SLASH])
        else
          assert t[..k][..|q|] == q;
          Some(q)
  }

  /** The parent of "dir/name", for a name without "/", is "dir" when "dir" does not end in "/". */
  lemma ParentOfChild(dir: Str, name: Str)
    requires dir != [] && !EndsWith(dir, [SLASH]) && name != [] && SLASH !in name
    ensures Parent(dir + [SLASH] + name) == Some(dir)
  {
    var p := dir + [SLASH] + name;
    assert p[|p| - 1] == name[|name| - 1];
    assert name[|name| - 1] in name;
    FindLastBefore(dir, SLASH, name);
    assert p[..|dir|] == dir;
    assert dir[|dir| - 1] != SLASH by { assert dir[|dir| - 1..] == [dir[|dir| - 1]]; }
  }

  /** `path.pop()`: truncate to the parent, or leave the path alone when it has none. */
  function Pop(p: Str): (r: Str)
    ensures StartsWith(p, r)
  {
    match Parent(p)
    case None => p
    case Some(q) => q
  }

  /** `path.file_name()`: the last component, unless it is "." or "..", or there is none. */
  function FileName(p: Str): (r: Option<Str>)
    ensures r.Some? ==> r.value != [] && SLASH !in r.value
  {
    var t := TrimEnd(p, SLASH);
    if t == [] then None
    else
      var name := match FindLast(t, SLASH) case None => t case Some(k) => t[k + 1..];
      if name == [] || name == [DOT] || name == [DOT, DOT] then None else Some(name)
  }

  /**
   * `path.extension()`: what follows the last "." of the file name, unless
   * that "." is the name's first byte or the name has none.
   */
  function Extension(p: Str): (r: Option<Str>)
    ensures r.Some? ==> FileName(p).Some? && EndsWith(FileName(p).value, [DOT] + r.value) && DOT !in r.value
    ensures r.Some? ==> |r.value| + 1 < |FileName(p).value|
  {
    match FileName(p)
    case None => None
    case Some(name) =>
      match FindLast(name, DOT)
      case None => None
      case Some(k) =>
        if k == 0 then None
        else
          DotSuffix(name, k);
          Some(name[k + 1..])
  }

  lemma DotSuffix(name: Str, k: nat)
    requires k < |name| && name[k] == DOT
    ensures EndsWith(name, [DOT] + name[k + 1..])
  {
    assert name[k..] == [DOT] + name[k + 1..];
  }

  /** The file name of "dir/name", for a name without "/" that is not "." or "..", is that name. */
  lemma FileNameOfChild(dir: Str, name: Str)
    requires name != [] && SLASH !in name && name != [DOT] && name != [DOT, DOT]
    ensures FileName(dir + [SLASH] + name) == Some(name)
  {
    var p := dir + [SLASH] + name;
    assert p[|p| - 1] == name[|name| - 1];
    assert name[|name| - 1] in name;
    FindLastBefore(dir, SLASH, name);
    assert p[|dir| + 1..] == name;
  }

  /** "dir/stem.ext", with a non-empty stem and an extension free of "/" and ".", has extension "ext". */
  lemma ExtensionOf(dir: Str, stem: Str, ext: Str)
    requires stem != [] && SLASH !in stem && SLASH !in ext && DOT !in ext
    requires stem + [DOT] + ext != [DOT, DOT]
    ensures Extension(dir + [SLASH] + stem + [DOT] + ext) == Some(ext)
  {
    var name := stem + [DOT] + ext;
    assert SLASH !in name by {
      forall i | 0 <= i < |name| ensures name[i] != SLASH {
        if i < |stem| { assert name[i] in stem; } else if i > |stem| { assert name[i] == ext[i - |stem| - 1]; }
      }
    }
    assert dir + [SLASH] + stem + [DOT] + ext == dir + [SLASH] + name;
    FileNameOfChild(dir, name);
    FindLastBefore(stem, DOT, ext);
    assert name[|stem| + 1..] == ext;
  }

  /** A file name without "." has no extension. */
  lemma NoDotNoExtension(dir: Str, name: Str)
    requires name != [] && SLASH !in name && DOT !in name
    ensures Extension(dir + [SLASH] + name) == None
  {
    assert name != [DOT] && name != [DOT, DOT] by { assert name[0] in name; }
    FileNameOfChild(dir, name);
  }
}
