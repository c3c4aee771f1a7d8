/** The POSIX flavour of the path helpers the main process uses: `parse`
    (directory, base, extension, name), `dirname`, `extname` and `join`, for
    paths whose separator is `/` and that carry no trailing separator. */
module Paths {
  import opened Text

  /** Index of the last occurrence of `c` in `s`, if any. */
  function LastIndexOf(s: string, c: char): (r: Option<nat>)
    ensures r.Some? ==> r.value < |s| && s[r.value] == c && forall j :: r.value < j < |s| ==> s[j] != c
    ensures r.None? ==> forall j :: 0 <= j < |s| ==> s[j] != c
  {
    if s == [] then None
    else if s[|s| - 1] == c then Some(|s| - 1)
    else LastIndexOf(s[..|s| - 1], c)
  }

  /** `path.parse(p).dir`: everything before the last separator ("" when there is none). */
  function Dir(p: string): (d: string)
  {
    match LastIndexOf(p, '/')
    case None => ""
    case Some(i) => if i == 0 then "/" else p[..i]
  }

  /** `path.parse(p).base` and `path.basename(p)`. */
  function Base(p: string): (b: string)
    ensures forall j :: 0 <= j < |b| ==> b[j] != '/'
  {
    match LastIndexOf(p, '/')
    case None => p
    case Some(i) => p[i + 1..]
  }

  /** `path.dirname(p)`: like Dir, but "." when `p` has no separator. */
  function Dirname(p: string): string
  {
    if LastIndexOf(p, '/').None? then "." else Dir(p)
  }

  /** The extension of a base name: from its last `.` on, except when that dot
      is the first character (".bashrc") or the name is "..". */
  function ExtOfBase(b: string): (e: string)
    ensures e == [] || (e[0] == '.' && EndsWith(b, e) && |e| < |b|)
  {
    match LastIndexOf(b, '.')
    case None => ""
    case Some(k) => if k == 0 || b == ".." then "" else b[k..]
  }

  /** `path.extname(p)`. */
  function Extname(p: string): string
  {
    ExtOfBase(Base(p))
  }

  /** `path.parse(p).name`, which is also `path.basename(p, path.extname(p))`. */
  function Name(p: string): (n: string)
    ensures n + Extname(p) == Base(p)
  {
    var b := Base(p);
    b[..|b| - |ExtOfBase(b)|]
  }

  /** `path.join(dir, name)` for a single file name: "" and "." vanish, the root
      is not doubled. */
  function Join(dir: string, name: string): (r: string)
    ensures EndsWith(r, name)
  {
    if dir == "" || dir == "." then name
    else if dir == "/" then "/" + name
    else dir + "/" + name
  }

  /** The length of a join grows exactly with the name appended. */
  lemma JoinLength(dir: string, a: string, b: string)
    ensures |Join(dir, a)| - |a| == |Join(dir, b)| - |b|
  {
  }

  /** Joining a name without separators leaves it as the base name. */
  lemma JoinBase(dir: string, name: string)
    requires forall i :: 0 <= i < |name| ==> name[i] != '/'
    ensures Base(Join(dir, name)) == name
  {
    var p := Join(dir, name);
    if dir == "" || dir == "." {
      assert LastIndexOf(p, '/').None?;
    } else {
      var i := |p| - |name| - 1;
      assert p[i] == '/';
      assert p[i + 1..] == name;
    }
  }
}
