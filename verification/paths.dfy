/** Node's POSIX `path.extname`, which the renderer uses to pick an engine: the extension of the
    last path segment, from its last dot, unless that dot starts the segment. */
module Paths {
  import opened Wrappers
  import opened Text

  /** The path without its trailing slashes. */
  function TrimSlashes(s: string): (r: string)
    ensures r <= s
    ensures |r| == 0 || r[|r| - 1] != '/'
    ensures forall i :: |r| <= i < |s| ==> s[i] == '/'
  {
    if |s| > 0 && s[|s| - 1] == '/' then TrimSlashes(s[..|s| - 1]) else s
  }

  /** The last segment of a path, ignoring trailing slashes. */
  function Basename(s: string): (r: string)
    ensures '/' !in r
  {
    var t := TrimSlashes(s);
    match LastIndexOf(t, '/')
    case None => t
    case Some(i) => t[i + 1..]
  }

  /** `path.extname`: from the last dot of the last segment to its end, including the dot; empty
      when the segment has no dot, when its only dot starts it (`.bashrc`), or when it is `..`. */
  function Extname(s: string): (r: string)
    ensures r == "" || (r[0] == '.' && '.' !in r[1..] && '/' !in r)
  {
    var b := Basename(s);
    match LastIndexOf(b, '.')
    case None => ""
    case Some(d) => if d == 0 || b == ".." then "" else b[d..]
  }

  /** `extname(file).slice(1)`: the extension without its dot. */
  function ExtensionOf(file: string): (r: string)
    ensures '.' !in r && '/' !in r
  {
    var e := Extname(file);
    if |e| == 0 then "" else e[1..]
  }

  /** A path `dir/stem.ext`, with a non-empty extension free of dots and slashes and a stem
      segment that does not end the directory part, has extension `ext`. */
  lemma ExtensionOfName(p: string, ext: string)
    requires |p| > 0 && p[|p| - 1] != '/'
    requires |ext| > 0 && '.' !in ext && '/' !in ext
    ensures ExtensionOf(p + "." + ext) == ext
  {
    var s := p + "." + ext;
    assert s[|s| - 1] == ext[|ext| - 1];
    assert TrimSlashes(s) == s;
    assert s == p + ['.'] + ext;
    LastIndexOfJoin(p, '.', ext);
    var b := Basename(s);
    match LastIndexOf(s, '/')
    case None =>
      assert b == s;
      assert Extname(s) == "." + ext;
    case Some(i) =>
      // the slash is inside `p`, and not its last character
      assert i < |p| - 1;
      var q := p[i + 1..];
      assert b == q + ['.'] + ext;
      assert |q| > 0;
      LastIndexOfJoin(q, '.', ext);
      assert b != "..";
      assert b[|q|..] == "." + ext;
  }

  /** A file whose last segment has no dot has no extension. */
  lemma NoDotNoExtension(file: string)
    requires '.' !in Basename(file)
    ensures ExtensionOf(file) == ""
  {
  }
}
