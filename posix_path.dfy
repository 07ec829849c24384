/**
 * The `os.path` functions of the runner and the front end, for POSIX paths
 * whose only separator is '/'.
 */
module PosixPath {
  import opened Wrappers
  import opened Text

  /**
   * `os.path.basename(p)`: the part after the last '/'. It is the longest
   * suffix of `p` without a '/'.
   */
  function Basename(p: string): (b: string)
    ensures '/' !in b
    ensures EndsWith(p, b)
    ensures |b| == |p| || p[|p| - |b| - 1] == '/'
  {
    if p == [] || p[|p| - 1] == '/' then []
    else
      var q, c := p[..|p| - 1], p[|p| - 1];
      BasenameGrows(q, Basename(q), c);
      assert q + [c] == p;
      Basename(q) + [c]
  }

  /** A character other than '/' extends the base name of the path it ends. */
  lemma BasenameGrows(q: string, b: string, c: char)
    requires '/' !in b && EndsWith(q, b)
    requires |b| == |q| || q[|q| - |b| - 1] == '/'
    requires c != '/'
    ensures var p, b' := q + [c], b + [c];
      '/' !in b' && EndsWith(p, b') && (|b'| == |p| || p[|p| - |b'| - 1] == '/')
  {
    EndsWithSnoc(q, b, c);
    if |b| < |q| {
      assert (q + [c])[|q| - |b| - 1] == q[|q| - |b| - 1];
    }
  }

  /** The three properties of `Basename` single out one suffix. */
  lemma BasenameUnique(p: string, b: string)
    requires '/' !in b && EndsWith(p, b)
    requires |b| == |p| || p[|p| - |b| - 1] == '/'
    ensures Basename(p) == b
  {
  }

  /** The basename of `dir/name` is `name`, whatever the parent directory. */
  lemma BasenameAfterSlash(dir: string, name: string)
    requires '/' !in name
    ensures Basename(dir + "/" + name) == name
    ensures Basename(name) == name
  {
    var p := dir + "/" + name;
    assert p[|p| - |name|..] == name;
    assert p[|p| - |name| - 1] == '/';
    BasenameUnique(p, name);
    BasenameUnique(name, name);
  }

  /** Every character of `s` is a '.'. */
  predicate AllDots(s: string) {
    forall i :: 0 <= i < |s| ==> s[i] == '.'
  }

  /**
   * `os.path.splitext(name)` for a name without '/': the extension is the
   * part from the last '.', unless only dots come before that '.' (so
   * ".bashrc" and "..." have no extension).
   */
  function SplitExt(name: string): (parts: (string, string))
    ensures parts.0 + parts.1 == name
    ensures parts.1 == [] || (parts.1[0] == '.' && '.' !in parts.1[1..] && !AllDots(parts.0))
    ensures parts.1 == [] ==> '.' !in name || AllDots(name[..LastIndexOf(name, '.').value])
  {
    match LastIndexOf(name, '.')
    case None => (name, [])
    case Some(d) =>
      if AllDots(name[..d]) then (name, [])
      else
        assert name[..d] + name[d..] == name;
        (name[..d], name[d..])
  }

  /**
   * `os.path.join(a, b)`: `b` alone when it is absolute, otherwise `b`
   * appended to `a` with one '/' between them.
   */
  function Join(a: string, b: string): (r: string)
    ensures EndsWith(r, b)
    ensures !StartsWith(b, "/") ==> StartsWith(r, a)
  {
    if StartsWith(b, "/") then b
    else if a == [] || EndsWith(a, "/") then
      assert (a + b)[|a + b| - |b|..] == b;
      a + b
    else
      assert (a + "/" + b)[|a + "/" + b| - |b|..] == b;
      a + "/" + b
  }

  /** Joining different relative names onto one directory gives different paths. */
  lemma JoinInjective(a: string, b1: string, b2: string)
    requires !StartsWith(b1, "/") && !StartsWith(b2, "/")
    requires Join(a, b1) == Join(a, b2)
    ensures b1 == b2
  {
    var sep := if a == [] || EndsWith(a, "/") then "" else "/";
    assert Join(a, b1) == (a + sep) + b1;
    assert Join(a, b2) == (a + sep) + b2;
    assert b1 == Join(a, b1)[|a + sep|..];
  }

  /** The root of the generated job folders, `os.path.join(os.getcwd(), "generated_splats")`. */
  function OutputDir(cwd: string): (d: string)
    ensures StartsWith(d, cwd) && EndsWith(d, "generated_splats")
  {
    assert "generated_splats"[0] == 'g';
    Join(cwd, "generated_splats")
  }

  /** The folder of the viewer page, `os.path.join(os.getcwd(), "assets")`. */
  function AssetsDir(cwd: string): (d: string)
    ensures StartsWith(d, cwd) && EndsWith(d, "assets")
  {
    assert "assets"[0] == 'a';
    Join(cwd, "assets")
  }
}
