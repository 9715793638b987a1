/** The two `os.path` operations the pipeline uses, with POSIX semantics. */
module PosixPath {
  import opened Strings

  /** What `Join(a, b)` puts in front of a relative `b`: `a`, plus a slash when `a`
      is non-empty and does not already end in one. */
  function Lead(a: string): string {
    if a == "" || EndsWith(a, "/") then a else a + "/"
  }

  /** `os.path.join(a, b)`: an absolute `b` replaces `a`; otherwise exactly one
      slash separates them. */
  function Join(a: string, b: string): (p: string)
    ensures EndsWith(p, b)
    ensures StartsWith(b, "/") ==> p == b
    ensures !StartsWith(b, "/") ==> p == Lead(a) + b
  {
    if StartsWith(b, "/") then b
    else if a == "" || EndsWith(a, "/") then a + b
    else a + "/" + b
  }

  /** Joining relative names under one directory never maps two names to one path. */
  lemma JoinInjective(a: string, b1: string, b2: string)
    requires !StartsWith(b1, "/") && !StartsWith(b2, "/")
    requires Join(a, b1) == Join(a, b2)
    ensures b1 == b2
  {
    var l := Lead(a);
    assert b1 == (l + b1)[|l|..];
    assert b2 == (l + b2)[|l|..];
  }

  /** A character other than the slash that neither part holds is absent from the join. */
  lemma JoinKeepsAbsent(a: string, b: string, c: char)
    requires c != '/' && c !in a && c !in b
    ensures c !in Join(a, b)
  {
  }

  /** `os.path.basename(p)`: everything after the last slash. The contract
      characterises it as the longest slash-free suffix of `p`. */
  function Basename(p: string): (b: string)
    ensures '/' !in b
    ensures EndsWith(p, b)
    ensures |b| == |p| || p[|p| - |b| - 1] == '/'
    decreases |p|
  {
    if |p| == 0 then ""
    else if p[|p| - 1] == '/' then ""
    else
      var b := Basename(p[..|p| - 1]) + [p[|p| - 1]];
      assert p[..|p| - 1][|p| - |b|..] + [p[|p| - 1]] == p[|p| - |b|..];
      b
  }

  /** The base name of `dir/name` is `name` whenever `name` holds no slash. */
  lemma BasenameOfJoin(dir: string, name: string)
    requires '/' !in name
    ensures Basename(dir + "/" + name) == name
  {
    var p := dir + "/" + name;
    var b := Basename(p);
    assert p[|dir|] == '/';
    assert p[|p| - |name|..] == name;
    if |b| < |name| {
      assert false;
    } else if |b| > |name| {
      assert false;
    }
    assert b == p[|p| - |b|..];
  }
}
