/**
  The POSIX path operations of Python's `os.path` that the workflows of app.py use to
  place and name files: `join`, `basename`, `dirname` and `splitext`.
*/
module Paths {

  /** `s.rfind(c)`: the index of the last `c`, or -1. */
  function LastIndexOf(s: string, c: char): (i: int)
    ensures -1 <= i < |s|
    ensures i >= 0 ==> s[i] == c
    ensures forall j :: i < j < |s| ==> s[j] != c
  {
    if s == [] then -1
    else if s[|s| - 1] == c then |s| - 1
    else LastIndexOf(s[..|s| - 1], c)
  }

  predicate Contains(s: string, c: char) {
    exists i :: 0 <= i < |s| && s[i] == c
  }

  /** `os.path.join(a, b)`: an absolute `b` replaces `a`; otherwise one '/' separates them. */
  function Join(a: string, b: string): (r: string)
    ensures (|b| > 0 && b[0] == '/') ==> r == b
    ensures !(|b| > 0 && b[0] == '/') ==> r == Lead(a) + b
  {
    if |b| > 0 && b[0] == '/' then b
    else if a == [] || a[|a| - 1] == '/' then a + b
    else a + "/" + b
  }

  /** What `join` puts in front of a relative name: the folder, followed by '/' unless it already ends in one. */
  function Lead(a: string): (r: string)
    ensures r == a || r == a + "/"
    ensures r == [] || r[|r| - 1] == '/'
  {
    if a == [] || a[|a| - 1] == '/' then a else a + "/"
  }

  /** `os.path.basename(p)`: the text after the last '/', or all of `p` when it has none. */
  function Basename(p: string): (r: string)
    ensures !Contains(r, '/')
    ensures |r| <= |p| && r == p[|p| - |r|..]
    ensures |r| < |p| ==> p[|p| - |r| - 1] == '/'
  {
    var r := p[LastIndexOf(p, '/') + 1..];
    assert forall j :: 0 <= j < |r| ==> r[j] == p[LastIndexOf(p, '/') + 1 + j];
    r
  }

  /**
    `os.path.dirname(p)`: empty when `p` has no '/'; otherwise the text up to
    the last '/', with its run of trailing slashes dropped unless it is made of
    slashes only.
  */
  function Dirname(p: string): (r: string)
    ensures |r| <= |p| && r == p[..|r|]
    ensures !Contains(p, '/') ==> r == []
    ensures Contains(p, '/') ==>
      var i := LastIndexOf(p, '/');
      && r != [] && |r| <= i + 1
      && (forall j :: |r| <= j <= i ==> p[j] == '/')
      && (AllSlashes(r) ==> |r| == i + 1)
      && (!AllSlashes(r) ==> r[|r| - 1] != '/')
  {
    var head := p[..LastIndexOf(p, '/') + 1];
    if head != [] && !AllSlashes(head) then StripTrailingSlashes(head) else head
  }

  predicate AllSlashes(s: string) {
    forall i :: 0 <= i < |s| ==> s[i] == '/'
  }

  function StripTrailingSlashes(s: string): (r: string)
    ensures |r| <= |s| && r == s[..|r|]
    ensures forall j :: |r| <= j < |s| ==> s[j] == '/'
    ensures r == [] || r[|r| - 1] != '/'
  {
    if s != [] && s[|s| - 1] == '/' then StripTrailingSlashes(s[..|s| - 1]) else s
  }

  /**
    `os.path.splitext(p)`: the extension runs from the last '.' of the last path
    component, provided that component has something other than dots before it;
    otherwise the extension is empty.
  */
  function SplitExt(p: string): (r: (string, string))
    ensures r.0 + r.1 == p
    ensures r.1 == [] || (r.1[0] == '.' && !Contains(r.1[1..], '.') && !Contains(r.1, '/'))
    ensures r.1 != [] <==> HasExtension(p)
    ensures r.1 != [] ==> |r.0| == LastIndexOf(p, '.')
  {
    var dotIndex := LastIndexOf(p, '.');
    if HasExtension(p) then
      var ext := p[dotIndex..];
      assert forall j :: 0 <= j < |ext| ==> ext[j] == p[dotIndex + j];
      assert forall j :: 0 <= j < |ext| - 1 ==> ext[1..][j] == ext[j + 1];
      (p[..dotIndex], p[dotIndex..])
    else (p, "")
  }

  /**
    The last '.' of `p` lies in its last path component and something other
    than a dot comes before it there.
  */
  predicate HasExtension(p: string) {
    var sep, dot := LastIndexOf(p, '/'), LastIndexOf(p, '.');
    dot > sep && exists i :: sep < i < dot && p[i] != '.'
  }

  /** The index `LastIndexOf` returns is the only one with its two properties. */
  lemma LastIndexOfUnique(s: string, c: char, i: int)
    requires -1 <= i < |s| && (i >= 0 ==> s[i] == c)
    requires forall j :: i < j < |s| ==> s[j] != c
    ensures LastIndexOf(s, c) == i
  {
  }

  /** Appending text without `c` leaves the last `c` where it was. */
  lemma LastIndexOfAppend(a: string, t: string, c: char)
    requires !Contains(t, c)
    ensures LastIndexOf(a + t, c) == LastIndexOf(a, c)
  {
    var i := LastIndexOf(a, c);
    forall j | i < j < |a + t| ensures (a + t)[j] != c {
      if j >= |a| {
        assert (a + t)[j] == t[j - |a|];
      }
    }
    LastIndexOfUnique(a + t, c, i);
  }

  /**
    `splitext` recovers a name's parts: a stem whose last component has
    something other than a dot, followed by a '.' and text without '.' or '/',
    splits into that stem and that extension.
  */
  lemma SplitExtOfParts(stem: string, ext: string)
    requires ext != [] && ext[0] == '.' && !Contains(ext[1..], '.') && !Contains(ext, '/')
    requires exists i :: LastIndexOf(stem, '/') < i < |stem| && stem[i] != '.'
    ensures SplitExt(stem + ext) == (stem, ext)
  {
    var p := stem + ext;
    forall j | |stem| < j < |p| ensures p[j] != '.' {
      assert p[j] == ext[1..][j - |stem| - 1];
    }
    LastIndexOfUnique(p, '.', |stem|);
    LastIndexOfAppend(stem, ext, '/');
    var i :| LastIndexOf(stem, '/') < i < |stem| && stem[i] != '.';
    assert p[i] == stem[i];
    assert HasExtension(p);
  }

  /** Appending text without '.' or '/' to a name without an extension gives a name without one. */
  lemma NoExtensionAppend(a: string, t: string)
    requires !HasExtension(a) && !Contains(t, '.') && !Contains(t, '/')
    ensures SplitExt(a + t) == (a + t, "")
  {
    LastIndexOfAppend(a, t, '.');
    LastIndexOfAppend(a, t, '/');
  }

  /** A name with no '.' has no extension: `splitext` leaves it whole. */
  lemma NoDotNoExtension(p: string)
    requires !Contains(p, '.')
    ensures SplitExt(p) == (p, "")
  {
  }

  /** Joining a relative name onto a folder and taking the basename gives the name back. */
  lemma BasenameOfJoin(folder: string, name: string)
    requires name != [] && !Contains(name, '/')
    ensures Basename(Join(folder, name)) == name
  {
    var p := Join(folder, name);
    var i := LastIndexOf(p, '/');
    assert p[|p| - |name|..] == name;
  }

  /** Joining onto a fixed folder never makes two different names collide. */
  lemma JoinInjective(folder: string, x: string, y: string)
    requires |x| > 0 && |y| > 0 && (x[0] == '/' <==> y[0] == '/')
    requires Join(folder, x) == Join(folder, y)
    ensures x == y
  {
    if x[0] != '/' {
      assert Lead(folder) + x == Lead(folder) + y;
      assert x == (Lead(folder) + x)[|Lead(folder)|..];
    }
  }

  /** `dirname` undoes `join` of a plain name onto a folder that does not end in '/'. */
  lemma DirnameOfJoin(folder: string, name: string)
    requires folder != [] && folder[|folder| - 1] != '/'
    requires name != [] && name[0] != '/' && !Contains(name, '/')
    ensures Dirname(Join(folder, name)) == folder
  {
    var p := Join(folder, name);
    assert p == folder + "/" + name;
    assert p[|folder|] == '/';
    assert forall j :: |folder| < j < |p| ==> p[j] == name[j - |folder| - 1];
    assert LastIndexOf(p, '/') == |folder|;
    var head := p[..|folder| + 1];
    assert head == folder + "/";
    assert !AllSlashes(head) by {
      assert head[|folder| - 1] != '/';
    }
    assert StripTrailingSlashes(head) == StripTrailingSlashes(folder) by {
      assert head[..|head| - 1] == folder;
    }
  }
}
