/** Go's `filepath.Base` with the Unix separator '/', as the dispatcher and the
    metalink strategy use it to name the file they write. */
module FilePath {

  /** `p` with every trailing '/' removed. */
  function TrimTrailingSlashes(p: string): (t: string)
    ensures t <= p
    ensures t == [] || t[|t| - 1] != '/'
    ensures forall i :: |t| <= i < |p| ==> p[i] == '/'
    decreases |p|
  {
    if p != [] && p[|p| - 1] == '/' then TrimTrailingSlashes(p[..|p| - 1]) else p
  }

  /** The longest suffix of `p` that holds no '/'. */
  function AfterLastSlash(p: string): (seg: string)
    ensures |seg| <= |p| && p[|p| - |seg|..] == seg
    ensures '/' !in seg
    ensures |seg| == |p| || p[|p| - |seg| - 1] == '/'
    decreases |p|
  {
    if p == [] || p[|p| - 1] == '/' then []
    else AfterLastSlash(p[..|p| - 1]) + [p[|p| - 1]]
  }

  /** The last element of `p`: "." for the empty path, "/" for a path of
      slashes only, otherwise the name after the last '/' once trailing
      slashes are removed. */
  function Base(p: string): (b: string)
    ensures p == [] ==> b == "."
    ensures b != []
    ensures b == "/" || '/' !in b
  {
    if p == [] then "."
    else
      var t := TrimTrailingSlashes(p);
      if t == [] then "/" else AfterLastSlash(t)
  }

  /** `seg`, starting at index `start`, is the last element of `p`: a non-empty
      name without '/', preceded by nothing or by a '/', followed only by '/'s. */
  predicate IsLastElement(p: string, seg: string, start: nat) {
    start + |seg| <= |p| && p[start..start + |seg|] == seg &&
    seg != [] && '/' !in seg &&
    (start == 0 || p[start - 1] == '/') &&
    forall i :: start + |seg| <= i < |p| ==> p[i] == '/'
  }

  /** Base picks out exactly the last element, wherever it sits in the path. */
  lemma BaseOfLastElement(p: string, seg: string, start: nat)
    requires IsLastElement(p, seg, start)
    ensures Base(p) == seg
  {
    var n := start + |seg|;
    var t := TrimTrailingSlashes(p);
    assert p[n - 1] == seg[|seg| - 1] != '/';
    assert t != [] ==> t[|t| - 1] == p[|t| - 1];
    assert |t| == n;
    assert t == p[..n];
    var b := AfterLastSlash(t);
    assert t[start..] == seg;
    assert |b| < |t| ==> t[|t| - |b| - 1] == '/';
    assert |b| == |seg|;
    assert b == t[|t| - |b|..] == seg;
  }

  /** Conversely, whenever `p` holds a character other than '/', Base(p) is
      its last element. */
  lemma BaseIsLastElement(p: string)
    requires exists i :: 0 <= i < |p| && p[i] != '/'
    ensures exists start: nat :: IsLastElement(p, Base(p), start)
  {
    var i :| 0 <= i < |p| && p[i] != '/';
    var t := TrimTrailingSlashes(p);
    assert i < |t|;
    var b := AfterLastSlash(t);
    assert t[|t| - 1] != '/';
    var start := |t| - |b|;
    assert p[start..start + |b|] == t[start..] == b;
    assert IsLastElement(p, Base(p), start);
  }

  /** Base(p) is "/" exactly when `p` is made of one or more slashes. */
  lemma BaseIsRoot(p: string)
    ensures Base(p) == "/" <==> p != [] && forall i :: 0 <= i < |p| ==> p[i] == '/'
  {
  }

  /** The name after a directory prefix ending in '/' (or after nothing),
      with any number of trailing slashes, is the base. */
  lemma BaseOfName(dir: string, name: string, slashes: nat)
    requires dir == [] || dir[|dir| - 1] == '/'
    requires name != [] && '/' !in name
    ensures Base(dir + name + seq(slashes, _ => '/')) == name
  {
    var p := dir + name + seq(slashes, _ => '/');
    assert p[|dir|..|dir| + |name|] == name;
    assert |dir| > 0 ==> p[|dir| - 1] == dir[|dir| - 1];
    BaseOfLastElement(p, name, |dir|);
  }

  lemma FileUrlExample()
    ensures Base("http://host/file.bin") == "file.bin"
  {
    BaseOfName("http://host/", "file.bin", 0);
    assert "http://host/" + "file.bin" + seq(0, _ => '/') == "http://host/file.bin";
  }

  lemma MirrorUrlExample()
    ensures Base("http://a/x.bin") == "x.bin"
  {
    BaseOfName("http://a/", "x.bin", 0);
    assert "http://a/" + "x.bin" + seq(0, _ => '/') == "http://a/x.bin";
  }

  lemma TrailingSlashExample()
    ensures Base("http://host/dir/") == "dir"
  {
    BaseOfName("http://host/", "dir", 1);
    assert "http://host/" + "dir" + seq(1, _ => '/') == "http://host/dir/";
  }

  lemma EmptyAndRootExamples()
    ensures Base("") == "."
    ensures Base("///") == "/"
  {
    BaseIsRoot("///");
  }
}
