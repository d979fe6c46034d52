/** Slash-separated node paths as the coordination store accepts them, and the
    part of Go's `path.Dir` that connection.go relies on. */
module ZPath {

  /** One path segment: a non-empty name without '/'. */
  predicate IsSegment(s: string) {
    s != "" && '/' !in s
  }

  /** A name of three characters or more without '/' is a segment; the
      fixed names of the layout are shown to be segments this way. */
  lemma FixedSegment(s: string)
    requires |s| > 2 && forall i :: 0 <= i < |s| ==> s[i] != '/'
    ensures IsSegment(s)
  {
  }

  /** Index of the last '/' in `p`, or -1 when there is none. */
  function LastSlash(p: string): (i: int)
    ensures -1 <= i < |p|
    ensures i >= 0 ==> p[i] == '/'
    ensures forall j :: i < j < |p| ==> p[j] != '/'
  {
    if p == [] then -1
    else if p[|p| - 1] == '/' then |p| - 1
    else LastSlash(p[..|p| - 1])
  }

  /** A path the store accepts: the root "/", or "/a/b/..." with non-empty
      segments (no trailing slash, no "//"). */
  predicate ValidPath(p: string)
    decreases |p|
  {
    p == "/" ||
    (var i := LastSlash(p);
     i >= 0 && IsSegment(p[i + 1..]) && (i == 0 || (p[..i] != "/" && ValidPath(p[..i]))))
  }

  /** Appending one segment: the path of child `c` of `p`. */
  function Child(p: string, c: string): string {
    if p == "/" then "/" + c else p + "/" + c
  }

  /** The last segment of a non-root path. */
  function Name(p: string): (s: string)
    requires ValidPath(p) && p != "/"
    ensures IsSegment(s)
  {
    p[LastSlash(p) + 1..]
  }

  /** Go's `path.Dir` on a valid path: drop the last "/segment";
      `Dir("/x") == "/"` and `Dir("/") == "/"`. */
  function Dir(p: string): (r: string)
    requires ValidPath(p)
    ensures ValidPath(r)
    ensures p == "/" ==> r == "/"
    ensures p != "/" ==> |r| < |p| && p == Child(r, Name(p))
  {
    if p == "/" then "/"
    else
      var i := LastSlash(p);
      if i == 0 then "/" else p[..i]
  }

  lemma {:induction false} ValidShape(p: string)
    requires ValidPath(p)
    ensures |p| >= 1 && p[0] == '/'
    ensures p != "/" ==> |p| >= 2 && p[|p| - 1] != '/'
    decreases |p|
  {
    if p != "/" {
      var i := LastSlash(p);
      if i > 0 {
        ValidShape(p[..i]);
      }
    }
  }

  /** A child path is valid, and `Dir` and `Name` take it apart again. */
  lemma ChildParts(p: string, c: string)
    requires ValidPath(p) && IsSegment(c)
    ensures ValidPath(Child(p, c)) && Child(p, c) != "/"
    ensures Dir(Child(p, c)) == p && Name(Child(p, c)) == c
  {
    var k := Child(p, c);
    var i := if p == "/" then 0 else |p|;
    assert k[i] == '/';
    assert k[i + 1..] == c;
    forall j | i < j < |k| ensures k[j] != '/' {
      assert k[j] == c[j - i - 1];
    }
    assert LastSlash(k) == i;
    if p != "/" {
      ValidShape(p);
      assert k[..i] == p;
    }
  }

  /** Joining a child name to the root as `path + "/" + c`, the way
      `DeleteTree` does, gives "//c", which is not a valid path; `Child`
      gives "/c". */
  lemma RootChildInvalid(c: string)
    requires IsSegment(c)
    ensures !ValidPath("/" + "/" + c)
  {
    var k := "/" + "/" + c;
    assert k[1] == '/';
    forall j | 1 < j < |k| ensures k[j] != '/' {
      assert k[j] == c[j - 2];
    }
    assert LastSlash(k) == 1;
    assert k[..1] == "/";
  }

  /** A strict descendant of `q` has `q` as its parent or descends from `q`
      through its parent. */
  lemma DirOfDescendant(q: string, k: string)
    requires ValidPath(q) && q != "/" && ValidPath(k) && q + "/" <= k
    ensures k != "/"
    ensures Dir(k) == q || q + "/" <= Dir(k)
  {
    ValidShape(q);
    assert k[|q|] == (q + "/")[|q|] == '/';
    var i := LastSlash(k);
    assert i >= |q|;
    if i == |q| {
      assert Dir(k) == k[..|q|] == q;
    } else {
      assert Dir(k) == k[..i];
      assert (q + "/") == k[..|q| + 1] == k[..i][..|q| + 1];
    }
  }

  /** A path below its parent's subtree: the parent plus "/" is a prefix. */
  lemma DirPrefix(k: string)
    requires ValidPath(k) && k != "/" && Dir(k) != "/"
    ensures Dir(k) + "/" <= k
  {
    var r := Dir(k);
    assert k == r + "/" + Name(k);
    assert k[..|r| + 1] == r + "/";
  }

  /** The path itself and all its ancestors, up to the root. */
  ghost function Ancestry(p: string): (s: set<string>)
    requires ValidPath(p)
    ensures p in s && "/" in s
    ensures forall a :: a in s ==> |a| <= |p|
    decreases |p|
  {
    if p == "/" then {"/"} else {p} + Ancestry(Dir(p))
  }
}
