/**
 * The breadcrumb trail of the site layout (src/app/LayoutBreadcrumbs.tsx):
 * a Home crumb to "/", then one crumb per non-empty segment of the
 * pathname, each linking to the path up to and including its segment.
 */
module Breadcrumbs {
  import opened Strings

  /** `parts.filter(path => path)`: the non-empty pieces, in order. */
  function NonEmpty(parts: seq<string>): (r: seq<string>)
    ensures forall i :: 0 <= i < |r| ==> r[i] != ""
    ensures forall x :: x in r <==> x in parts && x != ""
    ensures |r| <= |parts|
    decreases |parts|
  {
    if |parts| == 0 then []
    else if parts[0] == "" then NonEmpty(parts[1..])
    else [parts[0]] + NonEmpty(parts[1..])
  }

  /** `pathname.split('/').filter(path => path)`. */
  function Segments(pathname: string): (segs: seq<string>)
    ensures forall i :: 0 <= i < |segs| ==> segs[i] != "" && '/' !in segs[i]
  {
    var parts := Split(pathname, '/');
    var segs := NonEmpty(parts);
    assert forall i :: 0 <= i < |segs| ==> segs[i] in parts;
    segs
  }

  /** The filter distributes over concatenation: pieces keep their order and their repeats. */
  lemma {:induction false} NonEmptySplits(a: seq<string>, b: seq<string>)
    ensures NonEmpty(a + b) == NonEmpty(a) + NonEmpty(b)
    decreases |a|
  {
    if |a| > 0 {
      assert (a + b)[0] == a[0] && (a + b)[1..] == a[1..] + b;
      NonEmptySplits(a[1..], b);
    } else {
      assert a + b == b;
    }
  }

  /** The segments of a path around a '/' are those before it, then those after it. */
  lemma SegmentsAround(a: string, b: string)
    ensures Segments(a + "/" + b) == Segments(a) + Segments(b)
  {
    assert a + "/" + b == a + ['/'] + b;
    SplitAround(a, '/', b);
    NonEmptySplits(Split(a, '/'), Split(b, '/'));
  }

  /** Empty segments vanish and repeated ones stay, in path order. */
  lemma SegmentsExamples()
    ensures Segments("/a//b") == ["a", "b"]
    ensures Segments("/a/a") == ["a", "a"]
  {
    assert "a"[1..] == "" && "b"[1..] == "" && Split("", '/') == [""];
    assert Split("a", '/') == [['a'] + ""] && Split("b", '/') == [['b'] + ""];
    assert ['a'] + "" == "a" && ['b'] + "" == "b";
    assert Split("a", '/') == ["a"] && Split("b", '/') == ["b"];
    assert ["a"][1..] == [] && NonEmpty(["a"]) == ["a"] + NonEmpty([]);
    assert ["b"][1..] == [] && NonEmpty(["b"]) == ["b"] + NonEmpty([]);
    assert Segments("") == [] && Segments("a") == ["a"] && Segments("b") == ["b"];
    SegmentsAround("", "b");
    assert "" + "/" + "b" == "/b";
    SegmentsAround("", "/b");
    assert "" + "/" + "/b" == "//b";
    SegmentsAround("a", "/b");
    assert "a" + "/" + "/b" == "a//b";
    SegmentsAround("", "a//b");
    assert "" + "/" + "a//b" == "/a//b";
    SegmentsAround("a", "a");
    assert "a" + "/" + "a" == "a/a";
    SegmentsAround("", "a/a");
    assert "" + "/" + "a/a" == "/a/a";
  }

  datatype Crumb = Crumb(text: string, href: string)

  /** The href of the crumb for segment `i`: "/" and the first `i + 1` segments joined by '/'. */
  function Href(segs: seq<string>, i: nat): (href: string)
    requires i < |segs|
    ensures StartsWith(href, "/") && EndsWith(href, segs[i])
  {
    JoinEndsWithLast(segs[..i + 1], "/");
    "/" + Join(segs[..i + 1], "/")
  }

  /** Home, then one crumb per segment, linking to the path up to that segment. */
  function Crumbs(segs: seq<string>): (crumbs: seq<Crumb>)
    ensures |crumbs| == |segs| + 1
    ensures crumbs[0] == Crumb("Home", "/")
    ensures forall i :: 0 <= i < |segs| ==> crumbs[i + 1].text == segs[i]
  {
    [Crumb("Home", "/")] + seq(|segs|, i requires 0 <= i < |segs| => Crumb(segs[i], Href(segs, i)))
  }

  /** The trail of a pathname. */
  function Trail(pathname: string): (crumbs: seq<Crumb>)
    ensures |crumbs| == |Segments(pathname)| + 1
    ensures crumbs[0] == Crumb("Home", "/")
    ensures forall i :: 0 <= i < |Segments(pathname)| ==> crumbs[i + 1].text == Segments(pathname)[i]
  {
    Crumbs(Segments(pathname))
  }

  /** The href for segment i + 1 extends the one for segment i by '/' and that segment. */
  lemma HrefStep(segs: seq<string>, i: nat)
    requires i + 1 < |segs|
    ensures Href(segs, i + 1) == Href(segs, i) + "/" + segs[i + 1]
  {
    assert segs[..i + 2] == segs[..i + 1] + [segs[i + 1]];
    JoinSnoc(segs[..i + 1], segs[i + 1], "/");
  }

  lemma ExtendedStartsWith(a: string, b: string)
    ensures StartsWith(a + b, a)
  {
    assert (a + b)[..|a|] == a;
  }

  /** Over the crumbs of given segments: each href after the first segment's extends the one before. */
  lemma CrumbsExtend(segs: seq<string>, i: nat)
    requires 1 <= i < |segs|
    ensures Crumbs(segs)[i + 1].href == Crumbs(segs)[i].href + "/" + segs[i]
    ensures StartsWith(Crumbs(segs)[i + 1].href, Crumbs(segs)[i].href)
  {
    var t := Crumbs(segs);
    assert t[i].href == Href(segs, i - 1) && t[i + 1].href == Href(segs, i);
    HrefStep(segs, i - 1);
    ExtendedStartsWith(t[i].href, "/" + segs[i]);
  }

  /** Each crumb's href is the previous one extended by '/' and the crumb's own segment. */
  lemma HrefsExtend(pathname: string, i: nat)
    requires 1 <= i < |Segments(pathname)|
    ensures Trail(pathname)[i + 1].href == Trail(pathname)[i].href + "/" + Segments(pathname)[i]
    ensures StartsWith(Trail(pathname)[i + 1].href, Trail(pathname)[i].href)
  {
    CrumbsExtend(Segments(pathname), i);
  }

  /** Every href starts at the root, as the Home crumb's does. */
  lemma HrefsFromRoot(pathname: string)
    ensures forall i :: 0 <= i < |Trail(pathname)| ==> StartsWith(Trail(pathname)[i].href, "/")
  {
  }

  /** A path written without empty segments, "/s1/s2/.../sn", is split back into its segments. */
  lemma {:induction false} SegmentsOfCanonical(segs: seq<string>)
    requires |segs| >= 1
    requires forall i :: 0 <= i < |segs| ==> segs[i] != "" && '/' !in segs[i]
    ensures Segments("/" + Join(segs, "/")) == segs
  {
    var j := Join(segs, "/");
    SplitAround("", '/', j);
    assert "" + ['/'] + j == "/" + j;
    SplitJoin(segs, '/');
    assert Split("/" + j, '/') == [""] + segs;
    NonEmptyKeeps(segs);
  }

  lemma {:induction false} NonEmptyKeeps(parts: seq<string>)
    requires forall i :: 0 <= i < |parts| ==> parts[i] != ""
    ensures NonEmpty(parts) == parts
    ensures NonEmpty([""] + parts) == parts
    decreases |parts|
  {
    assert ([""] + parts)[1..] == parts;
    if |parts| > 0 {
      NonEmptyKeeps(parts[1..]);
    }
  }

  /**
   * The last crumb links to the pathname with its empty segments collapsed: following it gives
   * the same trail again.
   */
  lemma LastHrefCollapsesPath(pathname: string)
    requires |Segments(pathname)| >= 1
    ensures Trail(pathname)[|Segments(pathname)|].href == "/" + Join(Segments(pathname), "/")
    ensures Segments(Trail(pathname)[|Segments(pathname)|].href) == Segments(pathname)
    ensures Trail(Trail(pathname)[|Segments(pathname)|].href) == Trail(pathname)
  {
    var segs := Segments(pathname);
    assert segs[..|segs|] == segs;
    assert Trail(pathname)[|segs|].href == Href(segs, |segs| - 1);
    SegmentsOfCanonical(segs);
  }
}
