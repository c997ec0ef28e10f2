/**
 * The `bodyClasses` template helper: the CSS classes of a page's body, made
 * from the prefixes of its URL pathname. `/a/b` gives `' a a-b'`; a pathname
 * without non-empty segments gives `'front'`.
 */
module BodyClasses {
  import opened Strings

  /** `_(parts).compact()` on strings: drop the empty ones, keep the order. */
  function Compact(parts: seq<string>): (r: seq<string>)
    ensures |r| <= |parts|
    ensures forall i :: 0 <= i < |r| ==> r[i] != "" && r[i] in parts
    ensures multiset(r) == multiset(parts)["" := 0]
  {
    if |parts| == 0 then []
    else
      assert parts == [parts[0]] + parts[1..];
      if parts[0] == "" then Compact(parts[1..])
      else [parts[0]] + Compact(parts[1..])
  }

  /** Compacting works part by part: the kept parts stay in their order. */
  lemma {:induction false} CompactDistributes(a: seq<string>, b: seq<string>)
    ensures Compact(a + b) == Compact(a) + Compact(b)
    decreases |a|
  {
    if |a| == 0 {
      assert a + b == b;
    } else {
      assert (a + b)[1..] == a[1..] + b;
      CompactDistributes(a[1..], b);
    }
  }

  /** Compacting parts that are all non-empty changes nothing. */
  lemma {:induction false} CompactNonEmpty(parts: seq<string>)
    requires forall i :: 0 <= i < |parts| ==> parts[i] != ""
    ensures Compact(parts) == parts
  {
    if |parts| > 0 {
      CompactNonEmpty(parts[1..]);
    }
  }

  /** The non-empty `/`-separated segments of a pathname. */
  function Segments(pathname: string): (segs: seq<string>)
    ensures forall i :: 0 <= i < |segs| ==> segs[i] != "" && '/' !in segs[i]
  {
    SplitFieldsHaveNoSeparator(pathname, '/');
    Compact(Split(pathname, '/'))
  }

  /** The class for the first `n` segments, `_(paths).first(n).join('-')`. */
  function PrefixClass(segs: seq<string>, n: nat): string
    requires 1 <= n <= |segs|
  {
    Join(segs[..n], "-")
  }

  /** The reduce over the first `n` segments: each prefix class, preceded by one space. */
  function PrefixClasses(segs: seq<string>, n: nat): (r: string)
    requires n <= |segs|
    ensures n >= 1 ==> |r| > 0 && r[0] == ' '
  {
    if n == 0 then "" else PrefixClasses(segs, n - 1) + " " + PrefixClass(segs, n)
  }

  /** `bodyClasses(req, res)` for a request whose URL has this pathname. */
  function BodyClasses(pathname: string): (r: string)
    ensures r == "front" <==> |Segments(pathname)| == 0
    ensures |Segments(pathname)| > 0 ==> |r| > 0 && r[0] == ' '
  {
    var segs := Segments(pathname);
    if |segs| == 0 then "front"
    else PrefixClasses(segs, |segs|)
  }

  /** The list of prefix classes for the first `n` segments, shortest first. */
  function Prefixes(segs: seq<string>, n: nat): (ps: seq<string>)
    requires n <= |segs|
    ensures |ps| == n
  {
    if n == 0 then [] else Prefixes(segs, n - 1) + [PrefixClass(segs, n)]
  }

  /** The k-th listed class joins the first k + 1 segments. */
  lemma {:induction false} PrefixesAt(segs: seq<string>, n: nat, k: nat)
    requires k < n <= |segs|
    ensures Prefixes(segs, n)[k] == Join(segs[..k + 1], "-")
  {
    if k < n - 1 {
      PrefixesAt(segs, n - 1, k);
    }
  }

  /** Each class extends the one before it by `-` and the next segment. */
  lemma ClassExtendsPrevious(segs: seq<string>, k: nat)
    requires 1 <= k < |segs|
    ensures PrefixClass(segs, k + 1) == PrefixClass(segs, k) + "-" + segs[k]
  {
    assert segs[..k + 1] == segs[..k] + [segs[k]];
    JoinAppend(segs[..k], segs[k], "-");
  }

  /** With space-free segments, splitting the reduce result on spaces lists the classes. */
  lemma {:induction false} SplitPrefixClasses(segs: seq<string>, n: nat)
    requires n <= |segs|
    requires forall i :: 0 <= i < |segs| ==> ' ' !in segs[i]
    ensures Split(PrefixClasses(segs, n), ' ') == [""] + Prefixes(segs, n)
  {
    if n > 0 {
      SplitPrefixClasses(segs, n - 1);
      var c := PrefixClass(segs, n);
      JoinAvoids(segs[..n], "-", ' ');
      SplitWithoutSeparator(c, ' ');
      assert PrefixClasses(segs, n) == PrefixClasses(segs, n - 1) + [' '] + c;
      SplitAtSeparator(PrefixClasses(segs, n - 1), ' ', c);
    }
  }

  /**
   * The classes a non-front page gets: splitting `bodyClasses` on spaces
   * yields an empty lead field and then, for k = 1 .. number of segments,
   * the first k segments joined by `-`.
   */
  lemma BodyClassesListPrefixes(pathname: string)
    requires |Segments(pathname)| > 0
    requires forall i :: 0 <= i < |Segments(pathname)| ==> ' ' !in Segments(pathname)[i]
    ensures var segs := Segments(pathname);
      && |Split(BodyClasses(pathname), ' ')| == |segs| + 1
      && Split(BodyClasses(pathname), ' ')[0] == ""
      && forall k :: 1 <= k <= |segs| ==> Split(BodyClasses(pathname), ' ')[k] == PrefixClass(segs, k)
  {
    var segs := Segments(pathname);
    SplitPrefixClasses(segs, |segs|);
    forall k | 1 <= k <= |segs|
      ensures Split(BodyClasses(pathname), ' ')[k] == PrefixClass(segs, k)
    {
      PrefixesAt(segs, |segs|, k - 1);
    }
  }

  /** A pathname written as `/` followed by segments joined by `/` has exactly those segments. */
  lemma SegmentsOfJoinedPath(segs: seq<string>)
    requires forall i :: 0 <= i < |segs| ==> segs[i] != "" && '/' !in segs[i]
    ensures Segments("/" + Join(segs, "/")) == segs
  {
    var joined := Join(segs, "/");
    var path := "/" + joined;
    assert path == [] + ['/'] + joined;
    SplitAtSeparator([], '/', joined);
    assert Split(path, '/') == [""] + Split(joined, '/');
    if |segs| == 0 {
      assert Split(joined, '/') == [""];
      assert Compact([""] + [""]) == [];
    } else {
      SplitJoin(segs, '/');
      CompactNonEmpty(segs);
      assert ([""] + segs)[1..] == segs;
    }
  }

  /** `/a/b` gives `' a a-b'`; `/` gives `'front'`. */
  lemma Examples()
    ensures BodyClasses("/a/b") == " a a-b"
    ensures BodyClasses("/") == "front"
  {
    var segs := ["a", "b"];
    assert Join(segs[1..], "/") == "b";
    assert Join(segs, "/") == "a/b";
    assert "/a/b" == "/" + Join(segs, "/");
    SegmentsOfJoinedPath(segs);
    assert segs[..1] == ["a"] && segs[..2] == segs;
    assert PrefixClass(segs, 1) == "a";
    assert PrefixClass(segs, 2) == "a-b";
    assert PrefixClasses(segs, 1) == " a";
    assert PrefixClasses(segs, 2) == " a a-b";
    assert "/" == "/" + Join([], "/");
    SegmentsOfJoinedPath([]);
  }

}
