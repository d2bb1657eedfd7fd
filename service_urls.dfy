/** URL helpers: `categorize_service_urls_by_package_names(urls, base_url)`,
    which groups service URLs by their package, and `find_url(links)`, which
    picks one link among the alternatives offered for an operation. */
module ServiceUrls {
  import opened Strings
  import opened Document

  /** The vendor path segment between the base URL and the package name. */
  const VendorSegment := "/com/vmware/"

  /** The marker of a generic RPC-style invocation in a link. */
  const ActionMarker := "~action"

  /** The marker of a resource-scoped link. */
  const IdMarker := "id:"

  // ---------------------------------------------------------------------------
  // Grouping by package

  /** The package of a URL: with the base URL and the vendor segment removed,
      the part before the first `/`. */
  function PackageName(url: string, base: string): (r: string)
    ensures '/' !in r
  {
    var rest := RemoveAll(RemoveAll(url, base), VendorSegment);
    SplitPieces(rest, '/');
    Split(rest, '/')[0]
  }

  /** The URLs of package `p`, in input order. */
  function UrlsOf(urls: seq<string>, base: string, p: string): (r: seq<string>)
    ensures |r| <= |urls|
    ensures forall u :: u in r <==> u in urls && PackageName(u, base) == p
    decreases |urls|
  {
    if urls == [] then []
    else
      var last := urls[|urls| - 1];
      assert urls == urls[..|urls| - 1] + [last];
      UrlsOf(urls[..|urls| - 1], base, p) + (if PackageName(last, base) == p then [last] else [])
  }

  /** The packages the URLs belong to. */
  function Packages(urls: seq<string>, base: string): set<string> {
    set u | u in urls :: PackageName(u, base)
  }

  /** The grouping, built URL by URL: each URL is appended to its package's
      list, which is created on first use. */
  function Categorize(urls: seq<string>, base: string): (r: map<string, seq<string>>)
    ensures forall p :: p in r ==> r[p] != []
    decreases |urls|
  {
    if urls == [] then map[]
    else
      var groups := Categorize(urls[..|urls| - 1], base);
      var last := urls[|urls| - 1];
      var p := PackageName(last, base);
      groups[p := (if p in groups then groups[p] else []) + [last]]
  }

  lemma PackagesSnoc(init: seq<string>, last: string, base: string)
    ensures Packages(init + [last], base) == Packages(init, base) + {PackageName(last, base)}
  {
    var urls := init + [last];
    forall p | p in Packages(urls, base) ensures p in Packages(init, base) + {PackageName(last, base)} {
      var u :| u in urls && PackageName(u, base) == p;
      if u != last {
        assert u in init;
      }
    }
    assert last in urls;
    forall p | p in Packages(init, base) ensures p in Packages(urls, base) {
      var u :| u in init && PackageName(u, base) == p;
      assert u in urls;
    }
  }

  lemma UrlsOfSnoc(init: seq<string>, last: string, base: string, p: string)
    ensures UrlsOf(init + [last], base, p)
         == UrlsOf(init, base, p) + (if PackageName(last, base) == p then [last] else [])
  {
    assert (init + [last])[..|init|] == init;
  }

  lemma CategorizeSnoc(init: seq<string>, last: string, base: string)
    ensures var groups := Categorize(init, base);
      var p := PackageName(last, base);
      Categorize(init + [last], base) == groups[p := (if p in groups then groups[p] else []) + [last]]
  {
    assert (init + [last])[..|init|] == init;
  }

  /** A package that does not occur has no URLs. */
  lemma UrlsOfAbsent(urls: seq<string>, base: string, p: string)
    requires p !in Packages(urls, base)
    ensures UrlsOf(urls, base, p) == []
  {
    var r := UrlsOf(urls, base, p);
    assert forall i :: 0 <= i < |r| ==> PackageName(r[i], base) in Packages(urls, base);
  }

  /** The grouping has one entry per package that occurs, and the entry of a
      package lists exactly that package's URLs in input order. */
  lemma {:induction false} CategorizeSpec(urls: seq<string>, base: string)
    ensures Categorize(urls, base).Keys == Packages(urls, base)
    ensures forall p :: p in Categorize(urls, base) ==> Categorize(urls, base)[p] == UrlsOf(urls, base, p)
    decreases |urls|
  {
    if urls != [] {
      var init := urls[..|urls| - 1];
      var last := urls[|urls| - 1];
      assert urls == init + [last];
      CategorizeSpec(init, base);
      PackagesSnoc(init, last, base);
      CategorizeSnoc(init, last, base);
      var groups := Categorize(init, base);
      forall p | p in Categorize(urls, base) ensures Categorize(urls, base)[p] == UrlsOf(urls, base, p) {
        UrlsOfSnoc(init, last, base, p);
        if p == PackageName(last, base) && p !in groups {
          UrlsOfAbsent(init, base, p);
        }
      }
    }
  }

  /** A URL made of the base, the vendor segment, a package name and a rest
      belongs to that package, as long as neither the base nor the vendor
      segment occurs again further on. */
  lemma PackageNameOf(base: string, pkg: string, rest: string)
    requires base != [] && '/' !in pkg
    requires !Contains(VendorSegment + pkg + "/" + rest, base)
    requires !Contains(pkg + "/" + rest, VendorSegment)
    ensures PackageName(base + VendorSegment + pkg + "/" + rest, base) == pkg
  {
    var tail := pkg + "/" + rest;
    assert VendorSegment + tail == VendorSegment + pkg + "/" + rest;
    assert base + VendorSegment + pkg + "/" + rest == base + (VendorSegment + tail);
    RemoveAllLeading(base, VendorSegment + tail);
    RemoveAllAbsent(VendorSegment + tail, base);
    RemoveAllLeading(VendorSegment, tail);
    RemoveAllAbsent(tail, VendorSegment);
    SplitCons(pkg, '/', rest);
  }

  /** The grouping of the three URLs of the source's example, two of the first
      package and one of the second. */
  lemma CategorizeThree(base: string, u1: string, u2: string, u3: string)
    requires PackageName(u1, base) == PackageName(u2, base) != PackageName(u3, base)
    ensures Categorize([u1, u2, u3], base)
         == map[PackageName(u1, base) := [u1, u2], PackageName(u3, base) := [u3]]
  {
    var p1 := PackageName(u1, base);
    CategorizeSnoc([], u1, base);
    assert [] + [u1] == [u1];
    assert Categorize([u1], base) == map[p1 := [u1]];
    CategorizeSnoc([u1], u2, base);
    assert [u1] + [u2] == [u1, u2];
    assert Categorize([u1, u2], base) == map[p1 := [u1, u2]];
    CategorizeSnoc([u1, u2], u3, base);
    assert [u1, u2] + [u3] == [u1, u2, u3];
    assert PackageName(u3, base) !in Categorize([u1, u2], base);
    assert [] + [u3] == [u3];
  }

  // ---------------------------------------------------------------------------
  // Choosing a link

  /** A link relation: its HTTP method and its URL. */
  datatype Link = Link(httpMethod: string, href: string)

  /** The position of the first link whose URL lacks `marker`, or the length. */
  function FirstWithout(links: seq<Link>, marker: string): (i: nat)
    ensures i <= |links|
    ensures i < |links| ==> !Contains(links[i].href, marker)
    ensures forall j :: 0 <= j < i ==> Contains(links[j].href, marker)
  {
    if links == [] then 0
    else if !Contains(links[0].href, marker) then 0
    else 1 + FirstWithout(links[1..], marker)
  }

  /** The position of the first link whose URL holds `marker`, or the length. */
  function FirstWith(links: seq<Link>, marker: string): (i: nat)
    ensures i <= |links|
    ensures i < |links| ==> Contains(links[i].href, marker)
    ensures forall j :: 0 <= j < i ==> !Contains(links[j].href, marker)
  {
    if links == [] then 0
    else if Contains(links[0].href, marker) then 0
    else 1 + FirstWith(links[1..], marker)
  }

  /** What `find_url` returns for a link: the URL and the method. */
  function Answer(l: Link): (string, string) {
    (l.href, l.httpMethod)
  }

  /** `find_url(links)`: the only link; else the first link without `~action`;
      else the first link with `id:`; else the first link. No link, no answer. */
  function FindUrl(links: seq<Link>): (r: Option<(string, string)>)
    ensures r.None? <==> links == []
  {
    if links == [] then None
    else if |links| == 1 then Some(Answer(links[0]))
    else
      var i := FirstWithout(links, ActionMarker);
      if i < |links| then Some(Answer(links[i]))
      else
        var j := FirstWith(links, IdMarker);
        if j < |links| then Some(Answer(links[j])) else Some(Answer(links[0]))
  }

  /** The selection policy, stated on the links themselves. */
  lemma FindUrlSpec(links: seq<Link>)
    ensures FindUrl(links).None? <==> links == []
    ensures |links| == 1 ==> FindUrl(links) == Some(Answer(links[0]))
    ensures |links| >= 2 && (exists i :: 0 <= i < |links| && !Contains(links[i].href, ActionMarker)) ==>
      exists i :: 0 <= i < |links| && FindUrl(links) == Some(Answer(links[i]))
        && !Contains(links[i].href, ActionMarker)
        && forall j :: 0 <= j < i ==> Contains(links[j].href, ActionMarker)
    ensures |links| >= 2 && (forall i :: 0 <= i < |links| ==> Contains(links[i].href, ActionMarker))
                         && (exists i :: 0 <= i < |links| && Contains(links[i].href, IdMarker)) ==>
      exists i :: 0 <= i < |links| && FindUrl(links) == Some(Answer(links[i]))
        && Contains(links[i].href, IdMarker)
        && forall j :: 0 <= j < i ==> !Contains(links[j].href, IdMarker)
    ensures |links| >= 2 && (forall i :: 0 <= i < |links| ==> Contains(links[i].href, ActionMarker))
                         && (forall i :: 0 <= i < |links| ==> !Contains(links[i].href, IdMarker)) ==>
      FindUrl(links) == Some(Answer(links[0]))
  {
    if |links| >= 2 {
      var i := FirstWithout(links, ActionMarker);
      if i == |links| {
        var j := FirstWith(links, IdMarker);
      }
    }
  }

  /** The answer is always one of the links. */
  lemma FindUrlPicksALink(links: seq<Link>)
    requires links != []
    ensures exists i :: 0 <= i < |links| && FindUrl(links) == Some(Answer(links[i]))
  {
    if |links| >= 2 {
      var i := FirstWithout(links, ActionMarker);
      if i == |links| {
        var j := FirstWith(links, IdMarker);
        if j == |links| {
          assert FindUrl(links) == Some(Answer(links[0]));
        }
      }
    } else {
      assert FindUrl(links) == Some(Answer(links[0]));
    }
  }

  /** Case 2.1: an `~action` link and a plain link; the plain one wins. */
  lemma FindUrlPrefersPlain(m1: string, h1: string, m2: string, h2: string)
    requires Contains(h1, ActionMarker) && !Contains(h2, ActionMarker)
    ensures FindUrl([Link(m1, h1), Link(m2, h2)]) == Some((h2, m2))
  {
    assert FirstWithout([Link(m2, h2)], ActionMarker) == 0;
  }

  /** Case 2.2: two `~action` links, the second resource-scoped; it wins. */
  lemma FindUrlPrefersId(m1: string, h1: string, m2: string, h2: string)
    requires Contains(h1, ActionMarker) && Contains(h2, ActionMarker)
    requires !Contains(h1, IdMarker) && Contains(h2, IdMarker)
    ensures FindUrl([Link(m1, h1), Link(m2, h2)]) == Some((h2, m2))
  {
    assert FirstWithout([Link(m2, h2)], ActionMarker) == 1;
    assert FirstWith([Link(m2, h2)], IdMarker) == 0;
  }

  /** Case 2.3: two `~action` links, neither resource-scoped; the first wins. */
  lemma FindUrlDefaultsToFirst(m1: string, h1: string, m2: string, h2: string)
    requires Contains(h1, ActionMarker) && Contains(h2, ActionMarker)
    requires !Contains(h1, IdMarker) && !Contains(h2, IdMarker)
    ensures FindUrl([Link(m1, h1), Link(m2, h2)]) == Some((h1, m1))
  {
    assert FirstWithout([Link(m2, h2)], ActionMarker) == 1;
    assert FirstWith([Link(m2, h2)], IdMarker) == 1;
  }
}
