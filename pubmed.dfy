/** scripts/pubmed_scraper.py: for every PubMed Central article found, fetch
    the figures whose linked file has an image extension, and save each
    successful download under the next number (the same `brain_scan_{n}.jpg`
    names as scripts/image_scraper.py). */
module Pubmed {
  import opened Wrappers
  import opened Text
  import opened SizeFilter

  const ArticleBase: string := "https://www.ncbi.nlm.nih.gov/pmc/articles/PMC"

  /** A `fig` element: without a `graphic` inside, or with one whose
      `xlink:href` attribute may be missing. */
  datatype Figure = NoGraphic | Graphic(href: Option<string>)

  /** `efetch` and `ET.parse` for one id: they raised, or the figures. */
  datatype Article = Unreadable | Readable(figures: seq<Figure>)

  /** `requests.get` for one image: it raised, or the status, whether the
      body is non-empty, and whether writing the file succeeded. */
  datatype Reply = Raised | Reply(status: int, hasContent: bool, written: bool)

  /** `any(href.lower().endswith(ext) for ext in valid_extensions)` */
  predicate KnownExtension(href: string)
  {
    EndsWith(Lower(href), ".jpg") || EndsWith(Lower(href), ".jpeg") || EndsWith(Lower(href), ".png")
  }

  function ImageUrl(pmcId: string, href: string): string
  {
    ArticleBase + pmcId + "/bin/" + href
  }

  /** A write happens only for status 200 with content, and a write that
      raises is caught before the count goes up. */
  predicate Saved(r: Reply)
  {
    r.Reply? && r.status == 200 && r.hasContent && r.written
  }

  /** A figure whose image is requested: a `graphic` with a non-empty
      `xlink:href` that has a known extension. */
  predicate Eligible(f: Figure)
  {
    f.Graphic? && f.href.Some? && f.href.value != "" && KnownExtension(f.href.value)
  }

  /** The image URLs of one article that are requested, in figure order. */
  function Requested(pmcId: string, figures: seq<Figure>): (r: seq<string>)
    ensures |r| <= |figures|
    ensures forall u :: u in r ==> exists href :: href != "" && KnownExtension(href) && u == ImageUrl(pmcId, href)
  {
    if figures == [] then []
    else
      var init := Requested(pmcId, figures[..|figures| - 1]);
      var f := figures[|figures| - 1];
      if Eligible(f)
      then init + [ImageUrl(pmcId, f.href.value)]
      else init
  }

  /** The URLs saved for one article: the requested ones whose download
      succeeded. */
  function Keep(urls: seq<string>, fetch: string -> Reply): (r: seq<string>)
    ensures |r| <= |urls| && forall k :: 0 <= k < |r| ==> r[k] in urls && Saved(fetch(r[k]))
  {
    if urls == [] then []
    else
      var init := Keep(urls[..|urls| - 1], fetch);
      assert forall u :: u in urls[..|urls| - 1] ==> u in urls;
      if Saved(fetch(urls[|urls| - 1])) then init + [urls[|urls| - 1]] else init
  }

  /** The URLs saved for one article; an unreadable article contributes
      nothing. */
  function ArticleSaves(id: string, articles: string -> Article, fetch: string -> Reply): seq<string>
  {
    match articles(id)
    case Unreadable => []
    case Readable(figures) => Keep(Requested(id, figures), fetch)
  }

  /** The URLs saved over a list of articles, in order. */
  function SavedUrls(ids: seq<string>, articles: string -> Article, fetch: string -> Reply): seq<string>
  {
    if ids == [] then []
    else SavedUrls(ids[..|ids| - 1], articles, fetch) + ArticleSaves(ids[|ids| - 1], articles, fetch)
  }

  /** The outer loop with the shared counter. Returns the URLs saved and
      the files they went to, `brain_scan_1.jpg` onwards without gaps
      across all articles. */
  method ScrapeArticles(ids: seq<string>, articles: string -> Article, fetch: string -> Reply)
    returns (urls: seq<string>, files: seq<string>)
    ensures urls == SavedUrls(ids, articles, fetch)
    ensures |files| == |urls| && forall k :: 0 <= k < |files| ==> files[k] == FileName(k + 1)
  {
    urls := [];
    files := [];
    var count := 1;
    for a := 0 to |ids|
      invariant urls == SavedUrls(ids[..a], articles, fetch)
      invariant count == |files| + 1 && |files| == |urls|
      invariant forall k :: 0 <= k < |files| ==> files[k] == FileName(k + 1)
    {
      var id := ids[a];
      assert ids[..a + 1][..a] == ids[..a] && ids[..a + 1][a] == id;
      var article := articles(id);
      if article.Unreadable? {
        continue;
      }
      var saved, written := ScrapeFigures(id, article.figures, fetch, count);
      urls := urls + saved;
      files := files + written;
      count := count + |saved|;
    }
    assert ids[..|ids|] == ids;
  }

  /** The figure loop of one article, numbering from `count`. */
  method ScrapeFigures(id: string, figures: seq<Figure>, fetch: string -> Reply, count: nat)
    returns (saved: seq<string>, files: seq<string>)
    ensures saved == Keep(Requested(id, figures), fetch)
    ensures |files| == |saved| && forall k :: 0 <= k < |files| ==> files[k] == FileName(count + k)
  {
    saved := [];
    files := [];
    var next := count;
    for i := 0 to |figures|
      invariant saved == Keep(Requested(id, figures[..i]), fetch)
      invariant next == count + |files| && |files| == |saved|
      invariant forall k :: 0 <= k < |files| ==> files[k] == FileName(count + k)
    {
      KeepStep(id, figures, i, fetch);
      var fig := figures[i];
      var requested := fig.Graphic? && fig.href.Some? && fig.href.value != "" && KnownExtension(fig.href.value);
      if requested {
        var imageUrl := ImageUrl(id, fig.href.value);
        var reply := fetch(imageUrl);
        if reply.Reply? && reply.status == 200 && reply.hasContent && reply.written {
          NumberedSnoc(files, count);
          saved := saved + [imageUrl];
          files := files + [FileName(next)];
          next := next + 1;
        }
      }
    }
    assert figures[..|figures|] == figures;
  }

  /** One more figure adds its URL to the saves exactly when it is
      requested and its download is saved. */
  lemma KeepStep(id: string, figures: seq<Figure>, i: nat, fetch: string -> Reply)
    requires i < |figures|
    ensures var f := figures[i];
      Keep(Requested(id, figures[..i + 1]), fetch) ==
        if Eligible(f) && Saved(fetch(ImageUrl(id, f.href.value)))
        then Keep(Requested(id, figures[..i]), fetch) + [ImageUrl(id, f.href.value)]
        else Keep(Requested(id, figures[..i]), fetch)
  {
    assert figures[..i + 1][..i] == figures[..i];
    var init := Requested(id, figures[..i]);
    var f := figures[i];
    if Eligible(f) {
      var r := init + [ImageUrl(id, f.href.value)];
      assert r[..|r| - 1] == init;
    }
  }

  /** Every eligible figure's URL is requested. */
  lemma {:induction false} RequestedComplete(pmcId: string, figures: seq<Figure>)
    ensures forall j :: 0 <= j < |figures| && Eligible(figures[j]) ==>
      ImageUrl(pmcId, figures[j].href.value) in Requested(pmcId, figures)
  {
    if figures != [] {
      var init := figures[..|figures| - 1];
      RequestedComplete(pmcId, init);
      forall j | 0 <= j < |figures| - 1 && Eligible(figures[j])
        ensures ImageUrl(pmcId, figures[j].href.value) in Requested(pmcId, figures)
      {
        assert init[j] == figures[j];
      }
    }
  }

  /** Figures are requested in document order: those of `a + b` are those
      of `a`, then those of `b`. */
  lemma {:induction false} RequestedAppend(pmcId: string, a: seq<Figure>, b: seq<Figure>)
    ensures Requested(pmcId, a + b) == Requested(pmcId, a) + Requested(pmcId, b)
    decreases |b|
  {
    var ab := a + b;
    if b == [] {
      assert ab == a;
    } else {
      var b' := b[..|b| - 1];
      assert ab[..|ab| - 1] == a + b' && ab[|ab| - 1] == b[|b| - 1];
      RequestedAppend(pmcId, a, b');
      var f := b[|b| - 1];
      if Eligible(f) {
        AppendAssoc(Requested(pmcId, a), Requested(pmcId, b'), [ImageUrl(pmcId, f.href.value)]);
      }
    }
  }

  /** A requested URL whose download is saved is kept, whatever happened to
      the URLs before it. */
  lemma {:induction false} KeepComplete(urls: seq<string>, fetch: string -> Reply)
    ensures forall u :: u in urls && Saved(fetch(u)) ==> u in Keep(urls, fetch)
  {
    if urls != [] {
      var init := urls[..|urls| - 1];
      KeepComplete(init, fetch);
      forall u | u in urls && Saved(fetch(u)) ensures u in Keep(urls, fetch) {
        if u != urls[|urls| - 1] {
          var k :| 0 <= k < |urls| && urls[k] == u;
          assert init[k] == u;
        }
      }
    }
  }

  /** Downloads are handled one by one, in order: the saves of `a + b` are
      those of `a`, then those of `b`. */
  lemma {:induction false} KeepAppend(a: seq<string>, b: seq<string>, fetch: string -> Reply)
    ensures Keep(a + b, fetch) == Keep(a, fetch) + Keep(b, fetch)
    decreases |b|
  {
    var ab := a + b;
    if b == [] {
      assert ab == a;
    } else {
      var b' := b[..|b| - 1];
      assert ab[..|ab| - 1] == a + b' && ab[|ab| - 1] == b[|b| - 1];
      KeepAppend(a, b', fetch);
      var u := b[|b| - 1];
      if Saved(fetch(u)) {
        AppendAssoc(Keep(a, fetch), Keep(b', fetch), [u]);
      }
    }
  }

  /** Articles are independent: the saves for two lists of articles are the
      saves for each, one after the other, so a failing article does not
      stop the ones after it. */
  lemma {:induction false} SavedUrlsAppend(a: seq<string>, b: seq<string>, articles: string -> Article, fetch: string -> Reply)
    ensures SavedUrls(a + b, articles, fetch) == SavedUrls(a, articles, fetch) + SavedUrls(b, articles, fetch)
    decreases |b|
  {
    if b == [] {
      assert a + b == a;
    } else {
      var ab := a + b;
      var b' := b[..|b| - 1];
      var last := ArticleSaves(b[|b| - 1], articles, fetch);
      assert ab[..|ab| - 1] == a + b' && ab[|ab| - 1] == b[|b| - 1];
      SavedUrlsAppend(a, b', articles, fetch);
      var x, y, z := SavedUrls(a, articles, fetch), SavedUrls(b', articles, fetch), SavedUrls(b, articles, fetch);
      assert z == y + last;
      assert SavedUrls(ab, articles, fetch) == (x + y) + last;
      AppendAssoc(x, y, last);
    }
  }

  /** Nothing stops the run early: every eligible figure of a readable
      listed article whose download is saved ends up among the saves. */
  lemma {:induction false} SavedUrlsComplete(ids: seq<string>, articles: string -> Article, fetch: string -> Reply)
    ensures forall id, j ::
      (id in ids && articles(id).Readable? && 0 <= j < |articles(id).figures| &&
       Eligible(articles(id).figures[j]) && Saved(fetch(ImageUrl(id, articles(id).figures[j].href.value)))) ==>
        ImageUrl(id, articles(id).figures[j].href.value) in SavedUrls(ids, articles, fetch)
  {
    if ids != [] {
      var init := ids[..|ids| - 1];
      var last := ids[|ids| - 1];
      SavedUrlsComplete(init, articles, fetch);
      forall id, j | id in ids && articles(id).Readable? && 0 <= j < |articles(id).figures| &&
        Eligible(articles(id).figures[j]) && Saved(fetch(ImageUrl(id, articles(id).figures[j].href.value)))
        ensures ImageUrl(id, articles(id).figures[j].href.value) in SavedUrls(ids, articles, fetch)
      {
        if id == last {
          var figures := articles(id).figures;
          RequestedComplete(id, figures);
          KeepComplete(Requested(id, figures), fetch);
        } else {
          var k :| 0 <= k < |ids| && ids[k] == id;
          assert init[k] == id;
        }
      }
    }
  }

  /** Every saved URL is an article's `/bin/` link to a file with a known
      extension, and its download succeeded. */
  lemma {:induction false} SavedUrlsShape(ids: seq<string>, articles: string -> Article, fetch: string -> Reply)
    ensures forall u :: u in SavedUrls(ids, articles, fetch) ==>
      Saved(fetch(u)) &&
      exists id, href :: id in ids && u == ImageUrl(id, href) && KnownExtension(href)
  {
    if ids != [] {
      var init := ids[..|ids| - 1];
      var id := ids[|ids| - 1];
      SavedUrlsShape(init, articles, fetch);
      forall u | u in SavedUrls(ids, articles, fetch)
        ensures Saved(fetch(u)) && exists id, href :: id in ids && u == ImageUrl(id, href) && KnownExtension(href)
      {
        if u in SavedUrls(init, articles, fetch) {
          var i, h :| i in init && u == ImageUrl(i, h) && KnownExtension(h);
          assert i in ids;
        } else {
          var figures := articles(id).figures;
          assert u in Requested(id, figures);
        }
      }
    }
  }

  /** The extension test ignores ASCII case: lowering any tail of the href,
      extension included, does not change whether it is kept. */
  lemma ExtensionIgnoresCase(stem: string, ext: string)
    ensures KnownExtension(stem + ext) <==> KnownExtension(stem + Lower(ext))
    ensures KnownExtension(stem + ".PNG") && KnownExtension(stem + ".JpEg")
  {
    LowerAppend(stem, ext);
    LowerAppend(stem, Lower(ext));
    assert Lower(Lower(ext)) == Lower(ext);
    LowerAppend(stem, ".PNG");
    LowerAppend(stem, ".JpEg");
    assert Lower(".PNG") == ".png";
    assert Lower(".JpEg") == ".jpeg";
  }
}
