/** The two ways the scripts turn a SerpAPI image-search response into link
    records. The HTTP request itself is an input: `None` when it raised or
    returned an error status (`raise_for_status`), else the parsed body. */
module SerpApi {
  import opened Wrappers
  import opened Json
  import opened Text

  /** Only the first five results are used (`[:5]`). */
  const MaxResults: nat := 5

  /** `response.json().get("images_results", [])`. Anything but a list ends
      in `[]` downstream (slicing or iterating it raises, or it is empty, and
      the handler returns `[]`), so only a list is kept. */
  function ImagesResults(response: Option<Json>): seq<Json>
  {
    match response
    case Some(Obj(es)) =>
      (match Get(es, "images_results")
       case Some(Arr(xs)) => xs
       case _ => [])
    case _ => []
  }

  function FirstFive(xs: seq<Json>): (r: seq<Json>)
    ensures |r| == (if |xs| <= MaxResults then |xs| else MaxResults) && r == xs[..|r|]
  {
    if |xs| <= MaxResults then xs else xs[..MaxResults]
  }

  predicate HasOriginal(img: Json)
  {
    img.Obj? && Get(img.entries, "original").Some?
  }

  function Original(img: Json): Json
    requires HasOriginal(img)
  {
    Get(img.entries, "original").value
  }

  /** `[{"url": img["original"], ...} for img in xs]`: `None` when indexing
      some element raises (not an object, or no "original" key). */
  function MapOriginals(query: string, xs: seq<Json>): (r: Option<seq<Json>>)
    ensures r.Some? <==> forall i :: 0 <= i < |xs| ==> HasOriginal(xs[i])
    ensures r.Some? ==>
      |r.value| == |xs| &&
      forall i :: 0 <= i < |xs| ==> HasOriginal(xs[i]) && r.value[i] == LinkRecord(Original(xs[i]), query)
  {
    if xs == [] then Some([])
    else if !HasOriginal(xs[0]) then None
    else
      match MapOriginals(query, xs[1..])
      case None => None
      case Some(rest) => Some([LinkRecord(Original(xs[0]), query)] + rest)
  }

  /** `fetch_images_from_serpapi` of enrich_arabic_links.py: all of the first
      five results become records in order, or, if any of them lacks
      "original", none do. */
  function FirstOriginals(query: string, response: Option<Json>): (r: seq<Json>)
    ensures |r| <= MaxResults
    ensures var xs := FirstFive(ImagesResults(response));
      r == [] <==> (xs == [] || exists i :: 0 <= i < |xs| && !HasOriginal(xs[i]))
    ensures var xs := FirstFive(ImagesResults(response));
      r != [] ==>
        |r| == |xs| &&
        forall i :: 0 <= i < |r| ==> HasOriginal(xs[i]) && r[i] == LinkRecord(Original(xs[i]), query)
  {
    match MapOriginals(query, FirstFive(ImagesResults(response)))
    case None => []
    case Some(rs) => rs
  }

  /** `img.get("original") or img.get("thumbnail")` */
  function PreferredUrl(img: Json): Json
    requires img.Obj?
  {
    var original := GetOr(img.entries, "original", Null);
    if Truthy(original) then original else GetOr(img.entries, "thumbnail", Null)
  }

  /** A link record whose url is truthy. */
  predicate IsLinkFor(rec: Json, query: string)
  {
    rec.Obj? && |rec.entries| == 2 && rec.entries[0].key == "url" && Truthy(rec.entries[0].val)
    && rec == LinkRecord(rec.entries[0].val, query)
  }

  /** The filtering comprehension
        [{"url": img.get("original") or img.get("thumbnail"), ...}
         for img in xs if img.get("original") or img.get("thumbnail")]
      `None` when some element is not an object (`.get` raises). */
  function PickUrls(query: string, xs: seq<Json>): Option<seq<Json>>
  {
    if xs == [] then Some([])
    else if !xs[0].Obj? then None
    else
      match PickUrls(query, xs[1..])
      case None => None
      case Some(rest) => Some(RecordFor(query, xs[0]) + rest)
  }

  /** What one object result contributes: a record for its preferred url, or nothing. */
  function RecordFor(query: string, img: Json): seq<Json>
    requires img.Obj?
  {
    var url := PreferredUrl(img);
    if Truthy(url) then [LinkRecord(url, query)] else []
  }

  /** The comprehension fails exactly on a non-object, and otherwise yields
      at most one record per result, each with a truthy url that is the
      preferred url of one of the results. */
  lemma {:induction false} PickUrlsRecords(query: string, xs: seq<Json>)
    ensures PickUrls(query, xs).Some? <==> forall i :: 0 <= i < |xs| ==> xs[i].Obj?
    ensures PickUrls(query, xs).Some? ==>
      var rs := PickUrls(query, xs).value;
      |rs| <= |xs| &&
      forall i :: 0 <= i < |rs| ==>
        IsLinkFor(rs[i], query) &&
        exists j :: 0 <= j < |xs| && xs[j].Obj? && rs[i] == LinkRecord(PreferredUrl(xs[j]), query)
  {
    if xs != [] {
      PickUrlsRecords(query, xs[1..]);
      if xs[0].Obj? {
        assert forall i :: 1 <= i < |xs| ==> xs[i] == xs[1..][i - 1];
      }
    }
    if PickUrls(query, xs).Some? {
      PickUrlsSources(query, xs);
    }
  }

  /** Each record carries the preferred url of some result. */
  lemma {:induction false} PickUrlsSources(query: string, xs: seq<Json>)
    requires PickUrls(query, xs).Some?
    ensures var rs := PickUrls(query, xs).value;
      forall i :: 0 <= i < |rs| ==>
        exists j :: 0 <= j < |xs| && xs[j].Obj? && rs[i] == LinkRecord(PreferredUrl(xs[j]), query)
  {
    if xs != [] {
      PickUrlsSources(query, xs[1..]);
      var h := RecordFor(query, xs[0]);
      var rest := PickUrls(query, xs[1..]).value;
      var rs := h + rest;
      forall i | 0 <= i < |rs|
        ensures exists j :: 0 <= j < |xs| && xs[j].Obj? && rs[i] == LinkRecord(PreferredUrl(xs[j]), query)
      {
        if i < |h| {
          assert rs[i] == LinkRecord(PreferredUrl(xs[0]), query);
        } else {
          assert rs[i] == rest[i - |h|];
          var j :| 0 <= j < |xs[1..]| && xs[1..][j].Obj? && rest[i - |h|] == LinkRecord(PreferredUrl(xs[1..][j]), query);
          assert xs[j + 1] == xs[1..][j];
        }
      }
    }
  }

  /** The comprehension keeps the order of the results: filtering a
      concatenation is concatenating the filtered parts. */
  lemma {:induction false} PickUrlsAppend(query: string, a: seq<Json>, b: seq<Json>)
    requires PickUrls(query, a).Some? && PickUrls(query, b).Some?
    ensures PickUrls(query, a + b) == Some(PickUrls(query, a).value + PickUrls(query, b).value)
  {
    var ab := a + b;
    if a == [] {
      assert ab == b;
      assert PickUrls(query, a) == Some([]);
      assert [] + PickUrls(query, b).value == PickUrls(query, b).value;
    } else {
      assert ab[0] == a[0] && ab[1..] == a[1..] + b;
      var tail := PickUrls(query, a[1..]);
      assert tail.Some?;
      PickUrlsAppend(query, a[1..], b);
      var h := RecordFor(query, a[0]);
      var rb := PickUrls(query, b).value;
      calc {
        PickUrls(query, ab);
        Some(h + PickUrls(query, a[1..] + b).value);
        Some(h + (tail.value + rb));
        { AppendAssoc(h, tail.value, rb); }
        Some((h + tail.value) + rb);
        Some(PickUrls(query, a).value + rb);
      }
    }
  }

  /** When every result has a truthy "original", each one yields a record
      with that url, in order: "original" wins over "thumbnail". */
  lemma {:induction false} PickUrlsPrefersOriginal(query: string, xs: seq<Json>)
    requires forall i :: 0 <= i < |xs| ==> xs[i].Obj? && Truthy(GetOr(xs[i].entries, "original", Null))
    ensures PickUrls(query, xs).Some?
    ensures |PickUrls(query, xs).value| == |xs|
    ensures forall i :: 0 <= i < |xs| ==>
      PickUrls(query, xs).value[i] == LinkRecord(GetOr(xs[i].entries, "original", Null), query)
  {
    if xs != [] {
      PickUrlsPrefersOriginal(query, xs[1..]);
    }
  }

  /** A result with neither a truthy "original" nor a truthy "thumbnail" adds nothing. */
  lemma PickUrlsDropsBare(query: string, img: Json, rest: seq<Json>)
    requires img.Obj? && !Truthy(GetOr(img.entries, "original", Null)) && !Truthy(GetOr(img.entries, "thumbnail", Null))
    ensures PickUrls(query, [img] + rest) == PickUrls(query, rest)
  {
    var all := [img] + rest;
    assert all[0] == img && all[1..] == rest;
    assert RecordFor(query, img) == [];
    match PickUrls(query, rest)
    case None =>
    case Some(rs) => assert [] + rs == rs;
  }

  /** A result whose "original" is falsy falls back to its truthy "thumbnail". */
  lemma PickUrlsFallsBack(query: string, img: Json, rest: seq<Json>)
    requires img.Obj? && !Truthy(GetOr(img.entries, "original", Null)) && Truthy(GetOr(img.entries, "thumbnail", Null))
    requires PickUrls(query, rest).Some?
    ensures PickUrls(query, [img] + rest) ==
      Some([LinkRecord(GetOr(img.entries, "thumbnail", Null), query)] + PickUrls(query, rest).value)
  {
    var all := [img] + rest;
    assert all[0] == img && all[1..] == rest;
  }

  /** `fetch_images_from_serpapi` of enrich_domain_image_gems.py and
      enrich_gems_from_openrouter_serpapi.py: at most five records, each with
      a truthy url; if any of the first five results is not an object, none. */
  function OriginalOrThumbnail(query: string, response: Option<Json>): (r: seq<Json>)
    ensures |r| <= MaxResults
    ensures var xs := FirstFive(ImagesResults(response));
      forall i :: 0 <= i < |r| ==>
        IsLinkFor(r[i], query) &&
        exists j :: 0 <= j < |xs| && xs[j].Obj? && r[i] == LinkRecord(PreferredUrl(xs[j]), query)
    ensures var xs := FirstFive(ImagesResults(response));
      (exists i :: 0 <= i < |xs| && !xs[i].Obj?) ==> r == []
    ensures var xs := FirstFive(ImagesResults(response));
      (forall i :: 0 <= i < |xs| ==> xs[i].Obj?) ==> PickUrls(query, xs) == Some(r)
  {
    PickUrlsRecords(query, FirstFive(ImagesResults(response)));
    match PickUrls(query, FirstFive(ImagesResults(response)))
    case None => []
    case Some(rs) => rs
  }
}
