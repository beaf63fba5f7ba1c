/** scripts/enrich_gems_from_openrouter_serpapi.py: gather links for one
    configured domain and subdomain and store them under
    `data[domain][subdomain]["image_gems"]`, creating missing levels. */
module OpenRouterSerp {
  import opened Wrappers
  import opened Json
  import opened Gather
  import SerpApi

  const Domain: string := "Physics"
  const Subdomain: string := "Optics"
  const Gems: string := "image_gems"

  /** `update_json_file(domain, subdomain, image_gems)`. `file` is the parsed
      taxonomy, `None` when reading or parsing failed, which the script
      treats as `{}`. The `setdefault` chain raises when a level it meets is
      not an object. */
  function UpdateJsonFile(file: Option<Json>, domain: string, subdomain: string, gems: Json): (r: Outcome)
    ensures var data := if file.None? then Obj([]) else file.value;
      r != NotWritten &&
      (r.Written? <==> ObjectsAlong(data, [domain, subdomain])) &&
      (r.Written? ==>
         Lookup(r.doc, [domain, subdomain, Gems]) == Some(gems) &&
         forall p :: Apart(p, [domain, subdomain, Gems]) ==> Lookup(r.doc, p) == Lookup(data, p))
  {
    var data := if file.None? then Obj([]) else file.value;
    var path := [domain, subdomain];
    SetDefaultPathSucceeds(data, path, Gems, gems);
    match SetDefaultPath(data, path, Gems, gems)
    case None => Aborted
    case Some(doc) =>
      SetDefaultPathWrites(data, path, Gems, gems);
      assert path + [Gems] == [domain, subdomain, Gems];
      assert forall p :: Apart(p, [domain, subdomain, Gems]) ==> Lookup(doc, p) == Lookup(data, p) by {
        forall p | Apart(p, path + [Gems]) ensures Lookup(doc, p) == Lookup(data, p) {
          SetDefaultPathFrame(data, path, Gems, gems, p);
        }
      }
      Written(doc)
  }

  /** An unreadable file gives a document holding just the new list. */
  lemma UpdateUnreadable(domain: string, subdomain: string, gems: Json)
    ensures UpdateJsonFile(None, domain, subdomain, gems)
            == Written(Obj([Entry(domain, Obj([Entry(subdomain, Obj([Entry(Gems, gems)]))]))]))
  {
    var path := [domain, subdomain];
    assert path[1..] == [subdomain] && path[1..][1..] == [];
    var inner := Obj([Entry(subdomain, Obj([Entry(Gems, gems)]))]);
    assert SetDefaultPath(Obj([]), [subdomain], Gems, gems) == Some(inner);
  }

  /** An existing "image_gems" is overwritten unconditionally, and the other
      keys of the subdomain object are kept, in order. */
  lemma UpdateOverwrites(data: Json, domain: string, subdomain: string, es: seq<Entry>, gems: Json)
    requires data.Obj? && Lookup(data, [domain, subdomain]) == Some(Obj(es))
    ensures UpdateJsonFile(Some(data), domain, subdomain, gems).Written?
    ensures Lookup(UpdateJsonFile(Some(data), domain, subdomain, gems).doc, [domain, subdomain])
            == Some(Obj(Put(es, Gems, gems)))
  {
    var path := [domain, subdomain];
    assert path[1..] == [subdomain] && path[1..][1..] == [];
    var child := Get(data.entries, domain).value;
    assert Lookup(child, [subdomain]) == Some(Obj(es));
    var sub' := Obj(Put(es, Gems, gems));
    var child' := Obj(Put(child.entries, subdomain, sub'));
    assert SetDefaultPath(child, [subdomain], Gems, gems) == Some(child');
    var doc := Obj(Put(data.entries, domain, child'));
    assert SetDefaultPath(data, path, Gems, gems) == Some(doc);
    assert Lookup(child', [subdomain]) == Some(sub');
  }

  /** `main()`: nothing is written when no keywords came back or no search
      found a link; otherwise the concatenated links go to the configured
      subdomain. */
  method EnrichConfigured(keywords: seq<string>, search: string -> seq<Json>, file: Option<Json>) returns (r: Outcome)
    ensures r == NotWritten <==> keywords == [] || Concat(keywords, search) == []
    ensures r.Written? ==>
      Lookup(r.doc, [Domain, Subdomain, Gems]) == Some(Arr(Concat(keywords, search))) &&
      Concat(keywords, search) != []
    ensures r != NotWritten ==> r == UpdateJsonFile(file, Domain, Subdomain, Arr(Concat(keywords, search)))
  {
    if keywords == [] {
      return NotWritten;
    }
    var allImages := CollectImages(keywords, search);
    if allImages == [] {
      return NotWritten;
    }
    r := UpdateJsonFile(file, Domain, Subdomain, Arr(allImages));
  }

  /** `fetch_images_from_serpapi` of this script, with the HTTP exchange as `serp`. */
  function SerpSearch(serp: string -> Option<Json>): string -> seq<Json>
  {
    q => SerpApi.OriginalOrThumbnail(q, serp(q))
  }

  /** With the SerpAPI search, at most five links are stored per keyword. */
  lemma StoredLinks(keywords: seq<string>, serp: string -> Option<Json>)
    ensures var links := Concat(keywords, SerpSearch(serp));
      |links| <= SerpApi.MaxResults * |keywords|
  {
    forall q ensures |SerpSearch(serp)(q)| <= SerpApi.MaxResults {
      var r := SerpApi.OriginalOrThumbnail(q, serp(q));
    }
    ConcatBound(keywords, SerpSearch(serp), SerpApi.MaxResults);
  }
}
