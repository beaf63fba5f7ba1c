/** scripts/enrich_domain_image_gems.py: fill the "image_gems" key of every
    subdomain of the taxonomy that does not yet have a non-empty one, in
    place, and write the taxonomy back. */
module DomainImageGems {
  import opened Wrappers
  import opened Json
  import opened Gather
  import SerpApi

  const Gems: string := "image_gems"

  /** The skip test: the content is an object with a truthy "image_gems". */
  predicate AlreadyEnriched(content: Json)
  {
    content.Obj? && Get(content.entries, Gems).Some? && Truthy(Get(content.entries, Gems).value)
  }

  /** One pass of the inner loop body for `data[domain][subdomain]`: the new
      content, or `None` when the item assignment raises because the content
      is not an object. */
  function EnrichSubdomain(domain: string, subdomain: string, content: Json,
                           keywords: (string, string) -> seq<string>, search: string -> seq<Json>): (r: Option<Json>)
    ensures r.None? <==>
      !AlreadyEnriched(content) && keywords(domain, subdomain) != [] &&
      Concat(keywords(domain, subdomain), search) != [] && !content.Obj?
    ensures (AlreadyEnriched(content) || keywords(domain, subdomain) == [] ||
             Concat(keywords(domain, subdomain), search) == []) ==> r == Some(content)
    ensures (content.Obj? && !AlreadyEnriched(content) && keywords(domain, subdomain) != [] &&
             Concat(keywords(domain, subdomain), search) != []) ==>
      r.Some? && r.value.Obj? &&
      Get(r.value.entries, Gems) == Some(Arr(Concat(keywords(domain, subdomain), search))) &&
      (forall k :: k != Gems ==> Get(r.value.entries, k) == Get(content.entries, k)) &&
      AlreadyEnriched(r.value)
  {
    if AlreadyEnriched(content) then Some(content)
    else
      var kws := keywords(domain, subdomain);
      if kws == [] then Some(content)
      else
        var images := Concat(kws, search);
        if images == [] then Some(content)
        else if content.Obj? then Some(Obj(Put(content.entries, Gems, Arr(images))))
        else None
  }

  /** The inner loop over the subdomains of `domain`; `.items()` raises on a
      value that is not an object. */
  function EnrichDomain(domain: string, subdomains: Json,
                        keywords: (string, string) -> seq<string>, search: string -> seq<Json>): Option<Json>
  {
    if !subdomains.Obj? then None
    else
      match MapValues(subdomains.entries, (s, c) => EnrichSubdomain(domain, s, c, keywords, search))
      case None => None
      case Some(es) => Some(Obj(es))
  }

  /** The two loops over the whole taxonomy. */
  function EnrichAll(data: Json, keywords: (string, string) -> seq<string>, search: string -> seq<Json>): Option<Json>
  {
    if !data.Obj? then None
    else
      match MapValues(data.entries, (d, subs) => EnrichDomain(d, subs, keywords, search))
      case None => None
      case Some(es) => Some(Obj(es))
  }

  /** The outer loop over the domains, updating the domain entries in place. */
  method EnrichDomainImageGems(data: Json, keywords: (string, string) -> seq<string>, search: string -> seq<Json>)
    returns (r: Option<Json>)
    ensures r == EnrichAll(data, keywords, search)
  {
    if !data.Obj? {
      return None;
    }
    var doms := data.entries;
    for i := 0 to |doms|
      invariant |doms| == |data.entries|
      invariant forall k :: 0 <= k < i ==>
        EnrichDomain(data.entries[k].key, data.entries[k].val, keywords, search).Some? &&
        doms[k] == Entry(data.entries[k].key, EnrichDomain(data.entries[k].key, data.entries[k].val, keywords, search).value)
      invariant forall k :: i <= k < |doms| ==> doms[k] == data.entries[k]
    {
      var enriched := EnrichSubdomains(doms[i].key, doms[i].val, keywords, search);
      if enriched.None? {
        return None;
      }
      doms := doms[i := Entry(doms[i].key, enriched.value)];
    }
    var g := (d, subs) => EnrichDomain(d, subs, keywords, search);
    assert doms == MapValues(data.entries, g).value;
    return Some(Obj(doms));
  }

  /** The inner loop over the subdomains of one domain, updating each
      subdomain's content in place. */
  method EnrichSubdomains(domain: string, subdomains: Json,
                          keywords: (string, string) -> seq<string>, search: string -> seq<Json>)
    returns (r: Option<Json>)
    ensures r == EnrichDomain(domain, subdomains, keywords, search)
  {
    if !subdomains.Obj? {
      return None;
    }
    var subs := subdomains.entries;
    for j := 0 to |subs|
      invariant |subs| == |subdomains.entries|
      invariant forall k :: 0 <= k < j ==>
        EnrichSubdomain(domain, subdomains.entries[k].key, subdomains.entries[k].val, keywords, search).Some? &&
        subs[k] == Entry(subdomains.entries[k].key,
                         EnrichSubdomain(domain, subdomains.entries[k].key, subdomains.entries[k].val, keywords, search).value)
      invariant forall k :: j <= k < |subs| ==> subs[k] == subdomains.entries[k]
    {
      var subdomain := subs[j].key;
      var content := subs[j].val;
      if AlreadyEnriched(content) {
        continue;
      }
      var kws := keywords(domain, subdomain);
      if kws == [] {
        continue;
      }
      var images := CollectImages(kws, search);
      if images == [] {
        continue;
      }
      if !content.Obj? {
        return None;
      }
      subs := subs[j := Entry(subdomain, Obj(Put(content.entries, Gems, Arr(images))))];
    }
    var f := (s, c) => EnrichSubdomain(domain, s, c, keywords, search);
    assert subs == MapValues(subdomains.entries, f).value;
    return Some(Obj(subs));
  }

  /** Every subdomain of every domain is already enriched. */
  predicate AllEnriched(data: Json)
  {
    data.Obj? &&
    forall i :: 0 <= i < |data.entries| ==>
      data.entries[i].val.Obj? &&
      forall j :: 0 <= j < |data.entries[i].val.entries| ==> AlreadyEnriched(data.entries[i].val.entries[j].val)
  }

  /** On a fully enriched taxonomy the walk changes nothing. */
  lemma AllEnrichedUnchanged(data: Json, keywords: (string, string) -> seq<string>, search: string -> seq<Json>)
    requires AllEnriched(data)
    ensures EnrichAll(data, keywords, search) == Some(data)
  {
    var g := (d, subs) => EnrichDomain(d, subs, keywords, search);
    forall i | 0 <= i < |data.entries|
      ensures EnrichDomain(data.entries[i].key, data.entries[i].val, keywords, search) == Some(data.entries[i].val)
    {
      var subs := data.entries[i].val;
      var f := (s, c) => EnrichSubdomain(data.entries[i].key, s, c, keywords, search);
      assert MapValues(subs.entries, f).value == subs.entries;
    }
    assert MapValues(data.entries, g).value == data.entries;
  }

  /** The walk keeps every domain and every subdomain key, in order, and
      every subdomain becomes what the step `EnrichSubdomain` makes of it. */
  lemma EnrichAllShape(data: Json, keywords: (string, string) -> seq<string>, search: string -> seq<Json>)
    requires EnrichAll(data, keywords, search).Some?
    ensures var out := EnrichAll(data, keywords, search).value;
      data.Obj? && out.Obj? && Keys(out.entries) == Keys(data.entries) &&
      forall i :: 0 <= i < |data.entries| ==>
        var subs := data.entries[i].val;
        var subs' := out.entries[i].val;
        subs.Obj? && subs'.Obj? && Keys(subs'.entries) == Keys(subs.entries) &&
        forall j :: 0 <= j < |subs.entries| ==>
          Some(subs'.entries[j].val) ==
            EnrichSubdomain(data.entries[i].key, subs.entries[j].key, subs.entries[j].val, keywords, search)
  {
    var g := (d, subs) => EnrichDomain(d, subs, keywords, search);
    MapValuesKeys(data.entries, g);
    forall i | 0 <= i < |data.entries|
      ensures EnrichDomain(data.entries[i].key, data.entries[i].val, keywords, search).Some?
    {
    }
    forall i | 0 <= i < |data.entries| {
      EnrichDomainShape(data.entries[i].key, data.entries[i].val, keywords, search);
    }
  }

  /** One domain's part of `EnrichAllShape`. */
  lemma EnrichDomainShape(domain: string, subs: Json, keywords: (string, string) -> seq<string>, search: string -> seq<Json>)
    requires EnrichDomain(domain, subs, keywords, search).Some?
    ensures var subs' := EnrichDomain(domain, subs, keywords, search).value;
      subs.Obj? && subs'.Obj? && Keys(subs'.entries) == Keys(subs.entries) &&
      forall j :: 0 <= j < |subs.entries| ==>
        Some(subs'.entries[j].val) == EnrichSubdomain(domain, subs.entries[j].key, subs.entries[j].val, keywords, search)
  {
    var f := (s, c) => EnrichSubdomain(domain, s, c, keywords, search);
    MapValuesKeys(subs.entries, f);
  }

  /** A subdomain is skipped when keyword suggestion returns nothing, or
      when no search returns a link. */
  lemma NothingFoundUnchanged(domain: string, subdomain: string, content: Json,
                              keywords: (string, string) -> seq<string>, search: string -> seq<Json>)
    requires forall i :: 0 <= i < |keywords(domain, subdomain)| ==> search(keywords(domain, subdomain)[i]) == []
    ensures EnrichSubdomain(domain, subdomain, content, keywords, search) == Some(content)
  {
    ConcatEmpty(keywords(domain, subdomain), search);
  }

  /** `main`: an unreadable taxonomy ends the run without writing; otherwise
      the walk either raises or the taxonomy is written back. */
  function Run(file: Option<Json>, keywords: (string, string) -> seq<string>, serp: string -> Option<Json>): (r: Outcome)
    ensures file.None? ==> r == NotWritten
    ensures r == Aborted <==> file.Some? && EnrichAll(file.value, keywords, SerpSearch(serp)).None?
    ensures file.Some? && EnrichAll(file.value, keywords, SerpSearch(serp)).Some? ==>
      r == Written(EnrichAll(file.value, keywords, SerpSearch(serp)).value)
  {
    match file
    case None => NotWritten
    case Some(data) =>
      match EnrichAll(data, keywords, SerpSearch(serp))
      case None => Aborted
      case Some(out) => Written(out)
  }

  /** A taxonomy whose subdomains are all enriched already is written back
      as it was read. */
  lemma RunAllEnriched(data: Json, keywords: (string, string) -> seq<string>, serp: string -> Option<Json>)
    requires AllEnriched(data)
    ensures Run(Some(data), keywords, serp) == Written(data)
  {
    AllEnrichedUnchanged(data, keywords, SerpSearch(serp));
  }

  /** `fetch_images_from_serpapi` of this script, with the HTTP exchange as `serp`. */
  function SerpSearch(serp: string -> Option<Json>): string -> seq<Json>
  {
    q => SerpApi.OriginalOrThumbnail(q, serp(q))
  }
}
