/** scripts/auto_enrich_taxonomy.py: replace every empty-list subdomain of the
    taxonomy, in place, by the sources the language model suggests for it,
    then write the taxonomy back. */
module AutoEnrich {
  import opened Wrappers
  import opened Json

  /** One subdomain value: only an empty list is replaced, by exactly what
      `get_image_gems` returns (even an empty result). `gems` is `None` when
      the model call fails: the handler then formats the undefined names
      `domain` and `subdomain`, so the `NameError` ends the run. */
  function EnrichSubdomain(domain: string, subdomain: string, value: Json,
                           gems: (string, string) -> Option<Json>): Option<Json>
  {
    if value == Arr([]) then gems(domain, subdomain) else Some(value)
  }

  /** A domain value the inner `for subdomain in subdomains` can walk without
      raising before any lookup: an object, or an empty list or string. */
  predicate Walkable(subdomains: Json)
  {
    subdomains.Obj? || subdomains == Arr([]) || subdomains == Str("")
  }

  /** The inner loop over one domain; anything else than an object or an
      empty sequence raises on iteration or on indexing. */
  function EnrichDomain(domain: string, subdomains: Json, gems: (string, string) -> Option<Json>): Option<Json>
  {
    if subdomains.Obj? then
      match MapValues(subdomains.entries, (s, v) => EnrichSubdomain(domain, s, v, gems))
      case None => None
      case Some(es) => Some(Obj(es))
    else if Walkable(subdomains) then Some(subdomains)
    else None
  }

  /** `enrich_domains(data)`; `data.items()` raises unless `data` is an object. */
  function EnrichAll(data: Json, gems: (string, string) -> Option<Json>): Option<Json>
  {
    if !data.Obj? then None
    else
      match MapValues(data.entries, (d, subs) => EnrichDomain(d, subs, gems))
      case None => None
      case Some(es) => Some(Obj(es))
  }

  /** The outer loop of `enrich_domains`, assigning domain entries in place. */
  method EnrichDomains(data: Json, gems: (string, string) -> Option<Json>) returns (r: Option<Json>)
    ensures r == EnrichAll(data, gems)
  {
    if !data.Obj? {
      return None;
    }
    var doms := data.entries;
    for i := 0 to |doms|
      invariant |doms| == |data.entries|
      invariant forall k :: 0 <= k < i ==>
        EnrichDomain(data.entries[k].key, data.entries[k].val, gems).Some? &&
        doms[k] == Entry(data.entries[k].key, EnrichDomain(data.entries[k].key, data.entries[k].val, gems).value)
      invariant forall k :: i <= k < |doms| ==> doms[k] == data.entries[k]
    {
      var enriched := EnrichSubdomains(doms[i].key, doms[i].val, gems);
      if enriched.None? {
        return None;
      }
      doms := doms[i := Entry(doms[i].key, enriched.value)];
    }
    var g := (d, subs) => EnrichDomain(d, subs, gems);
    assert doms == MapValues(data.entries, g).value;
    return Some(Obj(doms));
  }

  /** The inner loop: `data[domain][subdomain] = sources` for each empty list. */
  method EnrichSubdomains(domain: string, subdomains: Json, gems: (string, string) -> Option<Json>)
    returns (r: Option<Json>)
    ensures r == EnrichDomain(domain, subdomains, gems)
  {
    if !subdomains.Obj? {
      return if Walkable(subdomains) then Some(subdomains) else None;
    }
    var subs := subdomains.entries;
    for j := 0 to |subs|
      invariant |subs| == |subdomains.entries|
      invariant forall k :: 0 <= k < j ==>
        EnrichSubdomain(domain, subdomains.entries[k].key, subdomains.entries[k].val, gems).Some? &&
        subs[k] == Entry(subdomains.entries[k].key,
                         EnrichSubdomain(domain, subdomains.entries[k].key, subdomains.entries[k].val, gems).value)
      invariant forall k :: j <= k < |subs| ==> subs[k] == subdomains.entries[k]
    {
      if subs[j].val == Arr([]) {
        var sources := gems(domain, subs[j].key);
        if sources.None? {
          return None;
        }
        subs := subs[j := Entry(subs[j].key, sources.value)];
      }
    }
    var f := (s, v) => EnrichSubdomain(domain, s, v, gems);
    assert subs == MapValues(subdomains.entries, f).value;
    return Some(Obj(subs));
  }

  /** After the walk: the same domains and subdomains in the same order;
      every subdomain that was not an empty list is unchanged, and every
      empty list now holds exactly what the model returned for it. */
  lemma EnrichAllShape(data: Json, gems: (string, string) -> Option<Json>)
    requires EnrichAll(data, gems).Some?
    ensures var out := EnrichAll(data, gems).value;
      data.Obj? && out.Obj? && Keys(out.entries) == Keys(data.entries) &&
      forall i :: 0 <= i < |data.entries| ==>
        var subs := data.entries[i].val;
        var subs' := out.entries[i].val;
        Walkable(subs) &&
        (!subs.Obj? ==> subs' == subs) &&
        (subs.Obj? ==>
          subs'.Obj? && Keys(subs'.entries) == Keys(subs.entries) &&
          forall j :: 0 <= j < |subs.entries| ==>
            if subs.entries[j].val == Arr([])
            then Some(subs'.entries[j].val) == gems(data.entries[i].key, subs.entries[j].key)
            else subs'.entries[j].val == subs.entries[j].val)
  {
    var g := (d, subs) => EnrichDomain(d, subs, gems);
    MapValuesKeys(data.entries, g);
    forall i | 0 <= i < |data.entries|
      ensures EnrichDomain(data.entries[i].key, data.entries[i].val, gems).Some?
    {
    }
    forall i | 0 <= i < |data.entries| {
      EnrichDomainShape(data.entries[i].key, data.entries[i].val, gems);
    }
  }

  /** One domain's part of `EnrichAllShape`. */
  lemma EnrichDomainShape(domain: string, subs: Json, gems: (string, string) -> Option<Json>)
    requires EnrichDomain(domain, subs, gems).Some?
    ensures var subs' := EnrichDomain(domain, subs, gems).value;
      Walkable(subs) &&
      (!subs.Obj? ==> subs' == subs) &&
      (subs.Obj? ==>
        subs'.Obj? && Keys(subs'.entries) == Keys(subs.entries) &&
        forall j :: 0 <= j < |subs.entries| ==>
          if subs.entries[j].val == Arr([])
          then Some(subs'.entries[j].val) == gems(domain, subs.entries[j].key)
          else subs'.entries[j].val == subs.entries[j].val)
  {
    if subs.Obj? {
      var f := (s, v) => EnrichSubdomain(domain, s, v, gems);
      MapValuesKeys(subs.entries, f);
    }
  }

  /** No subdomain value is an empty list. */
  predicate NoEmptyLists(data: Json)
  {
    data.Obj? &&
    forall i :: 0 <= i < |data.entries| ==>
      Walkable(data.entries[i].val) &&
      (data.entries[i].val.Obj? ==>
         forall j :: 0 <= j < |data.entries[i].val.entries| ==> data.entries[i].val.entries[j].val != Arr([]))
  }

  /** Without empty lists the walk is a no-op, whatever the model would say. */
  lemma NoEmptyListsUnchanged(data: Json, gems: (string, string) -> Option<Json>)
    requires NoEmptyLists(data)
    ensures EnrichAll(data, gems) == Some(data)
  {
    var g := (d, subs) => EnrichDomain(d, subs, gems);
    forall i | 0 <= i < |data.entries|
      ensures EnrichDomain(data.entries[i].key, data.entries[i].val, gems) == Some(data.entries[i].val)
    {
      var subs := data.entries[i].val;
      if subs.Obj? {
        var f := (s, v) => EnrichSubdomain(data.entries[i].key, s, v, gems);
        assert MapValues(subs.entries, f).value == subs.entries;
      }
    }
    assert MapValues(data.entries, g).value == data.entries;
  }

  /** A second run is a no-op once the first filled every empty list with
      something non-empty. */
  lemma SecondRunUnchanged(data: Json, gems: (string, string) -> Option<Json>, gems2: (string, string) -> Option<Json>)
    requires EnrichAll(data, gems).Some?
    requires forall d, s :: gems(d, s) != Some(Arr([]))
    ensures EnrichAll(EnrichAll(data, gems).value, gems2) == EnrichAll(data, gems)
  {
    EnrichAllShape(data, gems);
    var out := EnrichAll(data, gems).value;
    forall i | 0 <= i < |out.entries| && out.entries[i].val.Obj?
      ensures forall j :: 0 <= j < |out.entries[i].val.entries| ==> out.entries[i].val.entries[j].val != Arr([])
    {
      assert Keys(out.entries)[i] == Keys(data.entries)[i];
      var subs := data.entries[i].val;
      var subs' := out.entries[i].val;
      forall j | 0 <= j < |subs'.entries| ensures subs'.entries[j].val != Arr([]) {
        assert Keys(subs'.entries)[j] == Keys(subs.entries)[j];
      }
    }
    assert NoEmptyLists(out);
    NoEmptyListsUnchanged(out, gems2);
  }

  /** On a taxonomy of walkable domains, the run aborts exactly when the
      model call fails for some empty-list subdomain. */
  lemma AbortsIff(data: Json, gems: (string, string) -> Option<Json>)
    requires data.Obj? && forall i :: 0 <= i < |data.entries| ==> Walkable(data.entries[i].val)
    ensures EnrichAll(data, gems).None? <==>
      exists i, j :: 0 <= i < |data.entries| && data.entries[i].val.Obj? && 0 <= j < |data.entries[i].val.entries| &&
        data.entries[i].val.entries[j].val == Arr([]) && gems(data.entries[i].key, data.entries[i].val.entries[j].key).None?
  {
    var g := (d, subs) => EnrichDomain(d, subs, gems);
    if EnrichAll(data, gems).None? {
      var i :| 0 <= i < |data.entries| && g(data.entries[i].key, data.entries[i].val).None?;
      var subs := data.entries[i].val;
      var f := (s, v) => EnrichSubdomain(data.entries[i].key, s, v, gems);
      var j :| 0 <= j < |subs.entries| && f(subs.entries[j].key, subs.entries[j].val).None?;
      assert subs.entries[j].val == Arr([]) && gems(data.entries[i].key, subs.entries[j].key).None?;
    }
  }

  /** `__main__`: the load is not guarded, so an unreadable taxonomy ends
      the run too; the file is written once, after the whole walk. */
  function Run(file: Option<Json>, gems: (string, string) -> Option<Json>): (r: Outcome)
    ensures r != NotWritten
    ensures r.Written? <==> file.Some? && EnrichAll(file.value, gems).Some?
    ensures r.Written? ==> r.doc == EnrichAll(file.value, gems).value
  {
    match file
    case None => Aborted
    case Some(data) =>
      match EnrichAll(data, gems)
      case None => Aborted
      case Some(out) => Written(out)
  }

  /** A second run over the file the first run wrote, with any answers,
      writes the same document again, when the first run's answers were
      never empty lists. */
  lemma SecondRunWritesSame(data: Json, gems: (string, string) -> Option<Json>, gems2: (string, string) -> Option<Json>)
    requires Run(Some(data), gems).Written?
    requires forall d, s :: gems(d, s) != Some(Arr([]))
    ensures Run(Some(Run(Some(data), gems).doc), gems2) == Run(Some(data), gems)
  {
    SecondRunUnchanged(data, gems, gems2);
  }
}
