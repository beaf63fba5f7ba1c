/** scripts/enrich_physics_optics_arabic.py: store the links the language
    model returns for one configured domain and subdomain as a per-language
    object `data[DOMAIN][SUBDOMAIN][LANGUAGE] = {"image_gems": links}`. */
module PhysicsOptics {
  import opened Wrappers
  import opened Json

  const Domain: string := "Physics"
  const Subdomain: string := "Optics"
  const Language: string := "Arabic"
  const Gems: string := "image_gems"

  /** What goes under the language key. */
  function LanguageEntry(links: seq<Json>): Json
  {
    Obj([Entry(Gems, Arr(links))])
  }

  /** The file outcome of a descent: written when it succeeded. */
  function Placed(o: Option<Json>): (r: Outcome)
    ensures r.Written? <==> o.Some?
    ensures r.Written? ==> r.doc == o.value
  {
    match o
    case None => Aborted
    case Some(doc) => Written(doc)
  }

  /** `update_json_file()`. `file` is the parsed taxonomy (`None`: the
      unguarded load raised); `links` is what `get_image_gems` returned,
      `[]` on any failure. Missing levels are created as `{}`; a level that
      exists but is not an object makes the membership test or the item
      assignment raise. */
  method UpdateJsonFile(file: Option<Json>, links: seq<Json>) returns (r: Outcome)
    ensures file.None? ==> r == Aborted
    ensures file.Some? && links == [] ==> r == NotWritten
    ensures file.Some? && links != [] ==>
      r == Placed(SetDefaultPath(file.value, [Domain, Subdomain], Language, LanguageEntry(links)))
  {
    if file.None? {
      return Aborted;
    }
    var data := file.value;
    if links == [] {
      return NotWritten;
    }
    var v := LanguageEntry(links);
    if !data.Obj? {
      return Aborted;
    }
    var es := data.entries;
    if Domain !in Keys(es) {
      es := Put(es, Domain, Obj([]));
    }
    var dom := Get(es, Domain).value;
    assert dom == GetOr(data.entries, Domain, Obj([]));
    assert [Domain, Subdomain][0] == Domain && [Domain, Subdomain][1..] == [Subdomain];
    assert [Subdomain][0] == Subdomain && [Subdomain][1..] == [];
    if !dom.Obj? {
      assert SetDefaultPath(dom, [Subdomain], Language, v) == None;
      return Aborted;
    }
    var subs := dom.entries;
    if Subdomain !in Keys(subs) {
      subs := Put(subs, Subdomain, Obj([]));
    }
    var sub := Get(subs, Subdomain).value;
    assert sub == GetOr(dom.entries, Subdomain, Obj([]));
    if !sub.Obj? {
      assert SetDefaultPath(dom, [Subdomain], Language, v) == None;
      return Aborted;
    }
    var langs := Put(sub.entries, Language, v);
    var subs' := Put(subs, Subdomain, Obj(langs));
    PutPut(dom.entries, Subdomain, Obj([]), Obj(langs));
    assert subs' == Put(dom.entries, Subdomain, Obj(langs));
    assert SetDefaultPath(dom, [Subdomain], Language, v) == Some(Obj(subs'));
    var es' := Put(es, Domain, Obj(subs'));
    PutPut(data.entries, Domain, Obj([]), Obj(subs'));
    assert es' == Put(data.entries, Domain, Obj(subs'));
    return Written(Obj(es'));
  }

  /** The update happens exactly when every existing level along
      `[DOMAIN, SUBDOMAIN]` is an object. */
  lemma UpdateSucceeds(data: Json, links: seq<Json>)
    ensures Placed(SetDefaultPath(data, [Domain, Subdomain], Language, LanguageEntry(links))).Written?
            <==> ObjectsAlong(data, [Domain, Subdomain])
  {
    SetDefaultPathSucceeds(data, [Domain, Subdomain], Language, LanguageEntry(links));
  }

  /** After a successful update the language key holds exactly the new
      object: any previous value there is replaced, not merged. Every path
      that leaves the `[DOMAIN, SUBDOMAIN, LANGUAGE]` path (other
      languages, subdomains, domains) reads as before. */
  lemma UpdateResult(data: Json, links: seq<Json>)
    requires SetDefaultPath(data, [Domain, Subdomain], Language, LanguageEntry(links)).Some?
    ensures var doc := SetDefaultPath(data, [Domain, Subdomain], Language, LanguageEntry(links)).value;
      Lookup(doc, [Domain, Subdomain, Language]) == Some(LanguageEntry(links)) &&
      Lookup(doc, [Domain, Subdomain, Language, Gems]) == Some(Arr(links)) &&
      forall p :: Apart(p, [Domain, Subdomain, Language]) ==> Lookup(doc, p) == Lookup(data, p)
  {
    var path := [Domain, Subdomain];
    var doc := SetDefaultPath(data, path, Language, LanguageEntry(links)).value;
    SetDefaultPathWrites(data, path, Language, LanguageEntry(links));
    assert path + [Language] == [Domain, Subdomain, Language];
    LookupAppend(doc, [Domain, Subdomain, Language], [Gems]);
    assert [Domain, Subdomain, Language] + [Gems] == [Domain, Subdomain, Language, Gems];
    assert [Gems][1..] == [];
    forall p | Apart(p, [Domain, Subdomain, Language]) ensures Lookup(doc, p) == Lookup(data, p) {
      SetDefaultPathFrame(data, path, Language, LanguageEntry(links), p);
    }
  }

  /** On a taxonomy without the domain, the update adds it last, holding
      only the new subdomain with only the new language. */
  lemma UpdateCreates(es: seq<Entry>, links: seq<Json>)
    requires Domain !in Keys(es)
    ensures SetDefaultPath(Obj(es), [Domain, Subdomain], Language, LanguageEntry(links))
            == Some(Obj(es + [Entry(Domain, Obj([Entry(Subdomain, Obj([Entry(Language, LanguageEntry(links))]))]))]))
  {
    assert [Domain, Subdomain][1..] == [Subdomain] && [Subdomain][1..] == [];
    var inner := Obj([Entry(Subdomain, Obj([Entry(Language, LanguageEntry(links))]))]);
    assert SetDefaultPath(Obj([]), [Subdomain], Language, LanguageEntry(links)) == Some(inner);
    PutAbsent(es, Domain, inner);
  }
}
