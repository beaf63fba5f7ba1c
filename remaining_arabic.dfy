/** scripts/enrich_remaining_arabic_links.py: walk the taxonomy and, for every
    falsy value, store the Google-scraped links under the " > "-joined path
    in a flat output object. */
module RemainingArabic {
  import opened Wrappers
  import opened Json
  import opened Text
  import opened Gather

  const Sep: string := " > "

  /** The default `limit` of `google_image_scrape`. */
  const ScrapeLimit: int := 5

  /** An `img` `src` worth keeping: present, non-empty and containing "http". */
  predicate IsCandidate(src: Option<string>)
  {
    src.Some? && src.value != "" && Contains(src.value, "http")
  }

  /** The candidate sources of a page, in document order. */
  function Candidates(srcs: seq<Option<string>>): (r: seq<string>)
    ensures |r| <= |srcs|
    ensures forall i :: 0 <= i < |r| ==> r[i] != "" && Contains(r[i], "http") && Some(r[i]) in srcs
  {
    if srcs == [] then []
    else
      var init := Candidates(srcs[..|srcs| - 1]);
      var last := srcs[|srcs| - 1];
      assert forall s :: s in srcs[..|srcs| - 1] ==> s in srcs;
      if IsCandidate(last) then init + [last.value] else init
  }

  /** Filtering keeps the document order: a page split in two filters to the
      two filtered halves, one after the other. */
  lemma {:induction false} CandidatesAppend(a: seq<Option<string>>, b: seq<Option<string>>)
    ensures Candidates(a + b) == Candidates(a) + Candidates(b)
    decreases |b|
  {
    if b != [] {
      var ab := a + b;
      assert ab[..|ab| - 1] == a + b[..|b| - 1];
      assert ab[|ab| - 1] == b[|b| - 1];
      CandidatesAppend(a, b[..|b| - 1]);
    } else {
      assert a + b == a;
    }
  }

  function Take(xs: seq<string>, n: int): (r: seq<string>)
    ensures |r| == (if n < 0 then 0 else if |xs| <= n then |xs| else n) && r == xs[..|r|]
  {
    if n < 0 then [] else if |xs| <= n then xs else xs[..n]
  }

  /** The urls `google_image_scrape` keeps: with `limit >= 1`, the first
      `limit` candidates; with `limit <= 0` the loop still looks at the first
      `img` before its `len(urls) >= limit` test breaks, so at most that one. */
  function ScrapedUrls(srcs: seq<Option<string>>, limit: int): seq<string>
  {
    if limit <= 0 then Candidates(srcs[..if srcs == [] then 0 else 1])
    else Take(Candidates(srcs), limit)
  }

  function LinkRecords(urls: seq<string>, query: string): (r: seq<Json>)
    ensures |r| == |urls| && forall i :: 0 <= i < |r| ==> r[i] == LinkRecord(Str(urls[i]), query)
  {
    seq(|urls|, i requires 0 <= i < |urls| => LinkRecord(Str(urls[i]), query))
  }

  /** `google_image_scrape(query, limit)`, with the fetched page as the `src`
      of each `img` in document order, or `None` when the request or the
      parse raised (the handler returns `[]`). */
  function Scrape(query: string, page: Option<seq<Option<string>>>, limit: int): seq<Json>
  {
    match page
    case None => []
    case Some(srcs) => LinkRecords(ScrapedUrls(srcs, limit), query)
  }

  /** The scrape loop, with its early `break`. */
  method GoogleImageScrape(query: string, page: Option<seq<Option<string>>>, limit: int) returns (r: seq<Json>)
    ensures r == Scrape(query, page, limit)
  {
    if page.None? {
      return [];
    }
    var srcs := page.value;
    var urls: seq<string> := [];
    var i := 0;
    while i < |srcs|
      invariant 0 <= i <= |srcs|
      invariant urls == Candidates(srcs[..i])
      invariant i > 0 ==> |urls| < limit
    {
      var src := srcs[i];
      assert srcs[..i + 1][..i] == srcs[..i] && srcs[..i + 1][i] == src;
      if IsCandidate(src) {
        urls := urls + [src.value];
      }
      if |urls| >= limit {
        if limit <= 0 {
          assert i == 0;
        } else {
          CandidatesAppend(srcs[..i + 1], srcs[i + 1..]);
          assert srcs[..i + 1] + srcs[i + 1..] == srcs;
        }
        return LinkRecords(urls, query);
      }
      i := i + 1;
    }
    assert srcs[..i] == srcs;
    if limit <= 0 {
      assert srcs == [];
    }
    return LinkRecords(urls, query);
  }

  /** For `limit >= 1`: one record for each of the page's first
      min(`limit`, number of candidates) candidates, in document order, each
      for a url containing "http" taken from the page. */
  lemma ScrapeShape(query: string, srcs: seq<Option<string>>, limit: int)
    requires limit >= 1
    ensures var r := Scrape(query, Some(srcs), limit);
      var cs := Candidates(srcs);
      |r| == (if |cs| <= limit then |cs| else limit) &&
      (forall i :: 0 <= i < |r| ==> r[i] == LinkRecord(Str(cs[i]), query)) &&
      (forall i :: 0 <= i < |r| ==>
         exists u :: r[i] == LinkRecord(Str(u), query) && Contains(u, "http") && Some(u) in srcs) &&
      ScrapedUrls(srcs, limit) == Candidates(srcs)[..|r|]
  {
    var cs := Candidates(srcs);
    var urls := ScrapedUrls(srcs, limit);
    assert urls == Take(cs, limit);
    var r := Scrape(query, Some(srcs), limit);
    assert r == LinkRecords(urls, query);
    forall i | 0 <= i < |r| ensures r[i] == LinkRecord(Str(cs[i]), query) {
      assert urls[i] == cs[i];
    }
    forall i | 0 <= i < |r|
      ensures exists u :: r[i] == LinkRecord(Str(u), query) && Contains(u, "http") && Some(u) in srcs
    {
      assert r[i] == LinkRecord(Str(cs[i]), query);
    }
  }

  /** `current_path[-2] if len(current_path) > 1 else ""` */
  function Parent(cp: seq<string>): string
  {
    if |cp| > 1 then cp[|cp| - 2] else ""
  }

  /** The links gathered for the leaf at `cp`: keywords for (parent key, key),
      one scrape per keyword, concatenated in keyword order. */
  function LeafImages(cp: seq<string>, keywords: (string, string) -> seq<string>, search: string -> seq<Json>): seq<Json>
    requires |cp| > 0
  {
    Concat(keywords(Parent(cp), cp[|cp| - 1]), search)
  }

  /** `output[" > ".join(cp)] = all_images`, only when some link was found. */
  function WriteLeaf(out: seq<Entry>, cp: seq<string>, keywords: (string, string) -> seq<string>, search: string -> seq<Json>): seq<Entry>
    requires |cp| > 0
  {
    var images := LeafImages(cp, keywords, search);
    if images == [] then out else Put(out, Join(cp, Sep), Arr(images))
  }

  /** `recursive_enrich(node, path, output)` over the entries of `node`, with
      `out` the output so far; `None` when a truthy value that is not an
      object is recursed into and `.items()` raises. */
  function EnrichEntries(fs: seq<Entry>, path: seq<string>, out: seq<Entry>,
                         keywords: (string, string) -> seq<string>, search: string -> seq<Json>): Option<seq<Entry>>
    decreases fs
  {
    if fs == [] then Some(out)
    else
      var e := fs[0];
      var cp := path + [e.key];
      var step :=
        if !Truthy(e.val) then Some(WriteLeaf(out, cp, keywords, search))
        else if e.val.Obj? then EnrichEntries(e.val.entries, cp, out, keywords, search)
        else None;
      match step
      case None => None
      case Some(o) => EnrichEntries(fs[1..], path, o, keywords, search)
  }

  /** The walk as the script runs it: a loop over the items, the keyword loop
      at a leaf, a recursive call otherwise. */
  method RecursiveEnrich(node: Json, path: seq<string>, output: seq<Entry>,
                         keywords: (string, string) -> seq<string>, search: string -> seq<Json>)
    returns (r: Option<seq<Entry>>)
    ensures r == if node.Obj? then EnrichEntries(node.entries, path, output, keywords, search) else None
    decreases node
  {
    if !node.Obj? {
      return None;
    }
    var fs := node.entries;
    var out := output;
    var i := 0;
    while i < |fs|
      invariant 0 <= i <= |fs|
      invariant EnrichEntries(fs, path, output, keywords, search) == EnrichEntries(fs[i..], path, out, keywords, search)
    {
      var e := fs[i];
      assert fs[i..][0] == e && fs[i..][1..] == fs[i + 1..];
      var cp := path + [e.key];
      if !Truthy(e.val) {
        var images := CollectImages(keywords(Parent(cp), e.key), search);
        if images != [] {
          out := Put(out, Join(cp, Sep), Arr(images));
        }
      } else {
        var sub := RecursiveEnrich(e.val, cp, out, keywords, search);
        if sub.None? {
          return None;
        }
        out := sub.value;
      }
      i := i + 1;
    }
    return Some(out);
  }

  /** `rest` leads from `fs` through objects to a falsy value: a leaf. */
  predicate IsFalsyLeaf(fs: seq<Entry>, rest: seq<string>)
  {
    |rest| > 0 && Lookup(Obj(fs), rest).Some? && !Truthy(Lookup(Obj(fs), rest).value)
  }

  /** No leaf that found links has `k` as its output key. */
  ghost predicate Avoids(fs: seq<Entry>, path: seq<string>, keywords: (string, string) -> seq<string>,
                         search: string -> seq<Json>, k: string)
  {
    forall rest :: IsFalsyLeaf(fs, rest) && LeafImages(path + rest, keywords, search) != [] ==> Join(path + rest, Sep) != k
  }

  /** Looking up a path that starts at the first entry, or avoids it. */
  lemma LookupHead(fs: seq<Entry>, rest: seq<string>)
    requires DistinctKeys(fs) && fs != []
    ensures Lookup(Obj(fs), [fs[0].key] + rest) == Lookup(fs[0].val, rest)
    ensures |rest| > 0 && rest[0] != fs[0].key ==> Lookup(Obj(fs[1..]), rest) == Lookup(Obj(fs), rest)
  {
    GetAt(fs, 0);
    var p := [fs[0].key] + rest;
    assert p[0] == fs[0].key && p[1..] == rest;
  }

  /** A leaf of the first entry's object, seen from `fs`. */
  lemma LeafOfHead(fs: seq<Entry>, rest: seq<string>)
    requires DistinctKeys(fs) && fs != [] && fs[0].val.Obj? && IsFalsyLeaf(fs[0].val.entries, rest)
    ensures IsFalsyLeaf(fs, [fs[0].key] + rest)
  {
    LookupHead(fs, rest);
  }

  /** A leaf of `fs[1..]` is a leaf of `fs` starting with another key. */
  lemma LeafOfTail(fs: seq<Entry>, rest: seq<string>)
    requires DistinctKeys(fs) && fs != [] && IsFalsyLeaf(fs[1..], rest)
    ensures IsFalsyLeaf(fs, rest) && rest[0] != fs[0].key
  {
    assert Get(fs[1..], rest[0]).Some?;
    assert forall i :: 0 <= i < |fs[1..]| ==> Keys(fs[1..])[i] != fs[0].key;
    LookupHead(fs, rest);
  }

  /** A truthy value that is not an object anywhere in the tree makes the
      walk raise, whatever comes before it. */
  lemma {:induction false} TruthyNonMappingAborts(fs: seq<Entry>, path: seq<string>, out: seq<Entry>,
                                                  keywords: (string, string) -> seq<string>, search: string -> seq<Json>,
                                                  rest: seq<string>)
    requires WellFormed(Obj(fs)) && |rest| > 0 && Lookup(Obj(fs), rest).Some?
    requires Truthy(Lookup(Obj(fs), rest).value) && !Lookup(Obj(fs), rest).value.Obj?
    ensures EnrichEntries(fs, path, out, keywords, search) == None
    decreases fs
  {
    var e := fs[0];
    WellFormedTail(fs);
    var cp := path + [e.key];
    var step :=
      if !Truthy(e.val) then Some(WriteLeaf(out, cp, keywords, search))
      else if e.val.Obj? then EnrichEntries(e.val.entries, cp, out, keywords, search)
      else None;
    if rest[0] == e.key {
      LookupHead(fs, rest[1..]);
      assert [e.key] + rest[1..] == rest;
      if |rest| > 1 {
        TruthyNonMappingAborts(e.val.entries, cp, out, keywords, search, rest[1..]);
      }
    } else if step.Some? {
      LookupHead(fs, rest);
      TruthyNonMappingAborts(fs[1..], path, step.value, keywords, search, rest);
    }
  }

  /** Every truthy value anywhere in the tree is an object: the only values
      the walk recurses into are ones `.items()` accepts. */
  ghost predicate TruthyAreObjects(fs: seq<Entry>)
  {
    forall rest :: |rest| > 0 && Lookup(Obj(fs), rest).Some? && Truthy(Lookup(Obj(fs), rest).value) ==>
      Lookup(Obj(fs), rest).value.Obj?
  }

  /** The converse of `TruthyNonMappingAborts`: when every truthy value is an
      object, nothing raises and the walk completes. */
  lemma {:induction false} EnrichSucceeds(fs: seq<Entry>, path: seq<string>, out: seq<Entry>,
                                          keywords: (string, string) -> seq<string>, search: string -> seq<Json>)
    requires WellFormed(Obj(fs)) && TruthyAreObjects(fs)
    ensures EnrichEntries(fs, path, out, keywords, search).Some?
    decreases fs
  {
    if fs != [] {
      var e := fs[0];
      WellFormedTail(fs);
      var cp := path + [e.key];
      LookupHead(fs, []);
      assert [e.key] + [] == [e.key];
      if Truthy(e.val) {
        assert Lookup(Obj(fs), [e.key]) == Some(e.val);
        HeadTruthyAreObjects(fs);
        EnrichSucceeds(e.val.entries, cp, out, keywords, search);
      }
      var step :=
        if !Truthy(e.val) then Some(WriteLeaf(out, cp, keywords, search))
        else if e.val.Obj? then EnrichEntries(e.val.entries, cp, out, keywords, search)
        else None;
      TailTruthyAreObjects(fs);
      EnrichSucceeds(fs[1..], path, step.value, keywords, search);
    }
  }

  /** The first entry's object inherits `TruthyAreObjects`. */
  lemma HeadTruthyAreObjects(fs: seq<Entry>)
    requires WellFormed(Obj(fs)) && fs != [] && fs[0].val.Obj? && TruthyAreObjects(fs)
    ensures TruthyAreObjects(fs[0].val.entries)
  {
    forall rest | |rest| > 0 && Lookup(Obj(fs[0].val.entries), rest).Some? && Truthy(Lookup(Obj(fs[0].val.entries), rest).value)
      ensures Lookup(Obj(fs[0].val.entries), rest).value.Obj?
    {
      LookupHead(fs, rest);
      assert |[fs[0].key] + rest| > 0;
    }
  }

  /** The later entries inherit `TruthyAreObjects`. */
  lemma TailTruthyAreObjects(fs: seq<Entry>)
    requires WellFormed(Obj(fs)) && fs != [] && TruthyAreObjects(fs)
    ensures TruthyAreObjects(fs[1..])
  {
    WellFormedTail(fs);
    forall rest | |rest| > 0 && Lookup(Obj(fs[1..]), rest).Some? && Truthy(Lookup(Obj(fs[1..]), rest).value)
      ensures Lookup(Obj(fs[1..]), rest).value.Obj?
    {
      if rest[0] == fs[0].key {
        assert Get(fs[1..], rest[0]).None?;
      } else {
        LookupHead(fs, rest);
      }
    }
  }

  /** The output keys only grow, in order: what was there stays first. */
  lemma {:induction false} EnrichGrows(fs: seq<Entry>, path: seq<string>, out: seq<Entry>,
                                       keywords: (string, string) -> seq<string>, search: string -> seq<Json>)
    requires EnrichEntries(fs, path, out, keywords, search).Some?
    ensures Keys(out) <= Keys(EnrichEntries(fs, path, out, keywords, search).value)
    decreases fs
  {
    if fs != [] {
      var e := fs[0];
      var cp := path + [e.key];
      var step :=
        if !Truthy(e.val) then Some(WriteLeaf(out, cp, keywords, search))
        else if e.val.Obj? then EnrichEntries(e.val.entries, cp, out, keywords, search)
        else None;
      if !Truthy(e.val) {
        var images := LeafImages(cp, keywords, search);
        if images != [] {
          PutKeys(out, Join(cp, Sep), Arr(images));
        }
      } else {
        EnrichGrows(e.val.entries, cp, out, keywords, search);
      }
      EnrichGrows(fs[1..], path, step.value, keywords, search);
    }
  }

  /** Only leaf keys are written: a key that no leaf with links produces
      reads the same after the walk, and a leaf without links adds nothing. */
  lemma {:induction false} EnrichFrame(fs: seq<Entry>, path: seq<string>, out: seq<Entry>,
                                       keywords: (string, string) -> seq<string>, search: string -> seq<Json>, k: string)
    requires WellFormed(Obj(fs))
    requires EnrichEntries(fs, path, out, keywords, search).Some?
    requires Avoids(fs, path, keywords, search, k)
    ensures Get(EnrichEntries(fs, path, out, keywords, search).value, k) == Get(out, k)
    decreases fs
  {
    if fs != [] {
      var e := fs[0];
      WellFormedTail(fs);
      var cp := path + [e.key];
      var step :=
        if !Truthy(e.val) then Some(WriteLeaf(out, cp, keywords, search))
        else if e.val.Obj? then EnrichEntries(e.val.entries, cp, out, keywords, search)
        else None;
      if !Truthy(e.val) {
        LookupHead(fs, []);
        assert [e.key] + [] == [e.key] && path + [e.key] == cp;
        if LeafImages(cp, keywords, search) != [] {
          assert Join(cp, Sep) != k by {
            assert IsFalsyLeaf(fs, [e.key]);
          }
        }
      } else {
        forall rest | IsFalsyLeaf(e.val.entries, rest) && LeafImages(cp + rest, keywords, search) != []
          ensures Join(cp + rest, Sep) != k
        {
          LeafOfHead(fs, rest);
          AppendAssoc(path, [e.key], rest);
        }
        EnrichFrame(e.val.entries, cp, out, keywords, search, k);
      }
      forall rest | IsFalsyLeaf(fs[1..], rest) && LeafImages(path + rest, keywords, search) != []
        ensures Join(path + rest, Sep) != k
      {
        LeafOfTail(fs, rest);
      }
      EnrichFrame(fs[1..], path, step.value, keywords, search, k);
    }
  }

  /** A leaf that found links ends up under its joined path with exactly
      those links, provided no other leaf that found links joins to the same
      key (keys that themselves contain " > " can collide, and then the
      later of two such leaves wins). */
  lemma {:induction false} EnrichWrites(fs: seq<Entry>, path: seq<string>, out: seq<Entry>,
                                        keywords: (string, string) -> seq<string>, search: string -> seq<Json>, rest: seq<string>)
    requires WellFormed(Obj(fs))
    requires EnrichEntries(fs, path, out, keywords, search).Some?
    requires IsFalsyLeaf(fs, rest) && LeafImages(path + rest, keywords, search) != []
    requires forall other :: IsFalsyLeaf(fs, other) && other != rest && LeafImages(path + other, keywords, search) != [] ==>
      Join(path + other, Sep) != Join(path + rest, Sep)
    ensures Get(EnrichEntries(fs, path, out, keywords, search).value, Join(path + rest, Sep))
            == Some(Arr(LeafImages(path + rest, keywords, search)))
    decreases fs, 1
  {
    var e := fs[0];
    if rest[0] == e.key {
      EnrichWritesHead(fs, path, out, keywords, search, rest);
    } else {
      WellFormedTail(fs);
      var cp := path + [e.key];
      var step :=
        if !Truthy(e.val) then Some(WriteLeaf(out, cp, keywords, search))
        else if e.val.Obj? then EnrichEntries(e.val.entries, cp, out, keywords, search)
        else None;
      LookupHead(fs, rest);
      forall other | IsFalsyLeaf(fs[1..], other) && other != rest && LeafImages(path + other, keywords, search) != []
        ensures Join(path + other, Sep) != Join(path + rest, Sep)
      {
        LeafOfTail(fs, other);
      }
      EnrichWrites(fs[1..], path, step.value, keywords, search, rest);
    }
  }

  /** The case of `EnrichWrites` where the leaf lies under the first entry:
      that entry's step writes it, and no later leaf writes its key again. */
  lemma {:induction false} EnrichWritesHead(fs: seq<Entry>, path: seq<string>, out: seq<Entry>,
                                            keywords: (string, string) -> seq<string>, search: string -> seq<Json>, rest: seq<string>)
    requires WellFormed(Obj(fs))
    requires EnrichEntries(fs, path, out, keywords, search).Some?
    requires IsFalsyLeaf(fs, rest) && LeafImages(path + rest, keywords, search) != [] && rest[0] == fs[0].key
    requires forall other :: IsFalsyLeaf(fs, other) && other != rest && LeafImages(path + other, keywords, search) != [] ==>
      Join(path + other, Sep) != Join(path + rest, Sep)
    ensures Get(EnrichEntries(fs, path, out, keywords, search).value, Join(path + rest, Sep))
            == Some(Arr(LeafImages(path + rest, keywords, search)))
    decreases fs, 0
  {
    var e := fs[0];
    WellFormedTail(fs);
    var k := Join(path + rest, Sep);
    var cp := path + [e.key];
    var step :=
      if !Truthy(e.val) then Some(WriteLeaf(out, cp, keywords, search))
      else if e.val.Obj? then EnrichEntries(e.val.entries, cp, out, keywords, search)
      else None;
    LookupHead(fs, rest[1..]);
    HeadTail(rest);
    if |rest| > 1 {
      AppendAssoc(path, [e.key], rest[1..]);
      HeadUnique(fs, path, keywords, search, rest);
      EnrichWrites(e.val.entries, cp, out, keywords, search, rest[1..]);
    }
    TailAvoids(fs, path, keywords, search, rest);
    EnrichFrame(fs[1..], path, step.value, keywords, search, k);
  }

  /** When no other leaf joins to the key of a leaf under the first entry,
      no other leaf of that entry's object does either. */
  lemma HeadUnique(fs: seq<Entry>, path: seq<string>, keywords: (string, string) -> seq<string>,
                   search: string -> seq<Json>, rest: seq<string>)
    requires DistinctKeys(fs) && fs != [] && |rest| > 1 && rest[0] == fs[0].key && fs[0].val.Obj?
    requires forall other :: IsFalsyLeaf(fs, other) && other != rest && LeafImages(path + other, keywords, search) != [] ==>
      Join(path + other, Sep) != Join(path + rest, Sep)
    ensures forall other ::
      (IsFalsyLeaf(fs[0].val.entries, other) && other != rest[1..] &&
       LeafImages(path + [fs[0].key] + other, keywords, search) != []) ==>
        Join(path + [fs[0].key] + other, Sep) != Join(path + [fs[0].key] + rest[1..], Sep)
  {
    HeadTail(rest);
    AppendAssoc(path, [fs[0].key], rest[1..]);
    forall other | IsFalsyLeaf(fs[0].val.entries, other) && other != rest[1..] &&
                   LeafImages(path + [fs[0].key] + other, keywords, search) != []
      ensures Join(path + [fs[0].key] + other, Sep) != Join(path + rest, Sep)
    {
      LeafOfHead(fs, other);
      AppendAssoc(path, [fs[0].key], other);
    }
  }

  /** When no other leaf joins to the key of a leaf under the first entry,
      the leaves of the later entries avoid that key. */
  lemma TailAvoids(fs: seq<Entry>, path: seq<string>, keywords: (string, string) -> seq<string>,
                   search: string -> seq<Json>, rest: seq<string>)
    requires WellFormed(Obj(fs)) && fs != [] && rest != [] && rest[0] == fs[0].key
    requires forall other :: IsFalsyLeaf(fs, other) && other != rest && LeafImages(path + other, keywords, search) != [] ==>
      Join(path + other, Sep) != Join(path + rest, Sep)
    ensures Avoids(fs[1..], path, keywords, search, Join(path + rest, Sep))
  {
    forall other | IsFalsyLeaf(fs[1..], other) && LeafImages(path + other, keywords, search) != []
      ensures Join(path + other, Sep) != Join(path + rest, Sep)
    {
      LeafOfTail(fs, other);
    }
  }

  /** `google_image_scrape` with its default limit, the page being what the
      Google request for the query returns. */
  function GoogleSearch(page: string -> Option<seq<Option<string>>>): string -> seq<Json>
  {
    q => Scrape(q, page(q), ScrapeLimit)
  }

  /** `main()`: load the taxonomy (an uncaught failure), walk it into a fresh
      `{}`, and save that once after the whole walk. */
  function Run(taxonomy: Option<Json>, keywords: (string, string) -> seq<string>,
               page: string -> Option<seq<Option<string>>>): (r: Outcome)
    ensures r.Written? ==> r.doc.Obj?
  {
    match taxonomy
    case None => Aborted
    case Some(t) =>
      if !t.Obj? then Aborted
      else
        match EnrichEntries(t.entries, [], [], keywords, GoogleSearch(page))
        case None => Aborted
        case Some(out) => Written(Obj(out))
  }

  /** The saved document holds exactly the leaf keys that found links: every
      other key is absent, and a leaf whose joined key is its own holds its
      links. */
  lemma RunOutput(t: Json, keywords: (string, string) -> seq<string>, page: string -> Option<seq<Option<string>>>)
    requires WellFormed(t) && t.Obj?
    ensures Run(Some(t), keywords, page).Written? <==> TruthyAreObjects(t.entries)
    ensures Run(Some(t), keywords, page).Written? ==>
      var out := Run(Some(t), keywords, page).doc.entries;
      (forall k :: Avoids(t.entries, [], keywords, GoogleSearch(page), k) ==> Get(out, k) == None) &&
      (forall rest ::
         (IsFalsyLeaf(t.entries, rest) && LeafImages(rest, keywords, GoogleSearch(page)) != [] &&
          forall other ::
            (IsFalsyLeaf(t.entries, other) && other != rest && LeafImages(other, keywords, GoogleSearch(page)) != []) ==>
              Join(other, Sep) != Join(rest, Sep)) ==>
         Get(out, Join(rest, Sep)) == Some(Arr(LeafImages(rest, keywords, GoogleSearch(page)))))
  {
    var search := GoogleSearch(page);
    if TruthyAreObjects(t.entries) {
      EnrichSucceeds(t.entries, [], [], keywords, search);
    } else {
      var rest :| |rest| > 0 && Lookup(Obj(t.entries), rest).Some? && Truthy(Lookup(Obj(t.entries), rest).value) &&
        !Lookup(Obj(t.entries), rest).value.Obj?;
      TruthyNonMappingAborts(t.entries, [], [], keywords, search, rest);
      return;
    }
    forall k | Avoids(t.entries, [], keywords, search, k)
      ensures Get(EnrichEntries(t.entries, [], [], keywords, search).value, k) == None
    {
      EnrichFrame(t.entries, [], [], keywords, search, k);
    }
    forall rest | IsFalsyLeaf(t.entries, rest) && LeafImages(rest, keywords, search) != [] &&
         (forall other :: IsFalsyLeaf(t.entries, other) && other != rest && LeafImages(other, keywords, search) != [] ==>
            Join(other, Sep) != Join(rest, Sep))
      ensures Get(EnrichEntries(t.entries, [], [], keywords, search).value, Join(rest, Sep))
              == Some(Arr(LeafImages(rest, keywords, search)))
    {
      assert [] + rest == rest;
      forall other | IsFalsyLeaf(t.entries, other) && other != rest && LeafImages([] + other, keywords, search) != []
        ensures Join([] + other, Sep) != Join([] + rest, Sep)
      {
        assert [] + other == other;
      }
      EnrichWrites(t.entries, [], [], keywords, search, rest);
    }
  }
}
