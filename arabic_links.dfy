/** scripts/enrich_arabic_links.py: walk the link dataset and, for every empty
    object found below the top level, gather image links into a fresh output
    tree under the same path, in an "image_gems" key. */
module ArabicLinks {
  import opened Wrappers
  import opened Json
  import opened Text
  import opened Gather
  import SerpApi

  const Gems: string := "image_gems"

  /** The links for the leaf at `leaf`: keywords for the domain `leaf[0]` and
      the " > "-joined rest of the path, then one search per keyword. */
  function LeafImages(leaf: seq<string>, keywords: (string, string) -> seq<string>, search: string -> seq<Json>): seq<Json>
    requires |leaf| >= 2
  {
    Concat(keywords(leaf[0], Join(leaf[1..], " > ")), search)
  }

  /** `enrich_links(data, out_data, path)` over the entries `fs` of `data`,
      with `out` the current output; `None` when Python raises: an empty
      object at the top level (`path[0]` does not exist), or a `setdefault`
      that meets a value that is not an object. */
  function Walk(fs: seq<Entry>, path: seq<string>, out: Json,
                keywords: (string, string) -> seq<string>, search: string -> seq<Json>): Option<Json>
    decreases fs
  {
    if fs == [] then Some(out)
    else
      var e := fs[0];
      var step :=
        if e.val == Obj([]) then
          if path == [] then None
          else SetDefaultPath(out, path + [e.key], Gems, Arr(LeafImages(path + [e.key], keywords, search)))
        else if e.val.Obj? then Walk(e.val.entries, path + [e.key], out, keywords, search)
        else Some(out);
      match step
      case None => None
      case Some(o) => Walk(fs[1..], path, o, keywords, search)
  }

  /** The recursive walk as the script runs it: a loop over the items, the
      keyword loop for a leaf, and a recursive call for a non-empty object. */
  method EnrichLinks(data: seq<Entry>, out: Json, path: seq<string>,
                     keywords: (string, string) -> seq<string>, search: string -> seq<Json>)
    returns (r: Option<Json>)
    ensures r == Walk(data, path, out, keywords, search)
    decreases data
  {
    var cur := out;
    var i := 0;
    while i < |data|
      invariant 0 <= i <= |data|
      invariant Walk(data, path, out, keywords, search) == Walk(data[i..], path, cur, keywords, search)
    {
      var e := data[i];
      assert data[i..][0] == e && data[i..][1..] == data[i + 1..];
      if e.val == Obj([]) {
        if path == [] {
          return None;
        }
        var images := CollectImages(keywords(path[0], Join(path[1..] + [e.key], " > ")), search);
        assert (path + [e.key])[1..] == path[1..] + [e.key];
        var placed := SetDefaultPath(cur, path + [e.key], Gems, Arr(images));
        if placed.None? {
          return None;
        }
        cur := placed.value;
      } else if e.val.Obj? {
        var sub := EnrichLinks(e.val.entries, cur, path + [e.key], keywords, search);
        if sub.None? {
          return None;
        }
        cur := sub.value;
      }
      i := i + 1;
    }
    return Some(cur);
  }

  /** `rest` leads from the entries `fs` through objects to an empty object:
      the leaves the walk enriches. */
  predicate IsLeaf(fs: seq<Entry>, rest: seq<string>)
    decreases |rest|
  {
    |rest| > 0 &&
    match Get(fs, rest[0])
    case None => false
    case Some(v) => if |rest| == 1 then v == Obj([]) else v.Obj? && IsLeaf(v.entries, rest[1..])
  }

  /** An empty object directly at the top level makes the walk raise. */
  lemma {:induction false} TopLevelEmptyDictAborts(fs: seq<Entry>, out: Json, i: nat,
                                                   keywords: (string, string) -> seq<string>, search: string -> seq<Json>)
    requires i < |fs| && fs[i].val == Obj([])
    ensures Walk(fs, [], out, keywords, search) == None
    decreases i
  {
    if i > 0 {
      var e := fs[0];
      var step :=
        if e.val == Obj([]) then None
        else if e.val.Obj? then Walk(e.val.entries, [e.key], out, keywords, search)
        else Some(out);
      assert [] + [e.key] == [e.key];
      if step.Some? {
        TopLevelEmptyDictAborts(fs[1..], step.value, i - 1, keywords, search);
      }
    }
  }

  /** A leaf of `fs[1..]` is a leaf of `fs`. */
  lemma LeafOfTail(fs: seq<Entry>, rest: seq<string>)
    requires WellFormed(Obj(fs)) && fs != [] && IsLeaf(fs[1..], rest)
    ensures IsLeaf(fs, rest) && rest[0] != fs[0].key
  {
    WellFormedTail(fs);
  }

  /** A leaf of `fs` that does not start at the first entry is a leaf of `fs[1..]`. */
  lemma LeafInTail(fs: seq<Entry>, rest: seq<string>)
    requires DistinctKeys(fs) && fs != [] && IsLeaf(fs, rest) && rest[0] != fs[0].key
    ensures IsLeaf(fs[1..], rest)
  {
    assert Get(fs, rest[0]) == Get(fs[1..], rest[0]);
  }

  /** The walk writes nothing away from the leaves: any path apart from every
      leaf path (siblings, non-object values, objects with no empty object
      below them) reads the same in the output as before. */
  lemma {:induction false} WalkFrame(fs: seq<Entry>, path: seq<string>, out: Json,
                                     keywords: (string, string) -> seq<string>, search: string -> seq<Json>, p: seq<string>)
    requires WellFormed(Obj(fs))
    requires Walk(fs, path, out, keywords, search).Some?
    requires forall rest :: IsLeaf(fs, rest) ==> Apart(p, path + rest)
    ensures Lookup(Walk(fs, path, out, keywords, search).value, p) == Lookup(out, p)
    decreases fs
  {
    if fs != [] {
      var e := fs[0];
      WellFormedTail(fs);
      GetAt(fs, 0);
      var step :=
        if e.val == Obj([]) then
          if path == [] then None
          else SetDefaultPath(out, path + [e.key], Gems, Arr(LeafImages(path + [e.key], keywords, search)))
        else if e.val.Obj? then Walk(e.val.entries, path + [e.key], out, keywords, search)
        else Some(out);
      var o := step.value;
      if e.val == Obj([]) {
        assert IsLeaf(fs, [e.key]);
        ApartExtend(p, path + [e.key], [Gems]);
        SetDefaultPathFrame(out, path + [e.key], Gems, Arr(LeafImages(path + [e.key], keywords, search)), p);
      } else if e.val.Obj? {
        forall rest' | IsLeaf(e.val.entries, rest') ensures Apart(p, (path + [e.key]) + rest') {
          var rest := [e.key] + rest';
          assert rest[0] == e.key && rest[1..] == rest';
          assert IsLeaf(fs, rest);
          AppendAssoc(path, [e.key], rest');
        }
        WalkFrame(e.val.entries, path + [e.key], out, keywords, search, p);
      }
      forall rest | IsLeaf(fs[1..], rest) ensures Apart(p, path + rest) {
        LeafOfTail(fs, rest);
      }
      WalkFrame(fs[1..], path, o, keywords, search, p);
    }
  }

  /** Every leaf below the top level ends up with an "image_gems" key holding
      the concatenated links, even when there are none; later leaves sharing
      a path prefix do not disturb it, because `setdefault` keeps the
      intermediate objects it finds. */
  lemma {:induction false} WalkWritesLeaf(fs: seq<Entry>, path: seq<string>, out: Json,
                                          keywords: (string, string) -> seq<string>, search: string -> seq<Json>, rest: seq<string>)
    requires WellFormed(Obj(fs))
    requires IsLeaf(fs, rest) && |path| + |rest| >= 2
    requires Walk(fs, path, out, keywords, search).Some?
    ensures Lookup(Walk(fs, path, out, keywords, search).value, path + rest + [Gems])
            == Some(Arr(LeafImages(path + rest, keywords, search)))
    decreases fs, 1
  {
    var e := fs[0];
    if e.key == rest[0] {
      WalkWritesLeafHead(fs, path, out, keywords, search, rest);
    } else {
      WellFormedTail(fs);
      LeafInTail(fs, rest);
      var step :=
        if e.val == Obj([]) then
          if path == [] then None
          else SetDefaultPath(out, path + [e.key], Gems, Arr(LeafImages(path + [e.key], keywords, search)))
        else if e.val.Obj? then Walk(e.val.entries, path + [e.key], out, keywords, search)
        else Some(out);
      WalkWritesLeaf(fs[1..], path, step.value, keywords, search, rest);
    }
  }

  /** The case of `WalkWritesLeaf` where the leaf lies under the first entry:
      that entry's step writes it, and the later entries leave it alone. */
  lemma {:induction false} WalkWritesLeafHead(fs: seq<Entry>, path: seq<string>, out: Json,
                                              keywords: (string, string) -> seq<string>, search: string -> seq<Json>, rest: seq<string>)
    requires WellFormed(Obj(fs))
    requires IsLeaf(fs, rest) && |path| + |rest| >= 2 && rest[0] == fs[0].key
    requires Walk(fs, path, out, keywords, search).Some?
    ensures Lookup(Walk(fs, path, out, keywords, search).value, path + rest + [Gems])
            == Some(Arr(LeafImages(path + rest, keywords, search)))
    decreases fs, 0
  {
    var e := fs[0];
    WellFormedTail(fs);
    GetAt(fs, 0);
    var step :=
      if e.val == Obj([]) then
        if path == [] then None
        else SetDefaultPath(out, path + [e.key], Gems, Arr(LeafImages(path + [e.key], keywords, search)))
      else if e.val.Obj? then Walk(e.val.entries, path + [e.key], out, keywords, search)
      else Some(out);
    var target := path + rest + [Gems];
    HeadTail(rest);
    if |rest| == 1 {
      SetDefaultPathWrites(out, path + [e.key], Gems, Arr(LeafImages(path + [e.key], keywords, search)));
    } else {
      AppendAssoc(path, [e.key], rest[1..]);
      WalkWritesLeaf(e.val.entries, path + [e.key], out, keywords, search, rest[1..]);
    }
    TailApart(fs, path, rest);
    WalkFrame(fs[1..], path, step.value, keywords, search, target);
  }

  /** The leaves of the later entries are apart from a leaf's gems path
      under the first entry. */
  lemma TailApart(fs: seq<Entry>, path: seq<string>, rest: seq<string>)
    requires WellFormed(Obj(fs)) && fs != [] && rest != [] && rest[0] == fs[0].key
    ensures forall rest' :: IsLeaf(fs[1..], rest') ==> Apart(path + rest + [Gems], path + rest')
  {
    AppendAssoc(path, rest, [Gems]);
    forall rest' | IsLeaf(fs[1..], rest') ensures Apart(path + (rest + [Gems]), path + rest') {
      LeafOfTail(fs, rest');
      ApartAfter(path, rest + [Gems], rest');
    }
  }

  /** What the walk does with the first entry of `fs`. */
  function HeadStep(fs: seq<Entry>, path: seq<string>, out: Json,
                    keywords: (string, string) -> seq<string>, search: string -> seq<Json>): Option<Json>
    requires fs != []
  {
    var e := fs[0];
    if e.val == Obj([]) then
      if path == [] then None
      else SetDefaultPath(out, path + [e.key], Gems, Arr(LeafImages(path + [e.key], keywords, search)))
    else if e.val.Obj? then Walk(e.val.entries, path + [e.key], out, keywords, search)
    else Some(out)
  }

  /** Every leaf still to be visited has only objects (or nothing) along its
      path in the output. */
  ghost predicate LeavesOpen(fs: seq<Entry>, path: seq<string>, out: Json)
  {
    forall rest :: IsLeaf(fs, rest) ==> ObjectsAlong(out, path + rest)
  }

  /** `q` is apart from every "image_gems" path the walk of `fs` writes. */
  ghost predicate ApartFromGems(fs: seq<Entry>, path: seq<string>, q: seq<string>)
  {
    forall rest :: IsLeaf(fs, rest) ==> Apart(q, path + rest + [Gems])
  }

  /** Below the top level, the walk raises only if a `setdefault` meets a
      value that is not an object; the output has none along any leaf path
      still to be visited, so the walk succeeds, and it keeps that property
      for every path apart from what it writes. */
  lemma {:induction false} WalkSucceeds(fs: seq<Entry>, path: seq<string>, out: Json,
                                        keywords: (string, string) -> seq<string>, search: string -> seq<Json>)
    requires WellFormed(Obj(fs))
    requires path == [] ==> forall i :: 0 <= i < |fs| ==> fs[i].val != Obj([])
    requires LeavesOpen(fs, path, out)
    ensures Walk(fs, path, out, keywords, search).Some?
    ensures forall q :: ObjectsAlong(out, q) && ApartFromGems(fs, path, q) ==>
      ObjectsAlong(Walk(fs, path, out, keywords, search).value, q)
    decreases fs, 2
  {
    if fs != [] {
      HeadSucceeds(fs, path, out, keywords, search);
      var o := HeadStep(fs, path, out, keywords, search).value;
      WellFormedTail(fs);
      assert path == [] ==> forall i :: 0 <= i < |fs[1..]| ==> fs[1..][i].val != Obj([]) by {
        assert forall i :: 0 <= i < |fs[1..]| ==> fs[1..][i] == fs[i + 1];
      }
      WalkSucceeds(fs[1..], path, o, keywords, search);
      forall q | ObjectsAlong(out, q) && ApartFromGems(fs, path, q)
        ensures ApartFromGems(fs[1..], path, q)
      {
        forall rest | IsLeaf(fs[1..], rest) ensures Apart(q, path + rest + [Gems]) {
          LeafOfTail(fs, rest);
        }
      }
    }
  }

  /** The first entry's step of `WalkSucceeds`: it succeeds, keeps the
      property for paths apart from what it writes, and so leaves the later
      entries' leaves open. */
  lemma {:induction false} HeadSucceeds(fs: seq<Entry>, path: seq<string>, out: Json,
                                        keywords: (string, string) -> seq<string>, search: string -> seq<Json>)
    requires WellFormed(Obj(fs)) && fs != []
    requires path == [] ==> fs[0].val != Obj([])
    requires LeavesOpen(fs, path, out)
    ensures HeadStep(fs, path, out, keywords, search).Some?
    ensures forall q :: ObjectsAlong(out, q) && ApartFromGems(fs, path, q) ==>
      ObjectsAlong(HeadStep(fs, path, out, keywords, search).value, q)
    ensures LeavesOpen(fs[1..], path, HeadStep(fs, path, out, keywords, search).value)
    decreases fs, 1
  {
    WellFormedTail(fs);
    if fs[0].val == Obj([]) {
      LeafHeadSucceeds(fs, path, out, keywords, search);
    } else if fs[0].val.Obj? {
      NodeHeadSucceeds(fs, path, out, keywords, search);
    } else {
      forall rest | IsLeaf(fs[1..], rest) ensures ObjectsAlong(out, path + rest) {
        LeafOfTail(fs, rest);
      }
    }
  }

  /** `HeadSucceeds` for an empty object: one `setdefault` descent. */
  lemma LeafHeadSucceeds(fs: seq<Entry>, path: seq<string>, out: Json,
                         keywords: (string, string) -> seq<string>, search: string -> seq<Json>)
    requires WellFormed(Obj(fs)) && fs != [] && fs[0].val == Obj([]) && path != []
    requires LeavesOpen(fs, path, out)
    ensures HeadStep(fs, path, out, keywords, search).Some?
    ensures forall q :: ObjectsAlong(out, q) && ApartFromGems(fs, path, q) ==>
      ObjectsAlong(HeadStep(fs, path, out, keywords, search).value, q)
    ensures LeavesOpen(fs[1..], path, HeadStep(fs, path, out, keywords, search).value)
  {
    var e := fs[0];
    GetAt(fs, 0);
    var cp := path + [e.key];
    var v := Arr(LeafImages(cp, keywords, search));
    assert IsLeaf(fs, [e.key]);
    SetDefaultPathSucceeds(out, cp, Gems, v);
    var o := SetDefaultPath(out, cp, Gems, v).value;
    assert HeadStep(fs, path, out, keywords, search) == Some(o);
    forall q | ObjectsAlong(out, q) && ApartFromGems(fs, path, q) ensures ObjectsAlong(o, q) {
      ObjectsAlongPreserved(out, cp, Gems, v, q);
    }
    forall rest | IsLeaf(fs[1..], rest) ensures ObjectsAlong(o, path + rest) {
      LeafOfTail(fs, rest);
      ApartAfter(path, rest, [e.key] + [Gems]);
      AppendAssoc(path, [e.key], [Gems]);
      ObjectsAlongPreserved(out, cp, Gems, v, path + rest);
    }
  }

  /** `HeadSucceeds` for a non-empty object: the recursive walk. */
  lemma {:induction false} NodeHeadSucceeds(fs: seq<Entry>, path: seq<string>, out: Json,
                                            keywords: (string, string) -> seq<string>, search: string -> seq<Json>)
    requires WellFormed(Obj(fs)) && fs != [] && fs[0].val.Obj? && fs[0].val != Obj([])
    requires LeavesOpen(fs, path, out)
    ensures HeadStep(fs, path, out, keywords, search).Some?
    ensures forall q :: ObjectsAlong(out, q) && ApartFromGems(fs, path, q) ==>
      ObjectsAlong(HeadStep(fs, path, out, keywords, search).value, q)
    ensures LeavesOpen(fs[1..], path, HeadStep(fs, path, out, keywords, search).value)
    decreases fs, 0
  {
    var e := fs[0];
    WellFormedTail(fs);
    GetAt(fs, 0);
    var cp := path + [e.key];
    SubLeavesOpen(fs, path, out);
    WalkSucceeds(e.val.entries, cp, out, keywords, search);
    forall q | ObjectsAlong(out, q) && ApartFromGems(fs, path, q)
      ensures ApartFromGems(e.val.entries, cp, q)
    {
      forall r | IsLeaf(e.val.entries, r) ensures Apart(q, cp + r + [Gems]) {
        var rest := [e.key] + r;
        assert rest[0] == e.key && rest[1..] == r;
        assert IsLeaf(fs, rest);
        AppendAssoc(path, [e.key], r);
      }
    }
    forall rest | IsLeaf(fs[1..], rest)
      ensures ApartFromGems(e.val.entries, cp, path + rest) && ObjectsAlong(out, path + rest)
    {
      LeafOfTail(fs, rest);
      TailApartFromGems(fs, path, rest);
    }
  }

  /** The leaves below the first entry are leaves of `fs`, so they are open. */
  lemma SubLeavesOpen(fs: seq<Entry>, path: seq<string>, out: Json)
    requires WellFormed(Obj(fs)) && fs != [] && fs[0].val.Obj?
    requires LeavesOpen(fs, path, out)
    ensures LeavesOpen(fs[0].val.entries, path + [fs[0].key], out)
  {
    var e := fs[0];
    GetAt(fs, 0);
    forall r | IsLeaf(e.val.entries, r) ensures ObjectsAlong(out, path + [e.key] + r) {
      var rest := [e.key] + r;
      assert rest[0] == e.key && rest[1..] == r;
      assert IsLeaf(fs, rest);
      AppendAssoc(path, [e.key], r);
    }
  }

  /** A leaf of a later entry is apart from every gems path written below
      the first entry. */
  lemma TailApartFromGems(fs: seq<Entry>, path: seq<string>, rest: seq<string>)
    requires fs != [] && fs[0].val.Obj? && rest != [] && rest[0] != fs[0].key
    ensures ApartFromGems(fs[0].val.entries, path + [fs[0].key], path + rest)
  {
    var e := fs[0];
    forall r | IsLeaf(e.val.entries, r) ensures Apart(path + rest, path + [e.key] + r + [Gems]) {
      var w := [e.key] + r + [Gems];
      ApartAfter(path, rest, w);
      AppendAssoc(path, [e.key], r);
      AppendAssoc(path + [e.key] + r, [], [Gems]);
      assert path + w == path + [e.key] + r + [Gems];
    }
  }

  /** `fetch_images_from_serpapi`, with the HTTP exchange as `serp`. */
  function SerpSearch(serp: string -> Option<Json>): string -> seq<Json>
  {
    q => SerpApi.FirstOriginals(q, serp(q))
  }

  /** `main()`: load the link dataset (an uncaught failure), walk it into a
      fresh `{}`, and write the output once, after the whole walk. */
  function Run(linkData: Option<Json>, keywords: (string, string) -> seq<string>, serp: string -> Option<Json>): Outcome
  {
    match linkData
    case None => Aborted
    case Some(data) =>
      if !data.Obj? then Aborted
      else
        match Walk(data.entries, [], Obj([]), keywords, SerpSearch(serp))
        case None => Aborted
        case Some(out) => Written(out)
  }

  ghost predicate AwayFromLeaves(fs: seq<Entry>, p: seq<string>)
  {
    forall rest :: IsLeaf(fs, rest) ==> Apart(p, rest)
  }

  /** What `main` writes: an "image_gems" list at every leaf path, and
      nothing at any path apart from all leaves (so no copy of the input's
      other values); an empty object at the top level writes nothing. */
  lemma RunOutput(data: Json, keywords: (string, string) -> seq<string>, serp: string -> Option<Json>)
    requires WellFormed(data) && data.Obj?
    ensures (exists i :: 0 <= i < |data.entries| && data.entries[i].val == Obj([]))
            <==> Run(Some(data), keywords, serp) == Aborted
    ensures Run(Some(data), keywords, serp).Written? <==> Run(Some(data), keywords, serp) != Aborted
    ensures Run(Some(data), keywords, serp).Written? ==>
      var doc := Run(Some(data), keywords, serp).doc;
      (forall rest :: IsLeaf(data.entries, rest) && |rest| >= 2 ==>
         Lookup(doc, rest + [Gems]) == Some(Arr(LeafImages(rest, keywords, SerpSearch(serp))))) &&
      (forall p :: AwayFromLeaves(data.entries, p) ==> Lookup(doc, p) == Lookup(Obj([]), p))
  {
    var search := SerpSearch(serp);
    if i :| 0 <= i < |data.entries| && data.entries[i].val == Obj([]) {
      TopLevelEmptyDictAborts(data.entries, Obj([]), i, keywords, search);
    } else {
      forall rest | IsLeaf(data.entries, rest) ensures ObjectsAlong(Obj([]), [] + rest) {
      }
      WalkSucceeds(data.entries, [], Obj([]), keywords, search);
    }
    if Run(Some(data), keywords, serp).Written? {
      WalkOutput(data, keywords, search);
    }
  }

  /** `RunOutput`'s facts about the walk from `{}`. */
  lemma WalkOutput(data: Json, keywords: (string, string) -> seq<string>, search: string -> seq<Json>)
    requires WellFormed(data) && data.Obj? && Walk(data.entries, [], Obj([]), keywords, search).Some?
    ensures var doc := Walk(data.entries, [], Obj([]), keywords, search).value;
      (forall rest :: IsLeaf(data.entries, rest) && |rest| >= 2 ==>
         Lookup(doc, rest + [Gems]) == Some(Arr(LeafImages(rest, keywords, search)))) &&
      (forall p :: AwayFromLeaves(data.entries, p) ==> Lookup(doc, p) == Lookup(Obj([]), p))
  {
    forall rest | IsLeaf(data.entries, rest) && |rest| >= 2
      ensures Lookup(Walk(data.entries, [], Obj([]), keywords, search).value, rest + [Gems])
              == Some(Arr(LeafImages(rest, keywords, search)))
    {
      WalkWritesLeaf(data.entries, [], Obj([]), keywords, search, rest);
      assert [] + rest + [Gems] == rest + [Gems];
      assert [] + rest == rest;
    }
    forall p | AwayFromLeaves(data.entries, p)
      ensures Lookup(Walk(data.entries, [], Obj([]), keywords, search).value, p) == Lookup(Obj([]), p)
    {
      forall rest | IsLeaf(data.entries, rest) ensures Apart(p, [] + rest) {
        assert [] + rest == rest;
      }
      WalkFrame(data.entries, [], Obj([]), keywords, search, p);
    }
  }
}
