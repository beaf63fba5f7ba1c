/** The accumulation loop every enrichment script runs for one taxonomy leaf:
      images = []
      for kw in keywords:
          images.extend(search(kw))
    `search` stands for the script's image-search call (SerpAPI or the Google
    HTML scrape), which yields `[]` on any failure. */
module Gather {
  import opened Json

  /** The links gathered for `keywords`, in keyword order. */
  function Concat(keywords: seq<string>, search: string -> seq<Json>): seq<Json>
  {
    if keywords == [] then []
    else Concat(keywords[..|keywords| - 1], search) + search(keywords[|keywords| - 1])
  }

  method CollectImages(keywords: seq<string>, search: string -> seq<Json>) returns (images: seq<Json>)
    ensures images == Concat(keywords, search)
  {
    images := [];
    for i := 0 to |keywords|
      invariant images == Concat(keywords[..i], search)
    {
      assert keywords[..i + 1][..i] == keywords[..i];
      images := images + search(keywords[i]);
    }
    assert keywords[..|keywords|] == keywords;
  }

  /** The first keyword's links come first, then the rest in order. */
  lemma {:induction false} ConcatCons(k: string, keywords: seq<string>, search: string -> seq<Json>)
    ensures Concat([k] + keywords, search) == search(k) + Concat(keywords, search)
    decreases |keywords|
  {
    var all := [k] + keywords;
    if keywords != [] {
      var init := keywords[..|keywords| - 1];
      assert all[..|all| - 1] == [k] + init;
      ConcatCons(k, init, search);
    }
  }

  /** Nothing is gathered exactly when every keyword's search came back empty. */
  lemma {:induction false} ConcatEmpty(keywords: seq<string>, search: string -> seq<Json>)
    ensures Concat(keywords, search) == [] <==> forall i :: 0 <= i < |keywords| ==> search(keywords[i]) == []
  {
    if keywords != [] {
      var init := keywords[..|keywords| - 1];
      ConcatEmpty(init, search);
      assert forall i :: 0 <= i < |init| ==> init[i] == keywords[i];
    }
  }

  /** With at most `n` links per search, a leaf gets at most `n` links per keyword. */
  lemma {:induction false} ConcatBound(keywords: seq<string>, search: string -> seq<Json>, n: nat)
    requires forall q :: |search(q)| <= n
    ensures |Concat(keywords, search)| <= n * |keywords|
  {
    if keywords != [] {
      ConcatBound(keywords[..|keywords| - 1], search, n);
    }
  }
}
