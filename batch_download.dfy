/** scripts/image_scraper_2.py: for each subcategory, collect image URLs
    from two search engines, plan one numbered download per distinct URL,
    run the downloads and count the successes. */
module BatchDownload {
  import opened Wrappers
  import opened Json
  import opened Text

  const SaveRoot: string := "arabic_images_4"

  /** Appended to every subcategory to form the search query. */
  const QuerySuffix: string := " صور تعليمية مكتوبة باللغة العربية بدون علامات مائية"

  /** The decorated query for a subcategory. */
  function Query(subcat: string): (q: string)
    ensures StartsWith(q, subcat) && EndsWith(q, QuerySuffix)
  {
    var q := subcat + QuerySuffix;
    assert q[..|subcat|] == subcat && q[|q| - |QuerySuffix|..] == QuerySuffix;
    q
  }

  /** Number of leading results that are objects: `.get` on anything else
      raises, and the handler returns what was collected so far. */
  function ObjectRun(results: seq<Json>): (n: nat)
    ensures n <= |results| && forall i :: 0 <= i < n ==> results[i].Obj?
    ensures n < |results| ==> !results[n].Obj?
  {
    if results == [] || !results[0].Obj? then 0 else 1 + ObjectRun(results[1..])
  }

  /** The truthy "image" fields of object results, in order. */
  function TruthyImages(results: seq<Json>): (r: seq<Json>)
    requires forall i :: 0 <= i < |results| ==> results[i].Obj?
    ensures |r| <= |results| && forall i :: 0 <= i < |r| ==> Truthy(r[i])
    ensures forall u :: u in r ==> exists i :: 0 <= i < |results| && u == GetOr(results[i].entries, "image", Null)
  {
    if results == [] then []
    else
      var init := TruthyImages(results[..|results| - 1]);
      var image := GetOr(results[|results| - 1].entries, "image", Null);
      assert forall i :: 0 <= i < |results| - 1 ==> results[..|results| - 1][i] == results[i];
      if Truthy(image) then init + [image] else init
  }

  /** Every truthy "image" field is kept. */
  lemma {:induction false} TruthyImagesComplete(results: seq<Json>)
    requires forall i :: 0 <= i < |results| ==> results[i].Obj?
    ensures forall i :: 0 <= i < |results| && Truthy(GetOr(results[i].entries, "image", Null)) ==>
      GetOr(results[i].entries, "image", Null) in TruthyImages(results)
  {
    if results != [] {
      var init := results[..|results| - 1];
      TruthyImagesComplete(init);
      forall i | 0 <= i < |results| - 1 && Truthy(GetOr(results[i].entries, "image", Null))
        ensures GetOr(results[i].entries, "image", Null) in TruthyImages(results)
      {
        assert init[i] == results[i];
      }
    }
  }

  /** The fields are kept in result order: the results of `a + b` give
      those of `a`, then those of `b`. */
  lemma {:induction false} TruthyImagesAppend(a: seq<Json>, b: seq<Json>)
    requires forall i :: 0 <= i < |a + b| ==> (a + b)[i].Obj?
    ensures forall i :: 0 <= i < |a| ==> a[i].Obj?
    ensures forall i :: 0 <= i < |b| ==> b[i].Obj?
    ensures TruthyImages(a + b) == TruthyImages(a) + TruthyImages(b)
    decreases |b|
  {
    var ab := a + b;
    forall i | 0 <= i < |a| ensures a[i].Obj? {
      assert ab[i] == a[i];
    }
    forall i | 0 <= i < |b| ensures b[i].Obj? {
      assert ab[|a| + i] == b[i];
    }
    if b == [] {
      assert ab == a;
    } else {
      var b' := b[..|b| - 1];
      assert ab[..|ab| - 1] == a + b';
      assert ab[|ab| - 1] == b[|b| - 1];
      TruthyImagesAppend(a, b');
      var image := GetOr(b[|b| - 1].entries, "image", Null);
      if Truthy(image) {
        AppendAssoc(TruthyImages(a), TruthyImages(b'), [image]);
      }
    }
  }

  /** One more object result adds its "image" field exactly when it is truthy. */
  lemma TruthyImagesStep(results: seq<Json>, i: nat)
    requires i < |results| && forall j :: 0 <= j <= i ==> results[j].Obj?
    ensures var image := GetOr(results[i].entries, "image", Null);
      TruthyImages(results[..i + 1])
      == if Truthy(image) then TruthyImages(results[..i]) + [image] else TruthyImages(results[..i])
  {
    assert results[..i + 1][..i] == results[..i];
  }

  /** `fetch_ddg_urls(query, max_results)`, given the results the search
      yielded before it finished or raised. */
  method FetchDdgUrls(results: seq<Json>) returns (urls: seq<Json>)
    ensures urls == TruthyImages(results[..ObjectRun(results)])
  {
    urls := [];
    var n := ObjectRun(results);
    for i := 0 to |results|
      invariant i <= n && urls == TruthyImages(results[..i])
    {
      if !results[i].Obj? {
        assert i == n;
        return;
      }
      TruthyImagesStep(results, i);
      var image := GetOr(results[i].entries, "image", Null);
      if Truthy(image) {
        urls := urls + [image];
      }
    }
    assert n == |results| && results[..|results|] == results;
  }

  predicate Distinct<T(==)>(xs: seq<T>)
  {
    forall i, j :: 0 <= i < j < |xs| ==> xs[i] != xs[j]
  }

  /** What a Python set can hold: lists and dicts are unhashable. */
  predicate Hashable(u: Json)
  {
    !u.Arr? && !u.Obj?
  }

  /** The value a Python set compares by: `True == 1` and `False == 0`. */
  function HashKey(u: Json): Json
  {
    match u
    case Bool(b) => Num(if b then 1 else 0)
    case _ => u
  }

  function Hashes(urls: seq<Json>): (hs: seq<Json>)
    ensures |hs| == |urls| && forall i :: 0 <= i < |urls| ==> hs[i] == HashKey(urls[i])
  {
    seq(|urls|, i requires 0 <= i < |urls| => HashKey(urls[i]))
  }

  /** `urls` is the set built from `all`: one member per hash key met, each
      taken from `all`. */
  predicate SetOf(urls: seq<Json>, all: seq<Json>)
  {
    Distinct(Hashes(urls)) &&
    (forall u :: u in urls ==> u in all) &&
    (forall u :: u in all ==> HashKey(u) in Hashes(urls))
  }

  /** `urls = set(); urls.update(ddg); urls.update(bing)`: `None` when some
      URL is unhashable and `update` raises; otherwise the set as a
      sequence. Which order Python iterates the set in is not modelled, only
      its contents; an element equal to one already present is not added. */
  method UnionUrls(ddg: seq<Json>, bing: seq<Json>) returns (r: Option<seq<Json>>)
    ensures r.None? <==> exists i :: 0 <= i < |ddg + bing| && !Hashable((ddg + bing)[i])
    ensures r.Some? ==> SetOf(r.value, ddg + bing)
  {
    var urls := [];
    var all := ddg + bing;
    for i := 0 to |all|
      invariant forall j :: 0 <= j < i ==> Hashable(all[j])
      invariant SetOf(urls, all[..i])
    {
      if !Hashable(all[i]) {
        return None;
      }
      assert all[..i + 1] == all[..i] + [all[i]];
      if HashKey(all[i]) !in Hashes(urls) {
        assert Hashes(urls + [all[i]]) == Hashes(urls) + [HashKey(all[i])];
        urls := urls + [all[i]];
      }
    }
    assert all[..|all|] == all;
    return Some(urls);
  }

  /** A duplicate-free sequence has as many elements as its set. */
  lemma {:induction false} DistinctCard<T>(xs: seq<T>)
    requires Distinct(xs)
    ensures |set x | x in xs| == |xs|
  {
    if xs != [] {
      var init := xs[..|xs| - 1];
      var last := xs[|xs| - 1];
      assert Distinct(init);
      DistinctCard(init);
      assert (set x | x in xs) == (set x | x in init) + {last};
      assert last !in (set x | x in init);
    }
  }

  /** The file name of the k-th download of a subcategory (k from 1). */
  function FileName(subcat: string, k: nat): string
  {
    "img_" + ReplaceChar(subcat, ' ', '_') + "_" + ZFill(Decimal(k), 4) + ".jpg"
  }

  /** `os.path.join(os.path.join(SAVE_ROOT, category), filename)` */
  function SavePath(category: string, filename: string): string
  {
    SaveRoot + "/" + category + "/" + filename
  }

  datatype Task = Task(url: Json, savePath: string)

  /** The tasks planned for `urls`: the k-th URL is saved under number k + 1. */
  function Plan(category: string, subcat: string, urls: seq<Json>): (tasks: seq<Task>)
    ensures |tasks| == |urls|
    ensures forall k :: 0 <= k < |urls| ==> tasks[k] == Task(urls[k], SavePath(category, FileName(subcat, k + 1)))
  {
    if urls == [] then []
    else Plan(category, subcat, urls[..|urls| - 1])
         + [Task(urls[|urls| - 1], SavePath(category, FileName(subcat, |urls|)))]
  }

  /** The planning loop: one task per URL, numbered from 1 in iteration
      order; the per-subcategory cap is commented out, so every URL gets one. */
  method PlanTasks(category: string, subcat: string, urls: seq<Json>) returns (tasks: seq<Task>)
    ensures tasks == Plan(category, subcat, urls)
  {
    tasks := [];
    var count := 0;
    for i := 0 to |urls|
      invariant count == i
      invariant tasks == Plan(category, subcat, urls[..i])
    {
      assert urls[..i + 1][..i] == urls[..i];
      var filename := FileName(subcat, count + 1);
      tasks := tasks + [Task(urls[i], SavePath(category, filename))];
      count := count + 1;
    }
    assert urls[..|urls|] == urls;
  }

  /** Different numbers give different file names, and so different paths. */
  lemma SavePathInjective(category: string, subcat: string, k: nat, m: nat)
    requires SavePath(category, FileName(subcat, k)) == SavePath(category, FileName(subcat, m))
    ensures k == m
  {
    var dir := SaveRoot + "/" + category + "/";
    Middle(dir, FileName(subcat, k), FileName(subcat, m), "");
    var p := "img_" + ReplaceChar(subcat, ' ', '_') + "_";
    Middle(p, ZFill(Decimal(k), 4), ZFill(Decimal(m), 4), ".jpg");
    ZFillInjective(k, m, 4);
  }

  /** The set has as many members as there are distinct hash keys among
      the URLs found. */
  lemma UnionCard(all: seq<Json>, urls: seq<Json>)
    requires SetOf(urls, all)
    ensures |urls| == |set u | u in all :: HashKey(u)|
  {
    var hs := Hashes(urls);
    DistinctCard(hs);
    forall h | h in hs ensures h in (set u | u in all :: HashKey(u)) {
      var i :| 0 <= i < |hs| && hs[i] == h;
      assert urls[i] in urls;
    }
    assert (set h | h in hs) == (set u | u in all :: HashKey(u));
  }

  /** Distinct hash keys mean distinct URLs. */
  lemma HashesDistinct(urls: seq<Json>)
    requires Distinct(Hashes(urls))
    ensures Distinct(urls)
  {
    forall i, j | 0 <= i < j < |urls| ensures urls[i] != urls[j] {
      assert Hashes(urls)[i] != Hashes(urls)[j];
    }
  }

  /** The planned tasks have pairwise distinct save paths, and distinct URLs
      when the URLs were. */
  lemma TasksDistinct(category: string, subcat: string, urls: seq<Json>, tasks: seq<Task>)
    requires Distinct(urls) && |tasks| == |urls|
    requires forall k :: 0 <= k < |urls| ==> tasks[k] == Task(urls[k], SavePath(category, FileName(subcat, k + 1)))
    ensures forall i, j :: 0 <= i < j < |tasks| ==> tasks[i].savePath != tasks[j].savePath && tasks[i].url != tasks[j].url
  {
    forall i, j | 0 <= i < j < |tasks| ensures tasks[i].savePath != tasks[j].savePath {
      if tasks[i].savePath == tasks[j].savePath {
        SavePathInjective(category, subcat, i + 1, j + 1);
      }
    }
  }

  /** What `requests.get` gave for one task: it raised, or a response with
      a status code and whether decoding and saving the image succeeded. */
  datatype Fetch = Raised | Response(status: int, saved: bool)

  /** `download_image`: true only for status 200 followed by a successful
      decode and save; a raise or any other status gives false. */
  function DownloadImage(reply: Fetch): (ok: bool)
    ensures ok ==> reply.Response? && reply.status == 200
    ensures reply.Response? && reply.status == 200 ==> ok == reply.saved
    ensures reply.Raised? ==> !ok
  {
    match reply
    case Raised => false
    case Response(status, saved) => status == 200 && saved
  }

  function CountTrue(results: seq<bool>): (n: nat)
    ensures n <= |results|
  {
    if results == [] then 0
    else CountTrue(results[..|results| - 1]) + (if results[|results| - 1] then 1 else 0)
  }

  /** `sum(results)` */
  method Tally(results: seq<bool>) returns (success: nat)
    ensures success == CountTrue(results)
    ensures success <= |results|
  {
    success := 0;
    for i := 0 to |results|
      invariant success == CountTrue(results[..i])
    {
      assert results[..i + 1][..i] == results[..i];
      if results[i] {
        success := success + 1;
      }
    }
    assert results[..|results|] == results;
  }

  /** `[download_task(t) for t in tasks]` */
  function Outcomes(tasks: seq<Task>, fetch: Task -> Fetch): (r: seq<bool>)
    ensures |r| == |tasks|
  {
    seq(|tasks|, i requires 0 <= i < |tasks| => DownloadImage(fetch(tasks[i])))
  }

  /** `executor.map(download_task, download_tasks)`: results come back in
      task order, so a sequential map. */
  method DownloadAll(tasks: seq<Task>, fetch: Task -> Fetch) returns (results: seq<bool>)
    ensures |results| == |tasks|
    ensures forall i :: 0 <= i < |tasks| ==> results[i] == DownloadImage(fetch(tasks[i]))
    ensures results == Outcomes(tasks, fetch)
  {
    results := [];
    for i := 0 to |tasks|
      invariant |results| == i
      invariant forall k :: 0 <= k < i ==> results[k] == DownloadImage(fetch(tasks[k]))
    {
      results := results + [DownloadImage(fetch(tasks[i]))];
    }
  }

  /** The URLs `fetch_ddg_urls` returns for the results DuckDuckGo yields. */
  function DdgUrls(results: seq<Json>): seq<Json>
  {
    TruthyImages(results[..ObjectRun(results)])
  }

  function TaskUrls(tasks: seq<Task>): (urls: seq<Json>)
    ensures |urls| == |tasks| && forall i :: 0 <= i < |tasks| ==> urls[i] == tasks[i].url
  {
    seq(|tasks|, i requires 0 <= i < |tasks| => tasks[i].url)
  }

  /** The tasks and the number of successful downloads of one subcategory. */
  datatype Report = Report(tasks: seq<Task>, success: nat)

  /** What a completed subcategory reports: one task per member of the set
      of URLs both engines found for the decorated query, numbered from 1,
      and `sum(results)` over the downloads of those tasks. */
  predicate ReportFor(category: string, subcat: string,
                      ddg: string -> seq<Json>, bing: string -> seq<Json>, fetch: Task -> Fetch, rep: Report)
  {
    var all := DdgUrls(ddg(Query(subcat))) + bing(Query(subcat));
    SetOf(TaskUrls(rep.tasks), all) &&
    rep.tasks == Plan(category, subcat, TaskUrls(rep.tasks)) &&
    rep.success == CountTrue(Outcomes(rep.tasks, fetch))
  }

  /** A subcategory whose found URLs include an unhashable one: `update` raises. */
  predicate Unhashable(subcat: string, ddg: string -> seq<Json>, bing: string -> seq<Json>)
  {
    var all := DdgUrls(ddg(Query(subcat))) + bing(Query(subcat));
    exists i :: 0 <= i < |all| && !Hashable(all[i])
  }

  /** The body of the subcategory loop: query, union, plan, download and
      tally. `None` when the union raises, which ends the whole run. */
  method ScrapeSubcategory(category: string, subcat: string,
                           ddg: string -> seq<Json>, bing: string -> seq<Json>, fetch: Task -> Fetch)
    returns (r: Option<Report>)
    ensures r.None? <==> Unhashable(subcat, ddg, bing)
    ensures r.Some? ==> ReportFor(category, subcat, ddg, bing, fetch, r.value)
    ensures r.Some? ==>
      var all := DdgUrls(ddg(Query(subcat))) + bing(Query(subcat));
      var tasks := r.value.tasks;
      |tasks| == |set u | u in all :: HashKey(u)| &&
      (forall i, j :: 0 <= i < j < |tasks| ==> tasks[i].savePath != tasks[j].savePath && tasks[i].url != tasks[j].url) &&
      r.value.success <= |tasks|
  {
    var query := Query(subcat);
    var found := FetchDdgUrls(ddg(query));
    var union := UnionUrls(found, bing(query));
    if union.None? {
      return None;
    }
    var urls := union.value;
    UnionCard(found + bing(query), urls);
    HashesDistinct(urls);
    var tasks := PlanTasks(category, subcat, urls);
    TasksDistinct(category, subcat, urls, tasks);
    assert TaskUrls(tasks) == urls;
    var results := DownloadAll(tasks, fetch);
    var success := Tally(results);
    return Some(Report(tasks, success));
  }

  datatype Category = Category(name: string, subcategories: seq<string>)

  /** The (category, subcategory) pairs of one category, in loop order. */
  function Pairs(c: Category): (r: seq<(string, string)>)
    ensures |r| == |c.subcategories| && forall s :: 0 <= s < |r| ==> r[s] == (c.name, c.subcategories[s])
  {
    seq(|c.subcategories|, s requires 0 <= s < |c.subcategories| => (c.name, c.subcategories[s]))
  }

  /** The (category, subcategory) pairs in loop order. */
  function Subcategories(categories: seq<Category>): seq<(string, string)>
  {
    if categories == [] then []
    else Subcategories(categories[..|categories| - 1]) + Pairs(categories[|categories| - 1])
  }

  /** Each report belongs to the subcategory at its position. */
  predicate ReportsFor(subs: seq<(string, string)>, ddg: string -> seq<Json>, bing: string -> seq<Json>,
                       fetch: Task -> Fetch, reports: seq<Report>)
  {
    |reports| <= |subs| &&
    forall k :: 0 <= k < |reports| ==> ReportFor(subs[k].0, subs[k].1, ddg, bing, fetch, reports[k])
  }

  lemma ReportsForSnoc(subs: seq<(string, string)>, ddg: string -> seq<Json>, bing: string -> seq<Json>,
                       fetch: Task -> Fetch, reports: seq<Report>, rep: Report)
    requires |reports| < |subs| && ReportsFor(subs, ddg, bing, fetch, reports)
    requires ReportFor(subs[|reports|].0, subs[|reports|].1, ddg, bing, fetch, rep)
    ensures ReportsFor(subs, ddg, bing, fetch, reports + [rep])
  {
    var r := reports + [rep];
    forall k | 0 <= k < |r| ensures ReportFor(subs[k].0, subs[k].1, ddg, bing, fetch, r[k]) {
      if k < |reports| {
        assert r[k] == reports[k];
      }
    }
  }

  lemma ReportsForAppend(a: seq<(string, string)>, b: seq<(string, string)>, ddg: string -> seq<Json>,
                         bing: string -> seq<Json>, fetch: Task -> Fetch, ra: seq<Report>, rb: seq<Report>)
    requires |ra| == |a| && ReportsFor(a, ddg, bing, fetch, ra) && ReportsFor(b, ddg, bing, fetch, rb)
    ensures ReportsFor(a + b, ddg, bing, fetch, ra + rb)
  {
    forall k | 0 <= k < |ra + rb|
      ensures ReportFor((a + b)[k].0, (a + b)[k].1, ddg, bing, fetch, (ra + rb)[k])
    {
      if k >= |ra| {
        assert (a + b)[k] == b[k - |a|] && (ra + rb)[k] == rb[k - |ra|];
      }
    }
  }

  /** `scrape_and_save_images()` over the configured categories: one report
      per subcategory, in loop order, until a subcategory whose union raises
      ends the run (`completed` is then false). */
  method ScrapeAndSaveImages(categories: seq<Category>,
                             ddg: string -> seq<Json>, bing: string -> seq<Json>, fetch: Task -> Fetch)
    returns (reports: seq<Report>, completed: bool)
    ensures var subs := Subcategories(categories);
      ReportsFor(subs, ddg, bing, fetch, reports) &&
      (completed <==> |reports| == |subs|) &&
      (!completed ==> Unhashable(subs[|reports|].1, ddg, bing))
  {
    reports := [];
    for c := 0 to |categories|
      invariant |reports| == |Subcategories(categories[..c])|
      invariant ReportsFor(Subcategories(categories[..c]), ddg, bing, fetch, reports)
    {
      var more, done := ScrapeCategory(categories[c], ddg, bing, fetch);
      CategoryStep(categories, c, ddg, bing, fetch, reports, more);
      reports := reports + more;
      if !done {
        return reports, false;
      }
    }
    assert categories[..|categories|] == categories;
    completed := true;
  }

  /** What one pass of the outer loop adds: the reports of category `c`
      follow those of the categories before it. */
  lemma CategoryStep(categories: seq<Category>, c: nat, ddg: string -> seq<Json>, bing: string -> seq<Json>,
                     fetch: Task -> Fetch, reports: seq<Report>, more: seq<Report>)
    requires c < |categories|
    requires |reports| == |Subcategories(categories[..c])|
    requires ReportsFor(Subcategories(categories[..c]), ddg, bing, fetch, reports)
    requires ReportsFor(Pairs(categories[c]), ddg, bing, fetch, more)
    ensures ReportsFor(Subcategories(categories[..c + 1]), ddg, bing, fetch, reports + more)
    ensures ReportsFor(Subcategories(categories), ddg, bing, fetch, reports + more)
    ensures |more| == |categories[c].subcategories| ==> |reports + more| == |Subcategories(categories[..c + 1])|
    ensures |more| < |categories[c].subcategories| ==>
      |reports + more| < |Subcategories(categories)| &&
      Subcategories(categories)[|reports + more|] == (categories[c].name, categories[c].subcategories[|more|])
  {
    var before := Subcategories(categories[..c]);
    assert categories[..c + 1][..c] == categories[..c];
    assert Subcategories(categories[..c + 1]) == before + Pairs(categories[c]);
    ReportsForAppend(before, Pairs(categories[c]), ddg, bing, fetch, reports, more);
    SubcategoriesPrefix(categories, c + 1);
    ReportsForPrefix(Subcategories(categories[..c + 1]), Subcategories(categories), ddg, bing, fetch, reports + more);
    if |more| < |categories[c].subcategories| {
      assert Subcategories(categories)[|reports + more|] == Subcategories(categories[..c + 1])[|reports + more|];
    }
  }

  /** A report list for some pairs also fits any longer list that starts with them. */
  lemma ReportsForPrefix(a: seq<(string, string)>, b: seq<(string, string)>, ddg: string -> seq<Json>,
                         bing: string -> seq<Json>, fetch: Task -> Fetch, reports: seq<Report>)
    requires a <= b && ReportsFor(a, ddg, bing, fetch, reports)
    ensures ReportsFor(b, ddg, bing, fetch, reports)
  {
    forall k | 0 <= k < |reports| ensures ReportFor(b[k].0, b[k].1, ddg, bing, fetch, reports[k]) {
      assert b[k] == a[k];
    }
  }

  /** The subcategory loop of one category. */
  method ScrapeCategory(category: Category, ddg: string -> seq<Json>, bing: string -> seq<Json>, fetch: Task -> Fetch)
    returns (reports: seq<Report>, completed: bool)
    ensures ReportsFor(Pairs(category), ddg, bing, fetch, reports)
    ensures completed <==> |reports| == |category.subcategories|
    ensures !completed ==> Unhashable(category.subcategories[|reports|], ddg, bing)
  {
    reports := [];
    for s := 0 to |category.subcategories|
      invariant |reports| == s
      invariant ReportsFor(Pairs(category), ddg, bing, fetch, reports)
    {
      var rep := ScrapeSubcategory(category.name, category.subcategories[s], ddg, bing, fetch);
      if rep.None? {
        return reports, false;
      }
      ReportsForSnoc(Pairs(category), ddg, bing, fetch, reports, rep.value);
      reports := reports + [rep.value];
    }
    completed := true;
  }

  /** The pairs of the first `c` categories come first. */
  lemma {:induction false} SubcategoriesPrefix(categories: seq<Category>, c: nat)
    requires c <= |categories|
    ensures Subcategories(categories[..c]) <= Subcategories(categories)
    decreases |categories|
  {
    if c < |categories| {
      var init := categories[..|categories| - 1];
      assert categories[..c] == init[..c];
      SubcategoriesPrefix(init, c);
    } else {
      assert categories[..c] == categories;
    }
  }
}
