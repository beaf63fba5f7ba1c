# Image-gem enrichment and image scraping scripts, modelled in Dafny

The repository builds a multilingual image dataset with a set of Python
scripts. Some scripts walk a JSON taxonomy of domains and subdomains.
For each leaf they ask a language model for search keywords, run one
image search per keyword, and store the links they find as `image_gems`
lists. Other scripts download images from search engines or from
PubMed Central and write a metadata file for a folder of images.

This project models the ten scripts under `scripts/`, one module each.
Shared modules hold what several scripts do in the same way:

| module | file | what it holds |
|---|---|---|
| `Json` (`json.dfy`) | shared | JSON values, Python dict assignment (`Put`), `dict.get`, the `setdefault` descent (`SetDefaultPath`), path lookup and the all-or-nothing value map used for in-place loops |
| `Text` (`text.dfy`) | shared | `join`, substring `in`, `endswith`, ASCII `lower`, `replace`, `str(n)`, `zfill` |
| `Gather` (`gather.dfy`) | shared | the per-leaf keyword loop `images.extend(search(kw))` |
| `SerpApi` (`serp_api.dfy`) | shared | the two ways a SerpAPI response becomes link records |
| `ArabicLinks` | `scripts/enrich_arabic_links.py` | the recursive walk that mirrors empty objects into a fresh output tree |
| `RemainingArabic` | `scripts/enrich_remaining_arabic_links.py` | the Google HTML scrape and the walk that keys the output by the joined path |
| `DomainImageGems` | `scripts/enrich_domain_image_gems.py` | the in-place enrichment of every subdomain not yet enriched |
| `AutoEnrich` | `scripts/auto_enrich_taxonomy.py` | the in-place replacement of every empty-list subdomain |
| `OpenRouterSerp` | `scripts/enrich_gems_from_openrouter_serpapi.py` | the enrichment of one configured subdomain through `setdefault` |
| `PhysicsOptics` | `scripts/enrich_physics_optics_arabic.py` | the per-language update of one configured subdomain |
| `BatchDownload` | `scripts/image_scraper_2.py` | URL union, download planning, parallel download and tally |
| `SizeFilter` | `scripts/image_scraper.py` | the size and aspect filter and the numbering of saved files |
| `Pubmed` | `scripts/pubmed_scraper.py` | the figure-extension filter, the URL form and the numbering of saved files |
| `Metadata` | `scripts/generate_metadata.py` | the metadata records for the `.jpg` files of a folder |

Modelling conventions:

- External services are parameters of the model. This covers the
  language-model keyword call, SerpAPI, the Google result page,
  DuckDuckGo, Bing, Entrez, HTTP downloads and PIL. A service that fails
  is modelled by the value the script's handler then yields. Usually
  that is `[]`.
- An uncaught Python exception becomes `None`, or `Aborted` for a run
  that writes a file.
- A run's effect on its output file is an `Outcome`: `Written(doc)`,
  `NotWritten` or `Aborted`.
- A dict the script mutates in place is modelled by returning its new
  value.
- Where a script's loop mutates state, the model has a `method` with a
  loop. That method is proved equal to a recursive function, and the
  lemmas are stated about the function.

## Model

| member | source | states |
|---|---|---|
| Json.Get | scripts/enrich_domain_image_gems.py:96 | a key is found exactly when it is one of the object's keys |
| Json.GetAt | scripts/enrich_domain_image_gems.py:95 | with distinct keys, looking up the i-th key gives the i-th value |
| Json.Put | scripts/enrich_domain_image_gems.py:116 | after `d[k] = v`, `k` reads `v` and every other key reads as before |
| Json.PutAbsent | scripts/enrich_physics_optics_arabic.py:68-69 | assigning a missing key appends it at the end, as insertion order does |
| Json.PutKeys | scripts/enrich_domain_image_gems.py:116 | assignment keeps the key order and adds a new key last |
| Json.PutDistinct | scripts/enrich_domain_image_gems.py:116 | assignment keeps keys distinct |
| Json.PutPut | scripts/enrich_physics_optics_arabic.py:69-74 | a second assignment to the same key overrides the first |
| Json.MapValues | scripts/auto_enrich_taxonomy.py:43-48 | an in-place pass over the values succeeds exactly when no value's step raises; it keeps length and keys, and the i-th value is the step's result |
| Json.MapValuesKeys | scripts/auto_enrich_taxonomy.py:43-48 | an in-place pass over the values keeps the keys in order |
| Json.LookupAppend | scripts/enrich_arabic_links.py:76-77 | following `p + q` is following `p`, then `q` |
| Json.SetDefaultPathSucceeds | scripts/enrich_gems_from_openrouter_serpapi.py:102 | the `setdefault` chain raises exactly when a level it meets exists and is not an object |
| Json.SetDefaultPathWrites | scripts/enrich_arabic_links.py:75-78 | after the chain, `path + [key]` reads the assigned value |
| Json.SetDefaultPathFrame | scripts/enrich_arabic_links.py:75-78 | every path that leaves `path + [key]` reads as before |
| Json.SetDefaultPathKeys | scripts/enrich_gems_from_openrouter_serpapi.py:102 | the top-level keys keep their order, and the path's first key is appended when it was missing |
| Json.ObjectsAlongPreserved | scripts/enrich_arabic_links.py:75-78 | a `setdefault` chain leaves every path apart from the one it writes with only objects (or nothing) along it, if that held before |
| Text.Decimal | scripts/image_scraper_2.py:164 | `str(n)` is a non-empty string of digits |
| Text.Zeros | scripts/image_scraper_2.py:164 | the padding is exactly `n` zeros |
| Text.ZFill | scripts/image_scraper_2.py:164 | `zfill(w)` is the string itself preceded by just enough '0' characters to reach `w`, and never shortens it |
| Text.ZFillValue | scripts/image_scraper_2.py:164 | zero-padding keeps a digit string a digit string with the same value |
| Text.DecimalValue | scripts/image_scraper_2.py:164 | reading back the decimal form gives the number |
| Text.ZerosValue | scripts/image_scraper_2.py:164 | leading zeros do not change a digit string's value |
| Text.ZFillInjective | scripts/image_scraper_2.py:164 | distinct numbers have distinct zero-padded forms |
| Text.LowerAppend | scripts/pubmed_scraper.py:36 | lowering distributes over concatenation, so a lowered suffix is the suffix lowered |
| Gather.CollectImages | scripts/enrich_gems_from_openrouter_serpapi.py:120-125 | the loop returns every keyword's links in keyword order |
| Gather.ConcatCons | scripts/enrich_domain_image_gems.py:108-113 | the first keyword's links come first, then the rest |
| Gather.ConcatEmpty | scripts/enrich_domain_image_gems.py:115-119 | nothing is gathered exactly when every keyword's search returns nothing |
| Gather.ConcatBound | scripts/enrich_gems_from_openrouter_serpapi.py:120-125 | with at most n links per search, at most n links per keyword |
| SerpApi.FirstFive | scripts/enrich_arabic_links.py:56 | `[:5]` is exactly the first `min(5, len)` results |
| SerpApi.MapOriginals | scripts/enrich_arabic_links.py:57 | indexing `img["original"]` succeeds exactly when every result has it; then one record per result, in order |
| SerpApi.FirstOriginals | scripts/enrich_arabic_links.py:46-60 | at most five records; none exactly when there are no results or one lacks "original"; otherwise one record per result with its original |
| SerpApi.PickUrlsRecords | scripts/enrich_domain_image_gems.py:74-80 | the filtering comprehension raises exactly on a non-object result; otherwise at most one record per result, each with a truthy url that is the preferred url of some result |
| SerpApi.PickUrlsSources | scripts/enrich_domain_image_gems.py:74-80 | every record is the link record of the preferred url (`original or thumbnail`) of some object result |
| SerpApi.PickUrlsAppend | scripts/enrich_domain_image_gems.py:74-80 | filtering keeps the results' order |
| SerpApi.PickUrlsPrefersOriginal | scripts/enrich_gems_from_openrouter_serpapi.py:84 | when every result has a truthy "original", each result's record holds it, in order |
| SerpApi.PickUrlsFallsBack | scripts/enrich_gems_from_openrouter_serpapi.py:84-87 | a result with a falsy "original" and a truthy "thumbnail" contributes the thumbnail's record, before the records of the later results |
| SerpApi.PickUrlsDropsBare | scripts/enrich_gems_from_openrouter_serpapi.py:87 | a result with neither a truthy "original" nor a truthy "thumbnail" adds nothing |
| SerpApi.OriginalOrThumbnail | scripts/enrich_gems_from_openrouter_serpapi.py:69-92 | at most five records, each the link record of the preferred url of one of the first five results; none when one of them is not an object; otherwise exactly the filtered records of the first five |
| ArabicLinks.EnrichLinks | scripts/enrich_arabic_links.py:63-81 | the loop-and-recurse walk computes the walk function |
| ArabicLinks.TopLevelEmptyDictAborts | scripts/enrich_arabic_links.py:66 | an empty object at the top level makes `path[0]` raise |
| ArabicLinks.WalkFrame | scripts/enrich_arabic_links.py:63-81 | every output path that leaves all leaves reads as before the walk |
| ArabicLinks.WalkWritesLeaf | scripts/enrich_arabic_links.py:75-78 | every empty object of the input gets, at its path plus "image_gems", the links for that leaf |
| ArabicLinks.WalkSucceeds | scripts/enrich_arabic_links.py:63-81 | below the top level the walk never raises when only objects lie along the leaf paths still to be written, and it keeps that for paths apart from what it writes |
| ArabicLinks.HeadSucceeds | scripts/enrich_arabic_links.py:65-81 | the walk's step for its first entry succeeds and leaves the later entries' leaf paths open |
| ArabicLinks.RunOutput | scripts/enrich_arabic_links.py:83-91 | the run aborts exactly when the top level holds an empty object, and is written otherwise; then each leaf's path plus "image_gems" holds its links, and every path away from the leaves reads as in `{}` |
| RemainingArabic.Candidates | scripts/enrich_remaining_arabic_links.py:68-71 | each kept src is non-empty, contains "http", and comes from the page |
| RemainingArabic.CandidatesAppend | scripts/enrich_remaining_arabic_links.py:68-71 | the src filter keeps page order |
| RemainingArabic.Take | scripts/enrich_remaining_arabic_links.py:72-73 | the loop stops with exactly the first `min(limit, len)` elements |
| RemainingArabic.LinkRecords | scripts/enrich_remaining_arabic_links.py:74 | one link record per URL, in order |
| RemainingArabic.GoogleImageScrape | scripts/enrich_remaining_arabic_links.py:61-77 | the scrape loop computes the scrape function |
| RemainingArabic.ScrapeShape | scripts/enrich_remaining_arabic_links.py:61-77 | with `limit >= 1`: exactly `min(limit, candidates)` records, the i-th the link record of the i-th "http" src of the page |
| RemainingArabic.RecursiveEnrich | scripts/enrich_remaining_arabic_links.py:87-107 | the loop-and-recurse walk computes the walk function, and raises on a node that is not an object |
| RemainingArabic.TruthyNonMappingAborts | scripts/enrich_remaining_arabic_links.py:106-107 | a truthy value that is not an object makes the recursive `.items()` raise |
| RemainingArabic.EnrichSucceeds | scripts/enrich_remaining_arabic_links.py:87-107 | when every truthy value below the top is an object, the walk does not raise |
| RemainingArabic.EnrichGrows | scripts/enrich_remaining_arabic_links.py:101-102 | the output only gains keys, in order |
| RemainingArabic.EnrichFrame | scripts/enrich_remaining_arabic_links.py:87-107 | a key that no non-empty leaf's joined path equals reads as before |
| RemainingArabic.EnrichWrites | scripts/enrich_remaining_arabic_links.py:90-102 | a falsy leaf whose links are non-empty, and whose " > "-joined path no other leaf with links shares, stores those links under that path |
| RemainingArabic.EnrichWritesHead | scripts/enrich_remaining_arabic_links.py:88-107 | the same for a leaf under the walk's first entry |
| RemainingArabic.Run | scripts/enrich_remaining_arabic_links.py:109-113 | a written output is an object |
| RemainingArabic.RunOutput | scripts/enrich_remaining_arabic_links.py:87-113 | the run is written exactly when every truthy value in the tree is an object; then the output has keys only for leaves that found links, each holding its leaf's links |
| DomainImageGems.EnrichSubdomain | scripts/enrich_domain_image_gems.py:95-119 | raises exactly when a not-yet-enriched, non-object subdomain finds links; enriched or nothing found leaves it as it is; an object that finds links gets "image_gems" set to the gathered links, every other key as before |
| DomainImageGems.EnrichDomainImageGems | scripts/enrich_domain_image_gems.py:94-119 | the outer loop computes the walk function |
| DomainImageGems.EnrichSubdomains | scripts/enrich_domain_image_gems.py:95-119 | the inner loop computes the domain step |
| DomainImageGems.AllEnrichedUnchanged | scripts/enrich_domain_image_gems.py:96-98 | a taxonomy with every subdomain enriched is left as it is |
| DomainImageGems.EnrichAllShape | scripts/enrich_domain_image_gems.py:94-119 | the walk keeps domain and subdomain keys in order, and each subdomain becomes what the subdomain step makes of it |
| DomainImageGems.EnrichDomainShape | scripts/enrich_domain_image_gems.py:95-119 | within one domain: subdomain keys kept in order, each subdomain replaced by the subdomain step's result |
| DomainImageGems.NothingFoundUnchanged | scripts/enrich_domain_image_gems.py:104-106 | a subdomain with no keywords or no links is left as it is |
| DomainImageGems.Run | scripts/enrich_domain_image_gems.py:86-122 | an unreadable file is not written; the run aborts exactly when the walk raises, and otherwise writes the walk's result |
| DomainImageGems.RunAllEnriched | scripts/enrich_domain_image_gems.py:94-122 | a taxonomy whose subdomains are all enriched is written back as it was read |
| AutoEnrich.EnrichDomains | scripts/auto_enrich_taxonomy.py:42-49 | the outer loop computes the walk function |
| AutoEnrich.EnrichSubdomains | scripts/auto_enrich_taxonomy.py:44-49 | the inner loop computes the domain step |
| AutoEnrich.EnrichAllShape | scripts/auto_enrich_taxonomy.py:42-49 | the walk keeps domain and subdomain keys in order; each empty list becomes exactly the model's answer and every other value is unchanged |
| AutoEnrich.EnrichDomainShape | scripts/auto_enrich_taxonomy.py:44-49 | within one domain: a non-object value is an empty list or string and stays; in an object, keys are kept and only empty lists are replaced, by the model's answer |
| AutoEnrich.NoEmptyListsUnchanged | scripts/auto_enrich_taxonomy.py:45 | without empty lists the walk changes nothing |
| AutoEnrich.SecondRunUnchanged | scripts/auto_enrich_taxonomy.py:45-48 | once every empty list was filled with something non-empty, a second run changes nothing |
| AutoEnrich.AbortsIff | scripts/auto_enrich_taxonomy.py:38-40 | on walkable domains, the run raises exactly when the model call fails for some empty-list subdomain |
| AutoEnrich.Run | scripts/auto_enrich_taxonomy.py:51-58 | the file is always written or the run aborts; written exactly when the load and the walk succeed, and then with the walk's result |
| AutoEnrich.SecondRunWritesSame | scripts/auto_enrich_taxonomy.py:42-58 | running again over the file a run wrote, after non-empty answers, writes the same document |
| OpenRouterSerp.UpdateJsonFile | scripts/enrich_gems_from_openrouter_serpapi.py:95-105 | written exactly when every existing level is an object; the subdomain's "image_gems" reads the new links; every other path reads as before |
| OpenRouterSerp.UpdateUnreadable | scripts/enrich_gems_from_openrouter_serpapi.py:99-102 | an unreadable file yields a document holding only the new list |
| OpenRouterSerp.UpdateOverwrites | scripts/enrich_gems_from_openrouter_serpapi.py:102 | an existing "image_gems" is replaced and the subdomain's other keys are kept |
| OpenRouterSerp.EnrichConfigured | scripts/enrich_gems_from_openrouter_serpapi.py:110-130 | nothing is written exactly when there are no keywords or no links; otherwise the configured subdomain stores the concatenated links |
| OpenRouterSerp.StoredLinks | scripts/enrich_gems_from_openrouter_serpapi.py:80 | at most five stored links per keyword |
| PhysicsOptics.UpdateJsonFile | scripts/enrich_physics_optics_arabic.py:60-83 | an unreadable file aborts; no links means no write; otherwise the missing levels are created and the language key is set |
| PhysicsOptics.UpdateSucceeds | scripts/enrich_physics_optics_arabic.py:68-74 | the update succeeds exactly when every existing level is an object |
| PhysicsOptics.UpdateResult | scripts/enrich_physics_optics_arabic.py:74-76 | the language key holds exactly the new object (replaced, not merged); every path away from it reads as before |
| PhysicsOptics.UpdateCreates | scripts/enrich_physics_optics_arabic.py:68-71 | a missing domain is added last, holding only the new subdomain and language |
| BatchDownload.Query | scripts/image_scraper_2.py:151 | the query starts with the subcategory and ends with the fixed Arabic suffix |
| BatchDownload.ObjectRun | scripts/image_scraper_2.py:106-111 | collection stops at the first result that is not an object |
| BatchDownload.TruthyImages | scripts/image_scraper_2.py:107-109 | at most one element per result, each truthy and the "image" field of some result |
| BatchDownload.TruthyImagesComplete | scripts/image_scraper_2.py:107-109 | every truthy "image" field of a result is kept |
| BatchDownload.TruthyImagesAppend | scripts/image_scraper_2.py:106-111 | the fields are kept in result order |
| BatchDownload.FetchDdgUrls | scripts/image_scraper_2.py:102-112 | the loop returns the truthy images of the results before the first failure |
| BatchDownload.UnionUrls | scripts/image_scraper_2.py:152-155 | `update` raises exactly when some URL is a list or an object; otherwise the set holds every URL found, no two with equal hash keys, and only URLs found |
| BatchDownload.Plan | scripts/image_scraper_2.py:159-167 | one task per URL, in order; the k-th URL (from 0) is saved under the category directory as `img_<subcat>_<k+1 padded to 4>.jpg` |
| BatchDownload.PlanTasks | scripts/image_scraper_2.py:159-167 | the planning loop, with its running counter, builds exactly that plan |
| BatchDownload.SavePathInjective | scripts/image_scraper_2.py:164-165 | different numbers give different save paths |
| BatchDownload.UnionCard | scripts/image_scraper_2.py:152-157 | the set has as many members as the found URLs have distinct hash keys (so `True` and `1` count once) |
| BatchDownload.HashesDistinct | scripts/image_scraper_2.py:152-155 | members with distinct hash keys are distinct URLs |
| BatchDownload.TasksDistinct | scripts/image_scraper_2.py:159-167 | planned tasks have pairwise distinct save paths and URLs |
| BatchDownload.DownloadImage | scripts/image_scraper_2.py:122-131 | success only with status 200 and a saved image; a raise is a failure |
| BatchDownload.CountTrue | scripts/image_scraper_2.py:175 | the count of successes is at most the number of tasks |
| BatchDownload.Tally | scripts/image_scraper_2.py:175 | `sum(results)` is the number of successes |
| BatchDownload.DownloadAll | scripts/image_scraper_2.py:172-173 | one result per task, in task order, each the outcome of that task's download |
| BatchDownload.ScrapeSubcategory | scripts/image_scraper_2.py:150-176 | raises exactly when the union does; otherwise the tasks are the plan of the union of this subcategory's URLs, the tally counts their successful downloads, and there are as many tasks as distinct URLs, with distinct paths and URLs |
| BatchDownload.ScrapeAndSaveImages | scripts/image_scraper_2.py:141-176 | the k-th report is that of the k-th (category, subcategory) pair in loop order; the run completes exactly when every pair has one, and otherwise stops at a pair whose union raises |
| BatchDownload.ScrapeCategory | scripts/image_scraper_2.py:148-176 | the subcategory loop of one category gives the reports of its subcategories in order, stopping at one whose union raises |
| BatchDownload.ReportsForAppend | scripts/image_scraper_2.py:144-148 | the reports of one category follow the complete reports of the categories before it |
| SizeFilter.SavedIndices | scripts/image_scraper.py:26-39 | the saved results are exactly those that load and pass both filters, in order |
| SizeFilter.DownloadResults | scripts/image_scraper.py:25-42 | the loop saves exactly those results, numbered from 1 without gaps |
| SizeFilter.AdmittedBounds | scripts/image_scraper.py:32-35 | admitted means at least 300 each way and an aspect ratio of at most 4 |
| SizeFilter.FileNamesDistinct | scripts/image_scraper.py:37 | different counts give different file names |
| Pubmed.Requested | scripts/pubmed_scraper.py:30-39 | each requested URL is the article's bin URL for a non-empty href with a known extension |
| Pubmed.Keep | scripts/pubmed_scraper.py:40-46 | only requested URLs whose download was saved are kept |
| Pubmed.RequestedComplete | scripts/pubmed_scraper.py:30-39 | every figure with a graphic, a non-empty href and a known extension has its URL requested |
| Pubmed.RequestedAppend | scripts/pubmed_scraper.py:30-39 | figures are requested in document order |
| Pubmed.KeepComplete | scripts/pubmed_scraper.py:40-48 | a requested URL whose download is saved is kept, whatever happened to the URLs before it |
| Pubmed.KeepAppend | scripts/pubmed_scraper.py:40-48 | downloads are handled one by one, in request order |
| Pubmed.ScrapeArticles | scripts/pubmed_scraper.py:24-50 | the outer loop saves exactly the saved URLs, numbered from 1 without gaps |
| Pubmed.ScrapeFigures | scripts/pubmed_scraper.py:30-48 | the figure loop saves the kept URLs, numbered on from the running count |
| Pubmed.SavedUrlsAppend | scripts/pubmed_scraper.py:24-50 | articles are processed in order |
| Pubmed.SavedUrlsShape | scripts/pubmed_scraper.py:24-50 | every saved URL was saved, and is a bin URL of a listed article with a known extension |
| Pubmed.SavedUrlsComplete | scripts/pubmed_scraper.py:24-50 | every eligible figure of a readable listed article whose download is saved ends up among the saves, so no failure stops the run |
| Pubmed.ExtensionIgnoresCase | scripts/pubmed_scraper.py:36 | the extension test gives the same answer after lowering any tail of the href, so `.PNG` and `.JpEg` are kept |
| Metadata.Records | scripts/generate_metadata.py:9-23 | at most one record per listed file |
| Metadata.GenerateMetadataFromFolder | scripts/generate_metadata.py:4-26 | an unreadable folder aborts; otherwise the written file is the list of records |
| Metadata.RecordsAppend | scripts/generate_metadata.py:9-23 | records follow listing order |
| Metadata.RecordsExact | scripts/generate_metadata.py:9-23 | a record appears exactly for a listed `.jpg` that opens, with its size, language and domain |

## Left out

- Network services are not modelled: the language-model calls (OpenRouter,
  Groq), SerpAPI, the Google result page, DuckDuckGo, Bing, Entrez and
  image downloads. They are function parameters, and a failure is the
  value the script's handler yields.
- Prompt texts and model names are not modelled. They only shape what
  the service returns.
- A keyword reply is modelled as a list of strings. `json.loads` of a
  reply with another shape is not modelled: a string would be iterated
  by character, and a dict by key.
- `extract_json_block` (scripts/enrich_physics_optics_arabic.py:18-27)
  is not modelled. It is a regular-expression search plus `json.loads`,
  so its result is the `links` parameter.
- HTML and XML parsing (BeautifulSoup, ElementTree) is not modelled. The
  page is given as its list of `src` attributes, and an article as its
  figures.
- Image decoding (PIL) is not modelled. It is given as a probe per
  result: failed, or a width and a height.
- Reading and writing files is not modelled. It is an `Option` input and
  an `Outcome` result. `os.makedirs`, `time.sleep`, `tqdm` and every
  print are left out.
- `ThreadPoolExecutor.map` is modelled as a sequential map. It returns
  results in task order, and the downloads write different files.
- The iteration order of the Python URL set is not modelled. `UnionUrls`
  keeps the first of the URLs that hash alike, in the order found, and
  the lemmas state only contents, distinctness and count. A URL is any
  JSON value the engine returned: a list or an object is unhashable and
  makes `update` raise, and `True` and `1` (`False` and `0`) hash alike,
  so only one of each pair is kept. Equal hash keys of other kinds are
  taken to be equal values (a string never equals a number).
- `os.path.join` is modelled as concatenation with "/".
- `Text.Lower` covers ASCII letters only.
- The `categories` table of scripts/image_scraper_2.py is a parameter.
- scripts/fetch_sources_groq.py is not part of this model.
- AutoEnrich.EnrichDomain: a domain value that is a non-empty list or
  string is modelled as raising. Python would iterate it and then index
  it with the elements, which raises for every element except an int
  index into a list.
- RemainingArabic.EnrichWrites: requires that no other falsy leaf whose
  links are non-empty has the same " > "-joined path. When two such
  leaves collide, the later one's links win, and that case is not
  stated.
- JSON numbers are modelled as integers (`Num(int)`). A float from
  `json.load` cannot be represented, so the falsiness of `0.0` in the
  `if not value` test of scripts/enrich_remaining_arabic_links.py:90 is
  not modelled.
- BatchDownload.ScrapeAndSaveImages: two subcategories of one category
  whose names differ only in spaces versus underscores would share file
  names. That is not stated.
- Nested loops that assign into the dict they iterate are modelled as an
  outer and an inner method. Each method is proved against its function.
- ArabicLinks.RunOutput: states the "image_gems" value at each leaf path,
  not that the leaf object holds no other key.
