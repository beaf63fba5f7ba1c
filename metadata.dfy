/** scripts/generate_metadata.py: one metadata record per readable `.jpg`
    file of an image folder, written as a JSON list. */
module Metadata {
  import opened Wrappers
  import opened Json
  import opened Text

  /** `f"../raw_images/{domain}_{language}"` */
  function Folder(domain: string, language: string): string
  {
    "../raw_images/" + domain + "_" + language
  }

  /** `os.path.join(folder, filename)` */
  function FilePath(folder: string, filename: string): string
  {
    folder + "/" + filename
  }

  function Record(filename: string, width: int, height: int, language: string, domain: string): Json
  {
    Obj([Entry("file_name", Str(filename)), Entry("width", Num(width)), Entry("height", Num(height)),
         Entry("language", Str(language)), Entry("domain", Str(domain))])
  }

  /** The records for a listing, in listing order: names ending in ".jpg"
      (case-sensitive) whose image opens, with the size `open` reports;
      `open` gives `None` when `Image.open` raises. */
  function Records(domain: string, language: string, listing: seq<string>,
                   open: string -> Option<(int, int)>): (r: seq<Json>)
    ensures |r| <= |listing|
  {
    if listing == [] then []
    else
      var init := Records(domain, language, listing[..|listing| - 1], open);
      var filename := listing[|listing| - 1];
      if EndsWith(filename, ".jpg") && open(FilePath(Folder(domain, language), filename)).Some? then
        var size := open(FilePath(Folder(domain, language), filename)).value;
        init + [Record(filename, size.0, size.1, language, domain)]
      else init
  }

  /** `generate_metadata_from_folder(domain, language)`: `listing` is
      `os.listdir(folder)`, `None` when the folder cannot be listed (an
      uncaught error). The list is written even when it is empty. */
  method GenerateMetadataFromFolder(domain: string, language: string, listing: Option<seq<string>>,
                                    open: string -> Option<(int, int)>) returns (r: Outcome)
    ensures listing.None? ==> r == Aborted
    ensures listing.Some? ==> r == Written(Arr(Records(domain, language, listing.value, open)))
  {
    if listing.None? {
      return Aborted;
    }
    var names := listing.value;
    var folder := Folder(domain, language);
    var meta: seq<Json> := [];
    for i := 0 to |names|
      invariant meta == Records(domain, language, names[..i], open)
    {
      assert names[..i + 1][..i] == names[..i];
      var filename := names[i];
      if EndsWith(filename, ".jpg") {
        var size := open(FilePath(folder, filename));
        if size.Some? {
          meta := meta + [Record(filename, size.value.0, size.value.1, language, domain)];
        }
      }
    }
    assert names[..|names|] == names;
    return Written(Arr(meta));
  }

  /** Records follow the listing order: the records of a listing split in
      two are those of each part, one after the other. */
  lemma {:induction false} RecordsAppend(domain: string, language: string, a: seq<string>, b: seq<string>,
                                         open: string -> Option<(int, int)>)
    ensures Records(domain, language, a + b, open) == Records(domain, language, a, open) + Records(domain, language, b, open)
    decreases |b|
  {
    if b == [] {
      assert a + b == a;
    } else {
      var ab := a + b;
      var b' := b[..|b| - 1];
      assert ab[..|ab| - 1] == a + b' && ab[|ab| - 1] == b[|b| - 1];
      RecordsAppend(domain, language, a, b', open);
      var x, y := Records(domain, language, a, open), Records(domain, language, b', open);
      var filename := b[|b| - 1];
      var extra := if EndsWith(filename, ".jpg") && open(FilePath(Folder(domain, language), filename)).Some?
        then [Record(filename, open(FilePath(Folder(domain, language), filename)).value.0,
                     open(FilePath(Folder(domain, language), filename)).value.1, language, domain)]
        else [];
      assert Records(domain, language, b, open) == y + extra;
      assert Records(domain, language, ab, open) == (x + y) + extra;
      AppendAssoc(x, y, extra);
    }
  }

  /** Every record is for a ".jpg" name of the listing whose image opened,
      with its reported size and the given language and domain; and every
      such name has a record. */
  lemma {:induction false} RecordsExact(domain: string, language: string, listing: seq<string>,
                                        open: string -> Option<(int, int)>)
    ensures forall rec :: rec in Records(domain, language, listing, open) <==>
      exists f :: f in listing && EndsWith(f, ".jpg") && open(FilePath(Folder(domain, language), f)).Some? &&
        rec == Record(f, open(FilePath(Folder(domain, language), f)).value.0,
                      open(FilePath(Folder(domain, language), f)).value.1, language, domain)
  {
    if listing != [] {
      var init := listing[..|listing| - 1];
      RecordsExact(domain, language, init, open);
      assert listing == init + [listing[|listing| - 1]];
    }
  }
}
