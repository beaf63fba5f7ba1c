/** scripts/image_scraper.py: download search results, keep only images that
    are large enough and not too elongated, and number the saved files
    without gaps. */
module SizeFilter {
  import opened Text

  const MinSide: int := 300
  const MaxAspect: int := 4

  /** What happened to one search result before the size checks: something
      raised (no "image" key, the request, the decode), or the image decoded
      with its size, together with whether saving it then succeeded. */
  datatype Probe = Failed | Decoded(width: int, height: int, saved: bool)

  /** Neither side below 300 pixels, and neither side more than four times
      the other: exactly 4:1 passes. */
  predicate Admitted(width: int, height: int)
  {
    !(width < MinSide || height < MinSide) && !(width > MaxAspect * height || height > MaxAspect * width)
  }

  /** The result ends up as a file: decoded, admitted and saved. */
  predicate Saves(p: Probe)
  {
    p.Decoded? && Admitted(p.width, p.height) && p.saved
  }

  /** Indices of the results that end up as files, in order. */
  function SavedIndices(probes: seq<Probe>): (r: seq<nat>)
    ensures |r| <= |probes|
    ensures forall k :: 0 <= k < |r| ==> r[k] < |probes| && Saves(probes[r[k]])
    ensures forall k, l :: 0 <= k < l < |r| ==> r[k] < r[l]
    ensures forall i :: 0 <= i < |probes| && Saves(probes[i]) ==> i in r
  {
    if probes == [] then []
    else
      var init := SavedIndices(probes[..|probes| - 1]);
      if Saves(probes[|probes| - 1]) then init + [|probes| - 1] else init
  }

  /** One more result adds its index exactly when it saves. */
  lemma SavedIndicesStep(probes: seq<Probe>, i: nat)
    requires i < |probes|
    ensures SavedIndices(probes[..i + 1])
            == if Saves(probes[i]) then SavedIndices(probes[..i]) + [i] else SavedIndices(probes[..i])
  {
    assert probes[..i + 1][..i] == probes[..i];
  }

  /** `brain_scan_{count}.jpg` */
  function FileName(count: nat): string
  {
    "brain_scan_" + Decimal(count) + ".jpg"
  }

  /** Appending the next name keeps a run of names numbered from `first` gap-free. */
  lemma NumberedSnoc(files: seq<string>, first: nat)
    requires forall k :: 0 <= k < |files| ==> files[k] == FileName(first + k)
    ensures var f := files + [FileName(first + |files|)];
      forall k :: 0 <= k < |f| ==> f[k] == FileName(first + k)
  {
  }

  /** The download loop: `count` starts at 1 and goes up only after a save;
      a result that raises or fails a size check is skipped and the loop
      goes on. Returns the files written, with the index of the result each
      came from. */
  method DownloadResults(probes: seq<Probe>) returns (files: seq<string>, sources: seq<nat>)
    ensures sources == SavedIndices(probes)
    ensures |files| == |sources| && forall k :: 0 <= k < |files| ==> files[k] == FileName(k + 1)
  {
    files := [];
    sources := [];
    var count := 1;
    for i := 0 to |probes|
      invariant sources == SavedIndices(probes[..i])
      invariant count == |files| + 1 && |files| == |sources|
      invariant forall k :: 0 <= k < |files| ==> files[k] == FileName(k + 1)
    {
      SavedIndicesStep(probes, i);
      var p := probes[i];
      var kept := p.Decoded?
        && !(p.width < MinSide || p.height < MinSide)
        && !(p.width > MaxAspect * p.height || p.height > MaxAspect * p.width)
        && p.saved;
      assert kept == Saves(p);
      if kept {
        NumberedSnoc(files, 1);
        files := files + [FileName(count)];
        sources := sources + [i];
        count := count + 1;
      }
    }
    assert probes[..|probes|] == probes;
  }

  /** Boundary cases of the filter. */
  lemma AdmittedBounds(w: int, h: int)
    ensures Admitted(w, h) ==> w >= 300 && h >= 300 && w <= 4 * h && h <= 4 * w
    ensures w >= 300 && h >= 300 && w <= 4 * h && h <= 4 * w ==> Admitted(w, h)
    ensures Admitted(1200, 300) && !Admitted(1201, 300) && !Admitted(299, 1000)
  {
  }

  /** File names differ for different counts. */
  lemma FileNamesDistinct(k: nat, m: nat)
    requires k != m
    ensures FileName(k) != FileName(m)
  {
    if FileName(k) == FileName(m) {
      Middle("brain_scan_", Decimal(k), Decimal(m), ".jpg");
      DecimalValue(k);
      DecimalValue(m);
    }
  }
}
