/** The asset catalog: a lazily loaded cache of catalog records keyed by
    asset ID, and the lookup of an asset's image file by trying a fixed list
    of extensions. The catalog document and the set of existing files are
    inputs of the model. */
module AssetsRepository {
  import opened Wrappers
  import opened NanoBananaModels

  /** One element of the catalog's "assets" list: a record that parses as an
      Asset, an object that does not (skipped with an error log), or a value
      that is not an object at all (its error handler fails too, which aborts
      the whole load). */
  datatype CatalogEntry = Record(asset: Asset) | Unparseable | NonObject

  /** The catalog file: absent, not valid JSON, or a document with its entries. */
  datatype CatalogSource = Missing | Malformed | Document(entries: seq<CatalogEntry>)

  /** How many entries the loader processes before a non-object aborts it. */
  function AbortIndex(entries: seq<CatalogEntry>): (k: nat)
    ensures k <= |entries|
    ensures forall j :: 0 <= j < k ==> !entries[j].NonObject?
    ensures k < |entries| ==> entries[k].NonObject?
  {
    if |entries| == 0 then 0
    else if entries[0].NonObject? then 0
    else 1 + AbortIndex(entries[1..])
  }

  function Insert(cache: map<string, Asset>, e: CatalogEntry): map<string, Asset>
  {
    if e.Record? then cache[e.asset.assetId := e.asset] else cache
  }

  /** The cache after inserting `entries` in order into `cache`. */
  function Fill(cache: map<string, Asset>, entries: seq<CatalogEntry>): map<string, Asset>
  {
    if |entries| == 0 then cache
    else Insert(Fill(cache, entries[..|entries| - 1]), entries[|entries| - 1])
  }

  /** The map a load builds from an empty cache. */
  function Loaded(source: CatalogSource): map<string, Asset>
  {
    if source.Document? then Fill(map[], source.entries[..AbortIndex(source.entries)]) else map[]
  }

  /** A load sets the loaded flag only when it gets through the whole document. */
  predicate LoadSucceeds(source: CatalogSource)
  {
    source.Document? && AbortIndex(source.entries) == |source.entries|
  }

  /** One call of `load_catalog` on the cache and flag it finds, reading the
      catalog file as it is at that moment: nothing happens once loaded or
      when the file is missing or malformed; otherwise the entries before the
      first non-object go into the cache as it is, and the flag is set only
      when that is all of them. */
  function LoadStep(cache: map<string, Asset>, loaded: bool, source: CatalogSource): (map<string, Asset>, bool)
  {
    if loaded || !source.Document? then (cache, loaded)
    else (Fill(cache, source.entries[..AbortIndex(source.entries)]), LoadSucceeds(source))
  }

  /** A load that did not succeed, retried once the file is fixed, succeeds;
      what the first attempt put in the cache stays there unless the fixed
      file redefines it. */
  lemma RetryAfterFix(first: CatalogSource, fixed: CatalogSource)
    requires !LoadSucceeds(first) && LoadSucceeds(fixed)
    ensures var s1 := LoadStep(map[], false, first);
      var s2 := LoadStep(s1.0, s1.1, fixed);
      && !s1.1 && s1.0 == Loaded(first)
      && s2.1 && s2.0 == Loaded(first) + Loaded(fixed)
  {
    var entries := fixed.entries;
    assert entries[..AbortIndex(entries)] == entries;
    FillOverrides(Loaded(first), entries);
  }

  /** Loading into a non-empty cache overrides it with what the entries define. */
  lemma {:induction false} FillOverrides(m: map<string, Asset>, entries: seq<CatalogEntry>)
    ensures Fill(m, entries) == m + Fill(map[], entries)
  {
    if |entries| > 0 {
      var init := entries[..|entries| - 1];
      FillOverrides(m, init);
    }
  }

  /** Reloading the same entries over a cache they filled changes nothing. */
  lemma FillIdempotent(m: map<string, Asset>, entries: seq<CatalogEntry>)
    ensures Fill(Fill(m, entries), entries) == Fill(m, entries)
  {
    FillOverrides(m, entries);
    FillOverrides(Fill(m, entries), entries);
  }

  /** A record that no later record shares an ID with is the one the cache keeps. */
  lemma {:induction false} LastRecordWins(m: map<string, Asset>, entries: seq<CatalogEntry>, k: nat)
    requires k < |entries| && entries[k].Record?
    requires forall j :: k < j < |entries| && entries[j].Record? ==> entries[j].asset.assetId != entries[k].asset.assetId
    ensures entries[k].asset.assetId in Fill(m, entries)
    ensures Fill(m, entries)[entries[k].asset.assetId] == entries[k].asset
  {
    if k < |entries| - 1 {
      LastRecordWins(m, entries[..|entries| - 1], k);
    }
  }

  /** An ID no record carries keeps whatever the cache held before. */
  lemma {:induction false} FillKeepsOthers(m: map<string, Asset>, entries: seq<CatalogEntry>, id: string)
    requires forall j :: 0 <= j < |entries| && entries[j].Record? ==> entries[j].asset.assetId != id
    ensures id in Fill(m, entries) <==> id in m
    ensures id in m ==> Fill(m, entries)[id] == m[id]
  {
    if |entries| > 0 {
      FillKeepsOthers(m, entries[..|entries| - 1], id);
    }
  }

  /** An unparseable entry is skipped: the others load as if it were absent. */
  lemma {:induction false} UnparseableSkipped(m: map<string, Asset>, before: seq<CatalogEntry>, after: seq<CatalogEntry>)
    ensures Fill(m, before + [Unparseable] + after) == Fill(m, before + after)
  {
    if |after| == 0 {
      assert (before + [Unparseable] + after)[..|before|] == before;
      assert before + after == before;
    } else {
      var init := after[..|after| - 1];
      UnparseableSkipped(m, before, init);
      assert (before + [Unparseable] + after)[..|before + [Unparseable] + after| - 1] == before + [Unparseable] + init;
      assert (before + after)[..|before + after| - 1] == before + init;
    }
  }

  /** What the catalog answers with, and which files exist under which directory. */
  datatype CatalogView = CatalogView(assets: map<string, Asset>, existing: set<string>, filesDir: string)

  function LookupAsset(view: CatalogView, assetId: string): Option<Asset>
  {
    if assetId in view.assets then Some(view.assets[assetId]) else None
  }

  /** The extensions tried, in order. */
  const Extensions: seq<string> := [".jpeg", ".jpg", ".png"]

  function CandidatePath(filesDir: string, fileName: string, ext: string): string
  {
    filesDir + "/" + fileName + ext
  }

  /** The paths tried, one per extension: three different files, so the
      order of the extensions is a real preference. */
  function Candidates(filesDir: string, fileName: string): (r: seq<string>)
    ensures |r| == |Extensions|
    ensures forall i, j :: 0 <= i < j < |r| ==> r[i] != r[j]
  {
    var r := seq(|Extensions|, k requires 0 <= k < |Extensions| => CandidatePath(filesDir, fileName, Extensions[k]));
    var stem := filesDir + "/" + fileName;
    assert r[1][|stem| + 1] == 'j' && r[2][|stem| + 1] == 'p';
    r
  }

  /** The first candidate that exists, or None when none does. */
  function FirstExisting(existing: set<string>, candidates: seq<string>): (r: Option<string>)
    ensures r.None? <==> forall k :: 0 <= k < |candidates| ==> candidates[k] !in existing
    ensures r.Some? ==> r.value in existing && exists k :: (0 <= k < |candidates| && candidates[k] == r.value
      && forall j :: 0 <= j < k ==> candidates[j] !in existing)
  {
    if |candidates| == 0 then None
    else if candidates[0] in existing then Some(candidates[0])
    else
      var rest := candidates[1..];
      var r := FirstExisting(existing, rest);
      assert forall k :: 1 <= k < |candidates| ==> candidates[k] == rest[k - 1];
      if r.None? then r
      else
        var k :| 0 <= k < |rest| && rest[k] == r.value && forall j :: 0 <= j < k ==> rest[j] !in existing;
        assert candidates[k + 1] == r.value;
        r
  }

  function ResolveFile(view: CatalogView, fileName: string): Option<string>
  {
    FirstExisting(view.existing, Candidates(view.filesDir, fileName))
  }

  /** `.jpeg` wins over `.jpg`, which wins over `.png`. */
  lemma ResolvePreference(view: CatalogView, fileName: string)
    ensures var c := Candidates(view.filesDir, fileName);
      ResolveFile(view, fileName)
        == if c[0] in view.existing then Some(c[0])
           else if c[1] in view.existing then Some(c[1])
           else if c[2] in view.existing then Some(c[2])
           else None
  {
    var c := Candidates(view.filesDir, fileName);
    assert c[1..][1..][1..] == [];
  }

  class AssetsRepository {
    const source: CatalogSource
    const filesDir: string
    const existing: set<string>
    var cache: map<string, Asset>
    var loaded: bool

    /** Before a successful load the cache is empty, or holds what an aborted
        load got through (which is exactly what a load yields); after it, the
        loaded catalog. */
    ghost predicate Valid()
      reads this
    {
      && (loaded ==> LoadSucceeds(source) && cache == Loaded(source))
      && (!loaded ==> cache == map[] || cache == Loaded(source))
    }

    /** What `GetAsset` answers from and which files exist. */
    function View(): CatalogView
    {
      CatalogView(Loaded(source), existing, filesDir)
    }

    constructor (source: CatalogSource, filesDir: string, existing: set<string>)
      ensures Valid()
      ensures this.source == source && this.filesDir == filesDir && this.existing == existing
      ensures cache == map[] && !loaded
    {
      this.source := source;
      this.filesDir := filesDir;
      this.existing := existing;
      cache := map[];
      loaded := false;
    }

    /** Loads the catalog unless a previous load succeeded. A missing or
        malformed file leaves the cache empty and the flag unset, so the next
        lookup tries again. */
    method LoadCatalog()
      requires Valid()
      modifies this
      ensures Valid()
      ensures old(loaded) ==> loaded && cache == old(cache)
      ensures !old(loaded) ==> loaded == LoadSucceeds(source)
      ensures cache == Loaded(source)
      ensures (cache, loaded) == LoadStep(old(cache), old(loaded), source)
    {
      if loaded {
        return;
      }
      if !source.Document? {
        return;
      }
      var entries := source.entries;
      var i := 0;
      while i < |entries|
        invariant i <= AbortIndex(entries)
        invariant cache == Fill(old(cache), entries[..i])
        invariant !loaded
      {
        match entries[i] {
          case Record(a) =>
            cache := cache[a.assetId := a];
          case Unparseable =>
          case NonObject =>
            FillIdempotent(map[], entries[..i]);
            return;
        }
        assert entries[..i + 1][..i] == entries[..i];
        i := i + 1;
      }
      assert entries[..|entries|] == entries;
      FillIdempotent(map[], entries);
      loaded := true;
    }

    /** The cached asset with this ID, loading the catalog first if needed. */
    method GetAsset(assetId: string) returns (r: Option<Asset>)
      requires Valid()
      modifies this
      ensures Valid()
      ensures r == LookupAsset(View(), assetId)
      ensures loaded == (old(loaded) || LoadSucceeds(source))
      ensures cache == Loaded(source)
    {
      if !loaded {
        LoadCatalog();
      }
      r := if assetId in cache then Some(cache[assetId]) else None;
    }

    /** Tries `filesDir/fileName` with each extension in order and returns
        the first path that exists. */
    method ResolveFilePath(fileName: string) returns (r: Option<string>)
      ensures r == ResolveFile(View(), fileName)
      ensures r.None? <==> forall k :: 0 <= k < |Extensions| ==> CandidatePath(filesDir, fileName, Extensions[k]) !in existing
    {
      var c := Candidates(filesDir, fileName);
      assert forall k :: 0 <= k < |c| ==> c[k] == CandidatePath(filesDir, fileName, Extensions[k]);
      var i := 0;
      while i < |Extensions|
        invariant i <= |Extensions|
        invariant forall j :: 0 <= j < i ==> c[j] !in existing
        invariant FirstExisting(existing, c) == FirstExisting(existing, c[i..])
      {
        var path := CandidatePath(filesDir, fileName, Extensions[i]);
        if path in existing {
          return Some(path);
        }
        assert c[i..][1..] == c[i + 1..];
        i := i + 1;
      }
      return None;
    }
  }
}
