/**
 * The model cache of the edge device (raspberry_pi_system/src/model_manager.py).
 * Two directories are modelled as maps from file name to file: `models/cache`,
 * where downloads land, and `models/current`, where a verified copy is kept.
 */
module EdgeModelManager {
  import opened Wrappers
  import opened Text
  import opened EdgeFiles

  const CacheDir: string := "models/cache"
  const CurrentDir: string := "models/current"

  /** How the HTTP transfer of a model goes (an oracle for the network). */
  datatype Transfer =
    | RequestFails   // `requests.get` or `raise_for_status` raises; nothing is written
    | Interrupted    // the stream breaks after the file was opened for writing
    | Completed

  datatype ModelError = ModelLoadError

  /** `f"model_v{version}.h5"`. */
  function ModelFileName(version: int): (name: string)
    ensures IsFileName(name) && EndsWith(name, ".h5")
  {
    var name := "model_v" + IntToDecimal(version) + ".h5";
    assert name[|name| - 3..] == ".h5";
    name
  }

  /** Different versions are stored under different names. */
  lemma ModelFileNameInjective(v: int, w: int)
    requires ModelFileName(v) == ModelFileName(w)
    ensures v == w
  {
    var a, b := ModelFileName(v), ModelFileName(w);
    assert IntToDecimal(v) == a[7..|a| - 3];
    assert IntToDecimal(w) == b[7..|b| - 3];
    IntToDecimalInjective(v, w);
  }

  function CachePath(name: string): string { CacheDir + "/" + name }

  /** The basename of a cache path is the file name it was built from. */
  lemma CachePathNames()
    ensures forall n {:trigger CachePath(n)} :: IsFileName(n) ==> Basename(CachePath(n)) == n
  {
    forall n | IsFileName(n)
      ensures Basename(CachePath(n)) == n
    {
      BasenameOfJoin(CacheDir, n);
    }
  }
  function CurrentPath(name: string): string { CurrentDir + "/" + name }

  /** What a directory entry's name can be. */
  predicate IsFileName(n: string) {
    n != "" && '/' !in n
  }

  /** The `.h5` names of a directory listing. */
  function H5Files(names: set<string>): (files: set<string>)
    ensures files <= names
    ensures forall n :: n in files ==> EndsWith(n, ".h5")
    ensures forall n :: n in names && EndsWith(n, ".h5") ==> n in files
  {
    set n | n in names && EndsWith(n, ".h5")
  }

  /** `len(models[:-keep])` for a Python list of length `n`. */
  function SliceEnd(n: nat, keep: int): (e: nat)
    ensures e <= n
  {
    if keep > 0 then (if n > keep then n - keep else 0)
    else if keep == 0 then 0              // models[:-0] is models[:0], which is empty
    else if -keep < n then -keep else n   // models[:-keep] with keep < 0 is models[:|keep|]
  }

  /** How many files a cleanup removes from `n` listed `.h5` files. */
  function EvictionCount(n: nat, keep: int): (c: nat)
    ensures c <= n
    ensures n <= keep ==> c == 0
    ensures keep > 0 && n > keep ==> c == n - keep
  {
    if n > keep then SliceEnd(n, keep) else 0
  }

  /**
   * `removed` is what cleaning `files` down to `keep` takes away: only names
   * from `files`, as many as the count says, each below (in string order)
   * every name that stays.
   */
  ghost predicate IsEviction(files: set<string>, keep: int, removed: set<string>) {
    && removed <= files
    && |removed| == EvictionCount(|files|, keep)
    && forall r, k :: r in removed && k in files && k !in removed ==> Below(r, k)
  }

  /**
   * `after` is the cache `before` once cleaned down to `keep` `.h5` files:
   * some names are gone, the others keep their content, and the names gone
   * are the eviction of the `.h5` listing.
   */
  ghost predicate CleanedUp(before: map<string, Artifact>, after: map<string, Artifact>, keep: int) {
    && after.Keys <= before.Keys
    && (forall n :: n in after ==> after[n] == before[n])
    && IsEviction(H5Files(before.Keys), keep, before.Keys - after.Keys)
  }

  /** The description of an eviction leaves no choice: at most one set fits it. */
  lemma EvictionIsUnique(files: set<string>, keep: int, r1: set<string>, r2: set<string>)
    requires IsEviction(files, keep, r1) && IsEviction(files, keep, r2)
    ensures r1 == r2
  {
    if r1 != r2 {
      if r2 <= r1 { SameSizeSubsetEqual(r2, r1); }
      if r1 <= r2 { SameSizeSubsetEqual(r1, r2); }
      var x :| x in r1 && x !in r2;
      var y :| y in r2 && y !in r1;
      assert Below(x, y);
      assert Below(y, x);
      BelowAsymmetric(x, y);
    }
  }

  lemma NinthAndTenthNames()
    ensures ModelFileName(9) == "model_v9.h5" && ModelFileName(10) == "model_v10.h5"
  {
  }

  lemma TenBelowNine()
    ensures Below("model_v10.h5", "model_v9.h5")
  {
  }

  /**
   * The order is string order, not version order: with versions 9 and 10
   * cached and one to keep, the newer `model_v10.h5` is the one removed.
   */
  lemma StringOrderEvictsNewerVersion(removed: set<string>)
    requires IsEviction({ModelFileName(9), ModelFileName(10)}, 1, removed)
    ensures removed == {ModelFileName(10)}
  {
    NinthAndTenthNames();
    TenBelowNine();
    var v9, v10 := "model_v9.h5", "model_v10.h5";
    var files := {v9, v10};
    assert v9 != v10 by {
      assert v9[7] != v10[7];
    }
    assert |files| == 2;
    assert files - {v10} == {v9};
    assert IsEviction(files, 1, {v10});
    EvictionIsUnique(files, 1, removed, {v10});
  }

  class ModelManager {
    var cache: map<string, Artifact>
    var current: map<string, Artifact>

    ghost predicate Valid()
      reads this
    {
      && (forall n :: n in cache ==> IsFileName(n))
      && (forall n :: n in current ==> IsFileName(n))
    }

    /** The directories may already hold files from earlier runs (`exist_ok=True`). */
    constructor (cacheFiles: map<string, Artifact>, currentFiles: map<string, Artifact>)
      requires forall n :: n in cacheFiles ==> IsFileName(n)
      requires forall n :: n in currentFiles ==> IsFileName(n)
      ensures Valid()
      ensures cache == cacheFiles && current == currentFiles
    {
      cache := cacheFiles;
      current := currentFiles;
    }

    /**
     * `download_model(url, version)`: stream `url` into `cache_dir/model_v{version}.h5`
     * and return that path. Any failure raises `ModelLoadError`; a transfer
     * that breaks mid-stream leaves a partial file under the final name.
     */
    method DownloadModel(url: string, version: int, transfer: Transfer)
        returns (r: Result<string, ModelError>)
      requires Valid()
      modifies this`cache
      ensures Valid()
      ensures r.Ok? <==> transfer == Completed
      ensures r.Ok? ==> r.value == CachePath(ModelFileName(version))
      ensures cache == if transfer == RequestFails then old(cache)
                       else old(cache)[ModelFileName(version) := Artifact(url, transfer == Completed)]
    {
      var cachePath := CacheDir + "/" + "model_v" + IntToDecimal(version);
      var name := ModelFileName(version);
      assert cachePath + ".h5" == CachePath(name);
      match transfer
      case RequestFails =>
        return Err(ModelLoadError);
      case Interrupted =>
        cache := cache[name := Artifact(url, false)];
        return Err(ModelLoadError);
      case Completed =>
        cache := cache[name := Artifact(url, true)];
        return Ok(cachePath + ".h5");
    }

    /** `shutil.copy2(path, ...)` finds its source only for a file of the cache directory. */
    predicate HasSource(path: string)
      requires Valid()
      reads this
      ensures HasSource(path) <==> exists n :: n in cache && path == CachePath(n)
    {
      CachePathNames();
      path == CachePath(Basename(path)) && Basename(path) in cache
    }

    /**
     * `activate_model(path)`: copy the file to `current_dir/basename(path)` and
     * load it once as a check. On success that path is returned; if the check
     * fails the copy is deleted (and with it whatever file of that name was
     * there) and `ModelLoadError` is raised. No other file is touched.
     */
    method ActivateModel(path: string, verifies: bool) returns (r: Result<string, ModelError>)
      requires Valid()
      modifies this`current
      ensures Valid()
      ensures !old(HasSource(path)) ==> r.Err? && current == old(current)
      ensures old(HasSource(path)) && verifies ==>
        r == Ok(CurrentPath(Basename(path)))
        && current == old(current)[Basename(path) := cache[Basename(path)]]
      ensures old(HasSource(path)) && !verifies ==>
        r.Err? && current == old(current) - {Basename(path)}
    {
      var filename := Basename(path);
      var currentPath := CurrentDir + "/" + filename;
      if !HasSource(path) {
        return Err(ModelLoadError);
      }
      current := current[filename := cache[filename]];
      if verifies {
        return Ok(currentPath);
      }
      current := current - {filename};
      return Err(ModelLoadError);
    }

    /**
     * `cleanup_old_models(keep)`: list the `.h5` files of the cache, and when
     * there are more than `keep`, sort the names and delete `models[:-keep]`.
     * Errors are logged, never raised; `current` is not touched.
     */
    method CleanupOldModels(keep: int)
      requires Valid()
      modifies this`cache
      ensures Valid()
      ensures CleanedUp(old(cache), cache, keep)
    {
      ghost var files := H5Files(cache.Keys);
      var models := ListH5(cache.Keys);
      if |models| > keep {
        models := SortDistinct(models);
        SortedIsDistinct(models);
        var victims := models[..SliceEnd(|models|, keep)];
        EvictionFromSorted(models, files, keep, victims);
        RemoveFiles(victims);
        assert old(cache).Keys - cache.Keys == set x | x in victims;
      } else {
        assert old(cache).Keys - cache.Keys == {};
      }
    }

    /** `os.remove` of each listed cache file, in order. */
    method RemoveFiles(victims: seq<string>)
      requires Valid()
      modifies this`cache
      ensures Valid()
      ensures cache == old(cache) - (set x | x in victims)
    {
      for i := 0 to |victims|
        invariant Valid()
        invariant cache == old(cache) - (set x | x in victims[..i])
      {
        cache := cache - {victims[i]};
        assert victims[..i + 1] == victims[..i] + [victims[i]];
      }
      assert victims[..|victims|] == victims;
    }
  }

  /**
   * `[f for f in os.listdir(cache_dir) if f.endswith('.h5')]`: every `.h5`
   * name once, in whatever order the directory yields.
   */
  method ListH5(names: set<string>) returns (models: seq<string>)
    ensures Distinct(models)
    ensures (set x | x in models) == H5Files(names)
    ensures |models| == |H5Files(names)|
  {
    models := [];
    var rest := names;
    while rest != {}
      invariant rest <= names
      invariant Distinct(models)
      invariant forall x :: x in models ==> x in H5Files(names) && x !in rest
      invariant forall x :: x in H5Files(names) && x !in rest ==> x in models
      decreases |rest|
    {
      var f :| f in rest;
      if EndsWith(f, ".h5") {
        models := models + [f];
      }
      rest := rest - {f};
    }
    DistinctCardinality(models);
  }

  /** Deleting the first `len(models[:-keep])` names of the sorted listing is an eviction. */
  lemma EvictionFromSorted(sorted: seq<string>, files: set<string>, keep: int, victims: seq<string>)
    requires StrictlySorted(sorted) && Distinct(sorted)
    requires (set x | x in sorted) == files && |sorted| == |files|
    requires |sorted| > keep
    requires victims == sorted[..SliceEnd(|sorted|, keep)]
    ensures IsEviction(files, keep, set x | x in victims)
  {
    var c := SliceEnd(|sorted|, keep);
    var removed := set x | x in victims;
    assert Distinct(victims);
    DistinctCardinality(victims);
    forall r, k | r in removed && k in files && k !in removed
      ensures Below(r, k)
    {
      var i :| 0 <= i < c && victims[i] == r;
      var j :| 0 <= j < |sorted| && sorted[j] == k;
      assert sorted[i] == r;
    }
  }
}
