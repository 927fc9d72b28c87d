/**
 * The asset-bundle bookkeeping of the `Preload` plugin (src/plugins/Preload.ts): requested
 * bundles are checked against the assets manifest, the ones not loaded yet go to the loader in
 * request order, and `loadedBundles` records them so that later requests skip them.
 *
 * The loader is an abstract step that succeeds; its calls are recorded in `loaderCalls`. The
 * manifest fetched over the network is a parameter of `Init`.
 */
module Preload {
  import opened Wrappers

  /** A bundle of the assets manifest; only its name matters here. */
  datatype Bundle = Bundle(name: string)

  /** The assets manifest: its list of bundles. */
  datatype Manifest = Manifest(bundles: seq<Bundle>)

  /** The argument of `loadBundles`: one bundle name, or a list of them. */
  datatype Request = One(name: string) | Many(names: seq<string>)

  /** A single name is taken as a one-element list. */
  function Requested(req: Request): (r: seq<string>)
    ensures req.One? ==> r == [req.name]
    ensures req.Many? ==> r == req.names
  {
    match req
    case One(n) => [n]
    case Many(ns) => ns
  }

  /** `bundles.find((b) => b.name === name)`: the first bundle with that name. */
  function Find(bundles: seq<Bundle>, name: string): (r: Option<Bundle>)
    ensures r.Some? <==> exists i :: 0 <= i < |bundles| && bundles[i].name == name
    ensures r.Some? ==> r.value.name == name && r.value in bundles
  {
    if bundles == [] then None
    else if bundles[0].name == name then Some(bundles[0])
    else
      var r := Find(bundles[1..], name);
      assert forall i :: 1 <= i < |bundles| ==> bundles[i] == bundles[1..][i - 1];
      r
  }

  /** The message `loadBundles` throws for a bundle the manifest does not have. */
  function InvalidBundle(name: string): string {
    "[Assets] Invalid bundle: " + name
  }

  /** The first requested name that the manifest does not have, if any. */
  function FirstInvalid(bundles: seq<Bundle>, names: seq<string>): (r: Option<string>)
    ensures r.None? <==> forall k :: 0 <= k < |names| ==> Find(bundles, names[k]).Some?
    ensures r.Some? ==> exists k :: (0 <= k < |names| && names[k] == r.value && Find(bundles, names[k]).None? &&
      forall j :: 0 <= j < k ==> Find(bundles, names[j]).Some?)
  {
    if names == [] then None
    else if Find(bundles, names[0]).None? then Some(names[0])
    else
      var r := FirstInvalid(bundles, names[1..]);
      assert forall k :: 1 <= k < |names| ==> names[k] == names[1..][k - 1];
      if r.Some? then
        var k :| 0 <= k < |names[1..]| && names[1..][k] == r.value && Find(bundles, names[1..][k]).None? &&
          forall j :: 0 <= j < k ==> Find(bundles, names[1..][j]).Some?;
        assert names[k + 1] == r.value && forall j :: 0 <= j < k + 1 ==> Find(bundles, names[j]).Some?;
        r
      else r
  }

  /** `names.filter((n) => !loaded.includes(n))`: the requested names not loaded yet, in request order. */
  function NotLoaded(loaded: seq<string>, names: seq<string>): (r: seq<string>)
    ensures |r| <= |names|
  {
    if names == [] then []
    else (if names[0] in loaded then [] else [names[0]]) + NotLoaded(loaded, names[1..])
  }

  /** The filter keeps exactly the requested names that are not loaded. */
  lemma {:induction false} NotLoadedMembers(loaded: seq<string>, names: seq<string>)
    ensures forall n :: n in NotLoaded(loaded, names) <==> n in names && n !in loaded
  {
    if names != [] {
      NotLoadedMembers(loaded, names[1..]);
      assert names == [names[0]] + names[1..];
    }
  }

  /** The filter keeps request order: filtering a concatenation is concatenating the filtered parts. */
  lemma {:induction false} NotLoadedAppend(loaded: seq<string>, a: seq<string>, b: seq<string>)
    ensures NotLoaded(loaded, a + b) == NotLoaded(loaded, a) + NotLoaded(loaded, b)
  {
    if a == [] {
      assert a + b == b;
    } else {
      assert (a + b)[0] == a[0] && (a + b)[1..] == a[1..] + b;
      NotLoadedAppend(loaded, a[1..], b);
      var head := if a[0] in loaded then [] else [a[0]];
      assert NotLoaded(loaded, a + b) == head + (NotLoaded(loaded, a[1..]) + NotLoaded(loaded, b));
      assert head + (NotLoaded(loaded, a[1..]) + NotLoaded(loaded, b)) == (head + NotLoaded(loaded, a[1..])) + NotLoaded(loaded, b);
    }
  }

  /** Nothing is left to load exactly when every requested bundle is loaded already. */
  lemma NothingLeftIffAllLoaded(loaded: seq<string>, names: seq<string>)
    ensures NotLoaded(loaded, names) == [] <==> forall n :: n in names ==> n in loaded
  {
    NotLoadedMembers(loaded, names);
    if NotLoaded(loaded, names) != [] {
      assert NotLoaded(loaded, names)[0] in NotLoaded(loaded, names);
    }
  }

  /**
   * After a successful load every requested bundle is loaded, so the same request again
   * loads nothing.
   */
  lemma LoadedAfterLoad(loaded: seq<string>, names: seq<string>)
    ensures forall n :: n in names ==> n in loaded + NotLoaded(loaded, names)
    ensures NotLoaded(loaded + NotLoaded(loaded, names), names) == []
  {
    NotLoadedMembers(loaded, names);
    NothingLeftIffAllLoaded(loaded + NotLoaded(loaded, names), names);
  }

  /** The `Preload` plugin. */
  class Preload {
    /** The constructor's optional manifest URL. */
    const manifestUrl: Option<string>
    /** `assetsManifest`, empty until `init` has fetched one. */
    var manifest: Manifest
    var loadedBundles: seq<string>
    /** Every call of the loader (`Assets.loadBundle`), with its list of bundle names. */
    var loaderCalls: seq<seq<string>>

    constructor (url: Option<string>)
      ensures manifestUrl == url && manifest == Manifest([])
      ensures loadedBundles == [] && loaderCalls == []
    {
      manifestUrl := url;
      manifest := Manifest([]);
      loadedBundles := [];
      loaderCalls := [];
    }

    /** `checkBundleExists(bundle)`: whether the manifest has a bundle of that name. */
    predicate CheckBundleExists(bundle: string)
      reads this
      ensures CheckBundleExists(bundle) <==> exists i :: 0 <= i < |manifest.bundles| && manifest.bundles[i].name == bundle
    {
      Find(manifest.bundles, bundle).Some?
    }

    /**
     * `loadBundles(bundles)`: throws for the first requested bundle the manifest lacks, before
     * loading anything; otherwise hands the requested bundles not loaded yet to the loader (no
     * call at all when there are none) and appends them to `loadedBundles`.
     */
    method LoadBundles(req: Request) returns (r: Result<(), string>)
      modifies this`loadedBundles, this`loaderCalls
      ensures FirstInvalid(manifest.bundles, Requested(req)).Some? ==>
        && r == Failure(InvalidBundle(FirstInvalid(manifest.bundles, Requested(req)).value))
        && loadedBundles == old(loadedBundles) && loaderCalls == old(loaderCalls)
      ensures FirstInvalid(manifest.bundles, Requested(req)).None? ==>
        var pending := NotLoaded(old(loadedBundles), Requested(req));
        && r == Success(())
        && loadedBundles == old(loadedBundles) + pending
        && loaderCalls == old(loaderCalls) + (if pending == [] then [] else [pending])
    {
      var names := Requested(req);
      for i := 0 to |names|
        invariant forall j :: 0 <= j < i ==> Find(manifest.bundles, names[j]).Some?
      {
        if !CheckBundleExists(names[i]) {
          return Failure(InvalidBundle(names[i]));
        }
      }
      var loadList := NotLoaded(loadedBundles, names);
      if loadList == [] {
        return Success(());
      }
      loaderCalls := loaderCalls + [loadList];
      loadedBundles := loadedBundles + loadList;
      return Success(());
    }

    /** `bundlesLoaded(bundles)`: whether every one of them is loaded (true for none). */
    method BundlesLoaded(names: seq<string>) returns (r: bool)
      ensures r <==> forall n :: n in names ==> n in loadedBundles
    {
      for i := 0 to |names|
        invariant forall j :: 0 <= j < i ==> names[j] in loadedBundles
      {
        if names[i] !in loadedBundles {
          return false;
        }
      }
      return true;
    }

    /**
     * `init()`: with a manifest URL (a non-empty string), takes the manifest `fetched` from it
     * and loads the "default" bundle; without one, does nothing.
     */
    method Init(fetched: Manifest) returns (r: Result<(), string>)
      modifies this`manifest, this`loadedBundles, this`loaderCalls
      ensures manifestUrl.None? || manifestUrl == Some("") ==> r == Success(()) && unchanged(this)
      ensures manifestUrl.Some? && manifestUrl != Some("") ==>
        var pending := NotLoaded(old(loadedBundles), ["default"]);
        && manifest == fetched
        && (Find(fetched.bundles, "default").None? ==>
              && r == Failure(InvalidBundle("default"))
              && loadedBundles == old(loadedBundles) && loaderCalls == old(loaderCalls))
        && (Find(fetched.bundles, "default").Some? ==>
              && r == Success(())
              && loadedBundles == old(loadedBundles) + pending
              && loaderCalls == old(loaderCalls) + (if pending == [] then [] else [pending]))
    {
      if manifestUrl.None? || manifestUrl == Some("") {
        return Success(());
      }
      manifest := fetched;
      r := LoadBundles(Many(["default"]));
    }
  }
}
