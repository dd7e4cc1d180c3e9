/**
  Applying an admitted update: check the package, stop the browser host, check again, start
  the helper, and let the host run again if the helper did not start.
*/
module ApplyUpdate {
  import opened Prelude
  import opened PackageCache
  import opened PackageScan

  datatype Outcome = NothingPending | Failed | Started

  datatype Effect = Quiesced | HelperStarted(path: string) | Resumed

  /** The helper may run: the installer's own path, and the authenticated file still there both
      before the host is stopped and after. */
  predicate Applies(dir: string, before: Dir, during: Dir, p: Package) {
    OwnPath(dir, p) && StillHeld(before, p) && StillHeld(during, p)
  }

  /** The effects of one attempt, in order. */
  function EffectsOf(dir: string, before: Dir, during: Dir, p: Package, spawns: bool): seq<Effect> {
    if !OwnPath(dir, p) || !StillHeld(before, p) then []
    else if Applies(dir, before, during, p) && spawns then [Quiesced, HelperStarted(CachePath(dir, p.fileName))]
    else [Quiesced, Resumed]
  }

  /** The machine: the cache directory as it stands, and the effects so far. */
  class Installer {
    const packagesDir: string
    var cache: Dir
    var effects: seq<Effect>

    constructor (packagesDir: string, cache: Dir)
      ensures this.packagesDir == packagesDir && this.cache == cache && effects == []
    {
      this.packagesDir := packagesDir;
      this.cache := cache;
      effects := [];
    }

    /** `spawn_admitted`. `during` is what the directory looks like once the host has stopped;
        `spawns` is whether the helper process could be created. */
    method SpawnAdmitted(p: Package, during: Dir, spawns: bool) returns (ok: bool)
      modifies this
      ensures ok <==> Applies(packagesDir, old(cache), during, p) && spawns
      ensures effects == old(effects) + EffectsOf(packagesDir, old(cache), during, p, spawns)
      ensures cache == if OwnPath(packagesDir, p) && StillHeld(old(cache), p) then during else old(cache)
      ensures
        var name := p.fileName;
        var own := p.path == packagesDir + "/" + name;
        var before := name in old(cache) && old(cache)[name].kind.Regular? && old(cache)[name].file == p.file;
        var after := name in during && during[name].kind.Regular? && during[name].file == p.file;
        && (ok <==> own && before && after && spawns)
        && effects == old(effects) +
             if !own || !before then [] else if after && spawns then [Quiesced, HelperStarted(p.path)] else [Quiesced, Resumed]
    {
      if p.path != CachePath(packagesDir, p.fileName) {
        return false;
      }
      if !StillHeld(cache, p) {
        return false;
      }
      effects := effects + [Quiesced];
      cache := during;
      var held := StillHeld(cache, p);
      ok := held && spawns;
      if ok {
        effects := effects + [HelperStarted(p.path)];
      }
      if !ok {
        effects := effects + [Resumed];
      }
    }

    /** `apply_from_cache`: the helper runs for at most one package, the newest authentic one in
        the cache, at its own path, and only while the file there is the one authenticated. */
    method ApplyFromCache(versions: Option<Versions>, listing: Listing, verify: Verifier, during: Dir, spawns: bool)
      returns (outcome: Outcome)
      modifies this
      ensures old(effects) <= effects
      ensures Balanced(effects[|old(effects)|..])
      ensures outcome.Started? <==> HelperRan(effects[|old(effects)|..])
      ensures outcome.Started? ==>
                && versions.Some?
                && exists p: Package ::
                     && Newest(old(cache), versions.value, verify, listing, p.fileName)
                     && Selectable(old(cache), p, verify) && Applies(packagesDir, old(cache), during, p)
                     && p.path == packagesDir + "/" + p.fileName
                     && Genuine(old(cache), versions.value, verify, p.fileName)
                     && old(cache)[p.fileName].file == p.file
                     && p.fileName in during && during[p.fileName].kind.Regular? && during[p.fileName].file == p.file
                     && effects == old(effects) + [Quiesced, HelperStarted(p.path)]
      ensures outcome.NothingPending? <==>
                && versions.Some?
                && NoneNewer(Ranks(old(cache), versions.value, verify, listing))
                && forall i :: 0 <= i < |listing| ==> !Rejects(old(cache), versions.value, verify, listing[i])
    {
      ghost var before := effects;
      if versions.None? {
        return Failed;
      }
      var scan := ScanAuthenticatedPackages(packagesDir, cache, listing, versions.value, verify);
      if scan.selected.None? {
        return if scan.rejected then Failed else NothingPending;
      }
      var p := scan.selected.value;
      var ok := SpawnAdmitted(p, during, spawns);
      outcome := if ok then Started else Failed;
      ghost var own := effects[|before|..];
      assert ok ==> own == [Quiesced, HelperStarted(p.path)];
      assert ok ==> own[1].HelperStarted?;
      assert !ok ==> own == [] || own == [Quiesced, Resumed];
    }
  }

  predicate HelperRan(effects: seq<Effect>) { exists i :: 0 <= i < |effects| && effects[i].HelperStarted? }

  /** No effect at all, or one quiesce first, answered by exactly one start or one resume. */
  predicate Balanced(effects: seq<Effect>) {
    effects == [] || (|effects| == 2 && effects[0].Quiesced? && !effects[1].Quiesced?)
  }
}
