/**
  Staging one update package in the local cache: admit a cached copy, or download and admit,
  and retire what was refused. The cache directory is a map from plain file names to entries.
*/
module PackageCache {
  import opened Prelude

  /** What sits at a name: a regular file with its content, something that is not one, or a link. */
  datatype Kind = Regular(content: int, nuspecVersion: Option<string>) | Directory | Link(resolves: bool)

  /** `locked` entries cannot be deleted (open elsewhere, or not permitted); `file` identifies
      the file itself, whatever name it is found under. */
  datatype Entry = Entry(kind: Kind, locked: bool, file: nat)

  type Dir = map<string, Entry>

  datatype Admission = Ready | NotReady | Refuse

  /** The detached-signature check: package content, sidecar content. */
  type Verifier = (int, int) -> bool

  // ----- names ------------------------------------------------------------------------

  predicate PlainChar(c: char) {
    'a' <= c <= 'z' || 'A' <= c <= 'Z' || '0' <= c <= '9' || c == '.' || c == '_' || c == '-'
  }

  /** `check_plain_filename`. */
  predicate Plain(name: string) {
    && name != "" && name[0] != '.'
    && (forall i :: 0 <= i < |name| - 1 ==> !(name[i] == '.' && name[i + 1] == '.'))
    && (forall i :: 0 <= i < |name| ==> PlainChar(name[i]))
  }

  /** The name up to its last dot, or all of it. */
  function FileStem(name: string): string {
    if name == "" then ""
    else if name[|name| - 1] == '.' then name[..|name| - 1]
    else
      var s := FileStem(name[..|name| - 1]);
      if '.' in name then s else name
  }

  /** The package, its partial download, its sidecar and the sidecar's partial. */
  function AssetNames(name: string): set<string> {
    {name, FileStem(name) + ".partial", name + ".minisig", name + ".minisig.partial"}
  }

  // ----- the operations, as functions of the directory --------------------------------

  predicate Exists(d: Dir, name: string) {
    name in d && (d[name].kind.Link? ==> d[name].kind.resolves)
  }

  /** `std::fs::remove_file`: directories and locked entries stay. */
  predicate Removable(e: Entry) { !e.kind.Directory? && !e.locked }

  function Remove(d: Dir, name: string): Dir {
    if name in d && Removable(d[name]) then d - {name} else d
  }

  function Retire(d: Dir, name: string): Dir {
    if !Plain(name) then d
    else Remove(Remove(Remove(Remove(d, name), FileStem(name) + ".partial"), name + ".minisig"), name + ".minisig.partial")
  }

  predicate IsRegular(d: Dir, name: string) { name in d && d[name].kind.Regular? }

  /** `admit_cached_package`: the version an authenticated package names, or why it is refused. */
  function AdmitCached(d: Dir, name: string, verify: Verifier): Result<string, Admission> {
    if !Plain(name) || !IsRegular(d, name) then Err(Refuse)
    else
      var sidecar := name + ".minisig";
      if !Exists(d, sidecar) then Err(NotReady)
      else if !IsRegular(d, sidecar) then Err(Refuse)
      else if !verify(d[name].kind.content, d[sidecar].kind.content) then Err(Refuse)
      else if d[name].kind.nuspecVersion.None? then Err(Refuse)
      else Ok(d[name].kind.nuspecVersion.value)
  }

  /** `admit_named_package`: authenticated and at the expected version. */
  function Admit(d: Dir, name: string, version: string, verify: Verifier): Admission {
    match AdmitCached(d, name, verify)
    case Ok(found) => if found == version then Ready else Refuse
    case Err(reason) => reason
  }

  /** In the directory's own terms: the package and its sidecar are regular files, the signature
      check holds of their two contents, and the package names this version. */
  predicate Signed(d: Dir, name: string, version: string, verify: Verifier) {
    && name in d && d[name].kind.Regular?
    && name + ".minisig" in d && d[name + ".minisig"].kind.Regular?
    && verify(d[name].kind.content, d[name + ".minisig"].kind.content)
    && d[name].kind.nuspecVersion == Some(version)
  }

  /** Admission is a plain name and a signed package; it is only "not ready" for a regular file
      whose sidecar is missing. */
  lemma AdmittedIsSigned(d: Dir, name: string, version: string, verify: Verifier)
    ensures AdmitCached(d, name, verify) == Ok(version) <==> Plain(name) && Signed(d, name, version, verify)
    ensures Admit(d, name, version, verify) == Ready <==> Plain(name) && Signed(d, name, version, verify)
    ensures Admit(d, name, version, verify) == NotReady <==>
              && Plain(name) && name in d && d[name].kind.Regular?
              && (name + ".minisig" !in d || d[name + ".minisig"].kind == Link(false))
  {
  }

  // ----- a package chosen for installation --------------------------------------------

  /** An authenticated package: the path it was found at, its name, and the file held open. */
  datatype Package = Package(path: string, fileName: string, file: nat)

  function CachePath(dir: string, name: string): string { dir + "/" + name }

  /** The path the installer will open. */
  predicate OwnPath(dir: string, p: Package) { p.path == CachePath(dir, p.fileName) }

  /** `package_still_held`, for a package in the installer's own directory: a regular file, and
      the very file that was authenticated. */
  predicate StillHeld(d: Dir, p: Package) { IsRegular(d, p.fileName) && d[p.fileName].file == p.file }

  /** The package is authentic as it now stands in the cache. */
  predicate Selectable(d: Dir, p: Package, verify: Verifier) {
    AdmitCached(d, p.fileName, verify).Ok? && StillHeld(d, p)
  }

  datatype Asset = Asset(fileName: string, version: string, fullType: bool)

  /** What a download did to the asset's own names, and whether it reported success. */
  datatype Download = Download(written: map<string, Entry>, ok: bool)

  predicate OwnNames(asset: Asset, dl: Download) { dl.written.Keys <= AssetNames(asset.fileName) }

  datatype Failure = NotPlain | NotFull | CachedRetired | DownloadFailed | Refused | NotReadyAfter

  /** The actions of one staging call, in order. */
  datatype Action = Retired(name: string) | Downloaded(name: string)

  class Cache {
    var files: Dir
    ghost var actions: seq<Action>

    constructor (files: Dir)
      ensures this.files == files && actions == []
    {
      this.files := files;
      actions := [];
    }

    /** `retire_asset`: delete only this asset's four names. */
    method RetireAsset(name: string)
      modifies this
      ensures files == Retire(old(files), name)
      ensures actions == old(actions) + [Retired(name)]
    {
      actions := actions + [Retired(name)];
      if !Plain(name) {
        return;
      }
      RemoveFile(name);
      RemoveFile(FileStem(name) + ".partial");
      RemoveFile(name + ".minisig");
      RemoveFile(name + ".minisig.partial");
    }

    method RemoveFile(name: string)
      modifies this`files
      ensures files == Remove(old(files), name)
    {
      if name in files && Removable(files[name]) {
        files := files - {name};
      }
    }

    /** `stage_full_package_with_verifier`. */
    method StageFullPackage(asset: Asset, dl: Download, verify: Verifier) returns (r: Result<Asset, Failure>)
      modifies this
      ensures (files, r) == Staged(old(files), asset, dl, verify)
      ensures actions == old(actions) + ActionsOf(old(files), asset, dl, verify)
      ensures r.Ok? ==>
                var name := asset.fileName;
                && r.value == asset && asset.fullType && Plain(name)
                && name in files && files[name].kind.Regular?
                && name + ".minisig" in files && files[name + ".minisig"].kind.Regular?
                && verify(files[name].kind.content, files[name + ".minisig"].kind.content)
                && files[name].kind.nuspecVersion == Some(asset.version)
    {
      StagedIsSigned(files, asset, dl, verify);
      var name := asset.fileName;
      if !Plain(name) {
        return Err(NotPlain);
      }
      if !asset.fullType {
        return Err(NotFull);
      }
      if Exists(files, name) {
        var cached := Admit(files, name, asset.version, verify);
        match cached {
          case Ready => return Ok(asset);
          case _ =>
            RetireAsset(name);
            return Err(CachedRetired);
        }
      }
      actions := actions + [Downloaded(name)];
      files := files + dl.written;
      if !dl.ok {
        RetireAsset(name);
        return Err(DownloadFailed);
      }
      var admission := Admit(files, name, asset.version, verify);
      match admission {
        case Ready => r := Ok(asset);
        case Refuse =>
          RetireAsset(name);
          r := Err(Refused);
        case NotReady => r := Err(NotReadyAfter);
      }
    }
  }

  // ----- what one staging call means --------------------------------------------------

  function Staged(d: Dir, asset: Asset, dl: Download, verify: Verifier): (Dir, Result<Asset, Failure>) {
    var name := asset.fileName;
    if !Plain(name) then (d, Err(NotPlain))
    else if !asset.fullType then (d, Err(NotFull))
    else if Exists(d, name) then
      if Admit(d, name, asset.version, verify).Ready? then (d, Ok(asset))
      else (Retire(d, name), Err(CachedRetired))
    else
      var after := d + dl.written;
      if !dl.ok then (Retire(after, name), Err(DownloadFailed))
      else match Admit(after, name, asset.version, verify)
        case Ready => (after, Ok(asset))
        case Refuse => (Retire(after, name), Err(Refused))
        case NotReady => (after, Err(NotReadyAfter))
  }

  function ActionsOf(d: Dir, asset: Asset, dl: Download, verify: Verifier): seq<Action> {
    var name := asset.fileName;
    var (_, r) := Staged(d, asset, dl, verify);
    (if Plain(name) && asset.fullType && !Exists(d, name) then [Downloaded(name)] else [])
    + (if r.Err? && r.error in {CachedRetired, DownloadFailed, Refused} then [Retired(name)] else [])
  }

  /** Success means the named file, as it now stands in the cache, is admitted at the feed's
      version - and a call succeeds exactly when the cached copy, or else the download, is. */
  lemma StagedExactly(d: Dir, asset: Asset, dl: Download, verify: Verifier)
    ensures
      var (after, r) := Staged(d, asset, dl, verify);
      && (r.Ok? ==> r.value == asset && Admit(after, asset.fileName, asset.version, verify).Ready?)
      && (r.Ok? <==>
            && asset.fullType
            && (if Exists(d, asset.fileName) then Admit(d, asset.fileName, asset.version, verify).Ready?
                else dl.ok && Admit(d + dl.written, asset.fileName, asset.version, verify).Ready?))
  {
  }

  /** A call succeeds exactly for a full package under a plain name whose cached copy is signed at
      the feed's version or, when nothing is cached under that name, whose download succeeds
      and is; and what it leaves in the cache then is signed. A link that leads nowhere counts
      as nothing cached. */
  lemma StagedIsSigned(d: Dir, asset: Asset, dl: Download, verify: Verifier)
    ensures
      var (after, r) := Staged(d, asset, dl, verify);
      var name := asset.fileName;
      && (r.Ok? ==> r.value == asset && Signed(after, name, asset.version, verify))
      && (r.Ok? <==>
            && asset.fullType && Plain(name)
            && if name in d && d[name].kind != Link(false)
               then Signed(d, name, asset.version, verify)
               else dl.ok && Signed(d + dl.written, name, asset.version, verify))
  {
    AdmittedIsSigned(d, asset.fileName, asset.version, verify);
    AdmittedIsSigned(d + dl.written, asset.fileName, asset.version, verify);
  }

  /** The names that are accepted, character by character. */
  lemma PlainExactly(name: string)
    ensures Plain(name) <==>
              && name != "" && name[0] != '.'
              && (forall i :: 0 <= i < |name| ==>
                    'a' <= name[i] <= 'z' || 'A' <= name[i] <= 'Z' || '0' <= name[i] <= '9' || name[i] in "._-")
              && (forall i :: 0 < i < |name| ==> !(name[i - 1] == '.' && name[i] == '.'))
  {
    if Plain(name) {
      forall i | 0 < i < |name| ensures !(name[i - 1] == '.' && name[i] == '.') {
        assert !(name[i - 1] == '.' && name[i - 1 + 1] == '.');
      }
    }
  }

  /** A name with a slash, a backslash or a colon, one that is empty or starts with a dot, and one
      with two dots in a row is refused before anything is read, written or downloaded. */
  lemma UnplainNameRefused(d: Dir, asset: Asset, dl: Download, verify: Verifier, i: nat)
    requires
      var name := asset.fileName;
      || name == "" || name[0] == '.'
      || (i < |name| && (name[i] == '/' || name[i] == '\\' || name[i] == ':'))
      || (i + 1 < |name| && name[i] == '.' && name[i + 1] == '.')
    ensures Staged(d, asset, dl, verify) == (d, Err(NotPlain)) && ActionsOf(d, asset, dl, verify) == []
  {
  }

  /** The partial download is named after the package without its last extension. */
  lemma {:induction false} FileStemIs(stem: string, ext: string)
    requires '.' !in ext
    ensures FileStem(stem + "." + ext) == stem
    ensures FileStem(ext) == ext
  {
    if ext == "" {
      assert (stem + "." + ext)[..|stem|] == stem;
    } else {
      var init := ext[..|ext| - 1];
      FileStemIs(stem, init);
      var name := stem + "." + ext;
      assert name[..|name| - 1] == stem + "." + init;
      assert name[|stem|] == '.';
    }
  }

  lemma RetireFrame(d: Dir, name: string)
    ensures Plain(name) ==>
              forall n :: n in Retire(d, name) <==>
                && n in d
                && (n in {name, FileStem(name) + ".partial", name + ".minisig", name + ".minisig.partial"} ==>
                      d[n].kind == Directory || d[n].locked)
    ensures Retire(d, name).Keys <= d.Keys
    ensures forall n :: n in d && (n !in AssetNames(name) || !Removable(d[n])) ==>
              n in Retire(d, name) && Retire(d, name)[n] == d[n]
    ensures Plain(name) ==> forall n :: n in AssetNames(name) && n in Retire(d, name) ==> !Removable(d[n])
  {
  }

  /** Whatever happens, no other asset's file is touched; and a name that is not plain reaches
      neither the directory nor the network. */
  lemma StagingFrame(d: Dir, asset: Asset, dl: Download, verify: Verifier, other: string)
    requires OwnNames(asset, dl) && other !in AssetNames(asset.fileName)
    ensures
      var after := Staged(d, asset, dl, verify).0;
      (other in after <==> other in d) && (other in d ==> after[other] == d[other])
    ensures !Plain(asset.fileName) ==> Staged(d, asset, dl, verify).0 == d && ActionsOf(d, asset, dl, verify) == []
  {
    RetireFrame(d, asset.fileName);
    RetireFrame(d + dl.written, asset.fileName);
  }

  /** A failed call clears up after itself: nothing of the asset is left that could be deleted -
      except when the sidecar is missing after a download, which stays for the next call. */
  lemma FailedCallClearsUp(d: Dir, asset: Asset, dl: Download, verify: Verifier)
    requires Plain(asset.fileName) && asset.fullType && Staged(d, asset, dl, verify).1.Err?
    ensures
      var (after, r) := Staged(d, asset, dl, verify);
      var name := asset.fileName;
      if r.error == NotReadyAfter then after == d + dl.written
      else forall n :: n in {name, FileStem(name) + ".partial", name + ".minisig", name + ".minisig.partial"} && n in after ==>
             after[n].kind == Directory || after[n].locked
  {
    RetireFrame(d, asset.fileName);
    RetireFrame(d + dl.written, asset.fileName);
  }

  /** A refused cached copy costs one failed call: the next call attempts the download -
      exactly when the refused entry could be deleted. */
  lemma BadCacheCostsOneCall(d: Dir, asset: Asset, dl: Download, again: Download, verify: Verifier)
    requires Staged(d, asset, dl, verify).1 == Err(CachedRetired)
    ensures
      var after := Staged(d, asset, dl, verify).0;
      Downloaded(asset.fileName) in ActionsOf(after, asset, again, verify) <==> Removable(d[asset.fileName])
  {
    var name := asset.fileName;
    var after := Staged(d, asset, dl, verify).0;
    RetireFrame(d, name);
    assert name in AssetNames(name);
    assert name in after <==> !Removable(d[name]);
  }

  // ----- repeated calls ---------------------------------------------------------------

  /** Something at the package's name is refused and cannot be deleted: a directory, or a file
      that is locked. */
  predicate Blocked(d: Dir, asset: Asset, verify: Verifier) {
    && Plain(asset.fileName) && asset.fullType && Exists(d, asset.fileName)
    && !Admit(d, asset.fileName, asset.version, verify).Ready? && !Removable(d[asset.fileName])
  }

  /** A directory at a plain package name blocks it. */
  lemma DirectoryBlocks(locked: bool, file: nat, verify: Verifier)
    ensures Blocked(map["app-full.nupkg" := Entry(Directory, locked, file)],
                    Asset("app-full.nupkg", "2", true), verify)
  {
  }

  /** The result of each of a sequence of staging calls, with nothing else touching the cache. */
  function StageAll(d: Dir, asset: Asset, downloads: seq<Download>, verify: Verifier): seq<Result<Asset, Failure>>
    decreases |downloads|
  {
    if downloads == [] then []
    else
      var (after, r) := Staged(d, asset, downloads[0], verify);
      [r] + StageAll(after, asset, downloads[1..], verify)
  }

  lemma BlockedStays(d: Dir, asset: Asset, dl: Download, verify: Verifier)
    requires Blocked(d, asset, verify)
    ensures Staged(d, asset, dl, verify).1 == Err(CachedRetired)
    ensures Blocked(Staged(d, asset, dl, verify).0, asset, verify)
  {
    var name := asset.fileName;
    var after := Retire(d, name);
    RetireFrame(d, name);
    assert after[name] == d[name];
    assert name + ".minisig" in after ==> after[name + ".minisig"] == d[name + ".minisig"];
  }

  /** A blocked cache fails every call, however many follow and whatever they could download. */
  lemma {:induction false} BlockedForever(d: Dir, asset: Asset, downloads: seq<Download>, verify: Verifier)
    requires Blocked(d, asset, verify)
    ensures |StageAll(d, asset, downloads, verify)| == |downloads|
    ensures forall i :: 0 <= i < |downloads| ==> StageAll(d, asset, downloads, verify)[i] == Err(CachedRetired)
    decreases |downloads|
  {
    if downloads == [] {
    } else {
      BlockedStays(d, asset, downloads[0], verify);
      BlockedForever(Staged(d, asset, downloads[0], verify).0, asset, downloads[1..], verify);
    }
  }

  /** A download that delivers the package and a sidecar that vouches for it. */
  predicate Delivers(dl: Download, asset: Asset, verify: Verifier) {
    var name, sidecar := asset.fileName, asset.fileName + ".minisig";
    && dl.ok && IsRegular(dl.written, name) && IsRegular(dl.written, sidecar)
    && verify(dl.written[name].kind.content, dl.written[sidecar].kind.content)
    && dl.written[name].kind.nuspecVersion == Some(asset.version)
  }

  /** From any cache, two calls whose downloads deliver are enough - exactly unless it is blocked. */
  lemma TwoCallsSuffice(d: Dir, asset: Asset, dl: Download, again: Download, verify: Verifier)
    requires Plain(asset.fileName) && asset.fullType
    requires Delivers(dl, asset, verify) && Delivers(again, asset, verify)
    ensures
      var after := Staged(d, asset, dl, verify).0;
      Staged(after, asset, again, verify).1 == Ok(asset) <==> !Blocked(d, asset, verify)
  {
    var name := asset.fileName;
    var after := Staged(d, asset, dl, verify).0;
    RetireFrame(d, name);
    if Blocked(d, asset, verify) {
      BlockedStays(d, asset, dl, verify);
      BlockedStays(after, asset, again, verify);
    } else if Exists(d, name) {
      assert name in AssetNames(name);
      assert Admit(d, name, asset.version, verify).Ready? || name !in after;
    } else {
      assert Admit(d + dl.written, name, asset.version, verify).Ready?;
    }
  }
}
