/** `ensureDrill` of src/installer.ts: the decision ladder that yields a
    runnable agent binary. A configured override wins outright; otherwise the
    per-installation cache path is used when present; otherwise, if allowed,
    the latest release is fetched, an asset is picked, downloaded beside the
    cache path, copied onto it and made executable.

    The filesystem is a set of existing paths, the release host an oracle,
    and every side effect is appended to a trace. */
module Installer {
  import opened Wrappers
  import opened Text
  import opened Settings
  import opened AssetResolver
  import opened Effects

  const ApiLatest: string := "https://api.github.com/repos/DragonSecurity/drill/releases/latest"

  /** What the extension learns from Node and VS Code about where it runs. */
  datatype Host = Host(platform: string, arch: string, storage: string)

  datatype Release = Release(tag: string, assets: Option<seq<Asset>>)

  /** The status line of a non-2xx answer. */
  datatype HttpStatus = HttpStatus(status: int, statusText: string)

  /** The error `httpJson` and `download` throw: the status line and the URL requested. */
  datatype RemoteError = RemoteError(status: int, statusText: string, url: string)

  /** The release host: the answer to the latest-release query, and the URLs
      whose download fails, with the status line of the failure. */
  datatype Remote = Remote(latest: Result<Release, HttpStatus>, failing: map<string, HttpStatus>)

  /** The error thrown for a non-2xx answer to a request of `url`. */
  function Refused(st: HttpStatus, url: string): (e: RemoteError)
    ensures e.url == url
  {
    RemoteError(st.status, st.statusText, url)
  }

  datatype InstallError =
    | NotInstalled
    | NoAsset(platform: string, arch: string)
    | Unreachable(cause: RemoteError)

  /** One call of `ensureDrill`: its result, the filesystem after it, its effects. */
  datatype Install = Install(result: Result<string, InstallError>, fs: set<string>, effects: seq<Effect>)

  /** The `Error` message the source throws. */
  function Message(e: InstallError): string {
    match e
    case NotInstalled => "Drill not installed"
    case NoAsset(p, a) => "No release asset found for " + p + "/" + a
    case Unreachable(RemoteError(status, text, url)) => IntToString(status) + " " + text + " for " + url
  }

  /** The trimmed `drill.path` setting; empty means no override. */
  function Override(cfg: Config): string {
    Trim(TextOr(cfg, "drill.path", ""))
  }

  /** `path.join` separator. */
  function Sep(platform: string): string {
    if platform == "win32" then "\\" else "/"
  }

  function BinDir(host: Host): string {
    host.storage + Sep(host.platform) + "bin"
  }

  function BinName(platform: string): string {
    if platform == "win32" then "drill.exe" else "drill"
  }

  /** The cache path: `<storage>/bin/drill`, `drill.exe` on Windows. */
  function BinPath(host: Host): string {
    BinDir(host) + Sep(host.platform) + BinName(host.platform)
  }

  /** Where an asset is downloaded before it is copied onto the cache path. */
  function TmpPath(host: Host, assetName: string): string {
    BinDir(host) + Sep(host.platform) + assetName
  }

  /** `ensureDrill(context, { installIfMissing })`. */
  function EnsureDrill(cfg: Config, host: Host, fs: set<string>, remote: Remote, installIfMissing: bool): (r: Install)
    ensures fs <= r.fs
    ensures Override(cfg) != "" ==> r == Install(Success(Override(cfg)), fs, [])
    ensures Override(cfg) == "" && r.result.Success? ==> r.result.value == BinPath(host) && BinPath(host) in r.fs
    ensures r.result.Failure? ==> BinPath(host) !in r.fs
    ensures BinPath(host) in fs || !installIfMissing ==> NoNetwork(r.effects)
    ensures NoProcessControl(r.effects)
  {
    var userPath := Override(cfg);
    if userPath != "" then
      Install(Success(userPath), fs, [])
    else
      var dir := BinDir(host);
      var bin := BinPath(host);
      BinPathIsNotDir(host);
      var fs1 := fs + {dir};
      if bin in fs1 then
        Install(Success(bin), fs1, [Mkdir(dir)])
      else if !installIfMissing then
        Install(Failure(NotInstalled), fs1, [Mkdir(dir)])
      else
        var r := Fetch(host, remote);
        Install(r.result, fs1 + r.fs, [Mkdir(dir)] + r.effects)
  }

  /** The install steps after the cache missed: fetch the latest release, pick
      an asset, download it beside the cache path, copy it onto the cache path
      and, except on Windows, make it executable. `fs` holds the files written. */
  function Fetch(host: Host, remote: Remote): (r: Install)
    ensures r.result.Success? ==> r.result.value == BinPath(host) && BinPath(host) in r.fs
    ensures r.result.Failure? ==> r.fs == {} && !r.result.error.NotInstalled?
    ensures r.effects != [] && r.effects[0] == FetchJson(ApiLatest)
    ensures r.result.Failure? && r.result.error.Unreachable? ==>
      IsNetwork(r.effects[|r.effects| - 1]) && r.effects[|r.effects| - 1].url == r.result.error.cause.url
    ensures NoProcessControl(r.effects)
  {
    var bin := BinPath(host);
    match remote.latest
    case Failure(st) => Install(Failure(Unreachable(Refused(st, ApiLatest))), {}, [FetchJson(ApiLatest)])
    case Success(rel) =>
      match PickAsset(rel.assets.GetOr([]), OsPart(host.platform), ArchPart(host.arch))
      case None => Install(Failure(NoAsset(host.platform, host.arch)), {}, [FetchJson(ApiLatest)])
      case Some(asset) =>
        var tmp := TmpPath(host, asset.name);
        var downloaded := [FetchJson(ApiLatest), Download(asset.url, tmp)];
        if asset.url in remote.failing then
          Install(Failure(Unreachable(Refused(remote.failing[asset.url], asset.url))), {}, downloaded)
        else
          Install(Success(bin), {tmp, bin}, InstallEffects(host, asset))
  }

  /** The effects of a successful install of `asset`: one metadata request,
      one download beside the cache path, a copy onto the cache path and,
      except on Windows, `chmod 0o755` of it. */
  function InstallEffects(host: Host, asset: Asset): (e: seq<Effect>)
    ensures |e| == if host.platform == "win32" then 3 else 4
    ensures e[0] == FetchJson(ApiLatest) && e[1] == Download(asset.url, TmpPath(host, asset.name))
    ensures e[2] == CopyFile(TmpPath(host, asset.name), BinPath(host))
    ensures host.platform != "win32" ==> e[3] == Chmod(BinPath(host), ExecutableMode)
    ensures NoProcessControl(e)
  {
    var tmp := TmpPath(host, asset.name);
    var bin := BinPath(host);
    if host.platform == "win32" then
      [FetchJson(ApiLatest), Download(asset.url, tmp), CopyFile(tmp, bin)]
    else
      [FetchJson(ApiLatest), Download(asset.url, tmp), CopyFile(tmp, bin), Chmod(bin, ExecutableMode)]
  }

  /** The cache path is strictly longer than the directory holding it. */
  lemma BinPathIsNotDir(host: Host)
    ensures BinPath(host) != BinDir(host)
  {
    assert |BinPath(host)| > |BinDir(host)|;
  }

  /** An existing cache entry is returned with no network access and nothing written. */
  lemma CacheHit(cfg: Config, host: Host, fs: set<string>, remote: Remote, installIfMissing: bool)
    requires Override(cfg) == "" && BinPath(host) in fs
    ensures EnsureDrill(cfg, host, fs, remote, installIfMissing) ==
      Install(Success(BinPath(host)), fs + {BinDir(host)}, [Mkdir(BinDir(host))])
  {
  }

  /** "Drill not installed" is raised exactly when there is no override, no
      cache entry and installing was not requested; it touches no network. */
  lemma NotInstalledExactly(cfg: Config, host: Host, fs: set<string>, remote: Remote, installIfMissing: bool)
    ensures var r := EnsureDrill(cfg, host, fs, remote, installIfMissing);
      r.result == Failure(NotInstalled) <==>
        Override(cfg) == "" && BinPath(host) !in fs && !installIfMissing
    ensures var r := EnsureDrill(cfg, host, fs, remote, installIfMissing);
      r.result == Failure(NotInstalled) ==> NoNetwork(r.effects) && Message(r.result.error) == "Drill not installed"
  {
    var r := EnsureDrill(cfg, host, fs, remote, installIfMissing);
    if Override(cfg) == "" && BinPath(host) !in fs && installIfMissing {
      BinPathIsNotDir(host);
      var f := Fetch(host, remote);
      assert r.result == f.result;
    }
  }

  /** With no matching asset the install fails with the platform in the message
      after a single metadata request. */
  lemma NoAssetFound(cfg: Config, host: Host, fs: set<string>, remote: Remote, rel: Release)
    requires Override(cfg) == "" && BinPath(host) !in fs
    requires remote.latest == Success(rel)
    requires PickAsset(rel.assets.GetOr([]), OsPart(host.platform), ArchPart(host.arch)).None?
    ensures var r := EnsureDrill(cfg, host, fs, remote, true);
      r.result == Failure(NoAsset(host.platform, host.arch)) &&
      Message(r.result.error) == "No release asset found for " + host.platform + "/" + host.arch &&
      |r.effects| == 2 && r.effects[0] == Mkdir(BinDir(host)) && r.effects[1] == FetchJson(ApiLatest)
  {
    var r := EnsureDrill(cfg, host, fs, remote, true);
    var f := Fetch(host, remote);
    FetchNoAsset(host, remote, rel);
    AfterCacheMiss(cfg, host, fs, remote);
    assert r.result == Failure(NoAsset(host.platform, host.arch));
  }

  lemma FetchNoAsset(host: Host, remote: Remote, rel: Release)
    requires remote.latest == Success(rel)
    requires PickAsset(rel.assets.GetOr([]), OsPart(host.platform), ArchPart(host.arch)).None?
    ensures Fetch(host, remote) == Install(Failure(NoAsset(host.platform, host.arch)), {}, [FetchJson(ApiLatest)])
  {
  }

  /** A call that must install runs the install steps after creating the cache directory. */
  lemma AfterCacheMiss(cfg: Config, host: Host, fs: set<string>, remote: Remote)
    requires Override(cfg) == "" && BinPath(host) !in fs
    ensures var f := Fetch(host, remote);
      EnsureDrill(cfg, host, fs, remote, true) ==
        Install(f.result, fs + {BinDir(host)} + f.fs, [Mkdir(BinDir(host))] + f.effects)
  {
    BinPathIsNotDir(host);
    assert BinPath(host) !in fs + {BinDir(host)};
  }

  /** The full install writes the download and the cache path and performs
      exactly the install effects after creating the cache directory. */
  lemma InstallSteps(cfg: Config, host: Host, fs: set<string>, remote: Remote, rel: Release, asset: Asset)
    requires Override(cfg) == "" && BinPath(host) !in fs
    requires remote.latest == Success(rel)
    requires PickAsset(rel.assets.GetOr([]), OsPart(host.platform), ArchPart(host.arch)) == Some(asset)
    requires asset.url !in remote.failing
    ensures var r := EnsureDrill(cfg, host, fs, remote, true);
      r.result == Success(BinPath(host)) &&
      r.fs == fs + {BinDir(host), TmpPath(host, asset.name), BinPath(host)} &&
      r.effects == [Mkdir(BinDir(host))] + InstallEffects(host, asset)
  {
    var r := EnsureDrill(cfg, host, fs, remote, true);
    var f := Fetch(host, remote);
    FetchInstalls(host, remote, rel, asset);
    AfterCacheMiss(cfg, host, fs, remote);
    assert r.result == Success(BinPath(host));
    assert r.fs == fs + {BinDir(host)} + {TmpPath(host, asset.name), BinPath(host)};
    assert r.effects == [Mkdir(BinDir(host))] + InstallEffects(host, asset);
  }

  lemma FetchInstalls(host: Host, remote: Remote, rel: Release, asset: Asset)
    requires remote.latest == Success(rel)
    requires PickAsset(rel.assets.GetOr([]), OsPart(host.platform), ArchPart(host.arch)) == Some(asset)
    requires asset.url !in remote.failing
    ensures Fetch(host, remote) ==
      Install(Success(BinPath(host)), {TmpPath(host, asset.name), BinPath(host)}, InstallEffects(host, asset))
  {
  }

  /** Idempotence: once a call has succeeded, the next call, whatever the
      release host does and whether or not it may install, returns the same
      path, writes nothing new and makes no network request. */
  lemma SecondCallHitsCache(cfg: Config, host: Host, fs: set<string>, remote: Remote, remote': Remote,
                            installIfMissing: bool, installIfMissing': bool)
    requires EnsureDrill(cfg, host, fs, remote, installIfMissing).result.Success?
    ensures var first := EnsureDrill(cfg, host, fs, remote, installIfMissing);
      var second := EnsureDrill(cfg, host, first.fs, remote', installIfMissing');
      second.result == first.result && second.fs == first.fs && NoNetwork(second.effects)
  {
    var first := EnsureDrill(cfg, host, fs, remote, installIfMissing);
    if Override(cfg) == "" {
      assert BinDir(host) in first.fs;
      assert first.fs + {BinDir(host)} == first.fs;
    }
  }

  /** The download never lands on the cache path when the cache file name
      cannot contain the OS part (true of every platform Node reports). */
  lemma TmpIsNotCachePath(host: Host, assets: seq<Asset>, asset: Asset)
    requires PickAsset(assets, OsPart(host.platform), ArchPart(host.arch)) == Some(asset)
    requires !Contains(BinName(host.platform), OsPart(host.platform))
    ensures TmpPath(host, asset.name) != BinPath(host)
  {
    assert asset.name != BinName(host.platform);
    var prefix := BinDir(host) + Sep(host.platform);
    assert TmpPath(host, asset.name) == prefix + asset.name;
    assert BinPath(host) == prefix + BinName(host.platform);
    assert (prefix + asset.name)[|prefix|..] == asset.name;
    assert (prefix + BinName(host.platform))[|prefix|..] == BinName(host.platform);
  }

  /** A string containing `p` contains every character of `p`. */
  lemma MissingCharNotContained(s: string, p: string, k: nat)
    requires k < |p| && p[k] !in s
    ensures !Contains(s, p)
  {
    forall i: nat
      ensures !OccursAt(s, p, i)
    {
      if i + |p| <= |s| {
        assert s[i..i + |p|][k] == s[i + k];
      }
    }
  }

  /** On Windows, macOS and Linux the cache file name does not contain the OS
      part, so the download and the cache path differ. */
  lemma SupportedPlatformsKeepTmpApart(platform: string)
    requires platform == "win32" || platform == "darwin" || platform == "linux"
    ensures !Contains(BinName(platform), OsPart(platform))
  {
    if platform == "win32" {
      MissingCharNotContained("drill.exe", "windows", 0);
    } else if platform == "darwin" {
      MissingCharNotContained("drill", "darwin", 1);
    } else {
      MissingCharNotContained("drill", "linux", 2);
    }
  }
}
