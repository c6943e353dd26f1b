/** Resolution of the omni-cache binary (src/install.js): reuse a tool-cache
    entry for a pinned version, otherwise download the release asset, make it
    executable and cache it under the resolved version. */
module Install {
  import opened Results
  import opened Text
  import opened Effects
  import Platform

  const ToolName := "omni-cache"
  const Latest := "latest"

  /** Mode 0o755 given to the downloaded file. */
  const ExecutableMode: nat := 493

  /** The `@actions/tool-cache` collaborator, as answers to its three calls. */
  datatype ToolCache = ToolCache(
    find: (string, string) -> string,           // tc.find(tool, version); "" when nothing is cached
    download: string -> Result<string>,         // tc.downloadTool(url): the downloaded file or the error message
    cacheDir: (string, string, string) -> string) // tc.cacheDir(dir, tool, version): the cached directory

  datatype Installed = Installed(path: string, version: string)

  predicate CacheHit(version: string, tc: ToolCache) {
    version != Latest && tc.find(ToolName, version) != ""
  }

  /** The staging directory `omni-cache-install-<Date.now()>` under the temp dir. */
  function StagingDir(m: Machine): string {
    Join(m.tmpdir, "omni-cache-install-" + NatToString(m.nowMillis))
  }

  /** The error thrown when `tc.downloadTool` rejects with `reason`. */
  function DownloadFailed(url: string, reason: string): string {
    "Failed to download omni-cache from " + url + ": " + reason
  }

  /** The version `latest` is cached under: the day of the download. */
  function LatestVersion(today: string): string {
    "latest-" + today
  }

  /** The calls the installer may make: nothing that publishes, fails the run,
      saves state, spawns, fetches or signals. */
  predicate InstallEvent(e: Event) {
    e.Info? || e.Find? || e.AddPath? || e.Download? || e.Chmod? || e.MakeDir?
    || e.CopyFile? || e.CacheDir?
  }

  /** What one run of the installer leaves behind: the value
      `installOmniCache` resolves to (or the message it throws) and the calls
      it made, in order. */
  datatype Outcome = Outcome(result: Result<Installed>, trace: seq<Event>)

  /** `installOmniCache(version)`, call by call, on a machine for which
      `getBinaryName()` gives `binary` (and `getDownloadUrl(version)` the
      asset of that name). A pinned version found in the tool cache is put on
      the PATH as it is; otherwise the release asset is downloaded, made
      executable (except on Windows), staged and cached under the resolved
      version, and the cached directory is put on the PATH. An unsupported
      machine throws before any call. */
  function InstallFor(version: string, m: Machine, tc: ToolCache, binary: Result<string>): Outcome {
    match binary
    case Err(e) => Outcome(Err(e), [])
    case Ok(binaryName) =>
      var lookup := if version != Latest then [Find(ToolName, version)] else [];
      if CacheHit(version, tc) then
        var cached := tc.find(ToolName, version);
        Outcome(Ok(Installed(Join(cached, binaryName), version)),
                lookup + [Info(FoundCached(version, cached))] + [AddPath(cached)])
      else
        var url := Platform.AssetUrl(version, binaryName);
        var fetched := lookup + [Info(Downloading(url))] + [Download(url)];
        match tc.download(url)
        case Err(e) => Outcome(Err(DownloadFailed(url, e)), fetched)
        case Ok(file) =>
          var chmod := if m.platform != "win32" then [Chmod(file, ExecutableMode)] else [];
          var resolved := if version == Latest then LatestVersion(m.today) else version;
          var staging := StagingDir(m);
          var cachedDir := tc.cacheDir(staging, ToolName, resolved);
          var finalPath := Join(cachedDir, binaryName);
          Outcome(Ok(Installed(finalPath, resolved)),
                  fetched + chmod + [MakeDir(staging)] + [CopyFile(file, Join(staging, binaryName))]
                  + [CacheDir(staging, ToolName, resolved)] + [AddPath(cachedDir)]
                  + [Info(InstalledTo(finalPath))])
  }

  /** The installer on machine `m`. */
  function Installation(version: string, m: Machine, tc: ToolCache): Outcome {
    InstallFor(version, m, tc, Platform.GetBinaryName(m.platform, m.arch))
  }

  /** `installOmniCache(version)`, step by step, recording its calls. */
  method InstallOmniCache(version: string, m: Machine, tc: ToolCache)
    returns (r: Result<Installed>, trace: seq<Event>)
    ensures Outcome(r, trace) == Installation(version, m, tc)
  {
    trace := [];
    var name := Platform.GetBinaryName(m.platform, m.arch);
    if name.Err? {
      r := Err(name.error);
      return;
    }
    var binaryName := name.value;
    assert Installation(version, m, tc) == InstallFor(version, m, tc, Ok(binaryName));

    if version != Latest {
      var cachedPath := tc.find(ToolName, version);
      trace := trace + [Find(ToolName, version)];
      if cachedPath != "" {
        trace := trace + [Info(FoundCached(version, cachedPath))];
        var binaryPath := Join(cachedPath, binaryName);
        trace := trace + [AddPath(cachedPath)];
        r := Ok(Installed(binaryPath, version));
        return;
      }
    }

    var downloadUrl := Platform.GetDownloadUrl(version, m.platform, m.arch).value;
    assert downloadUrl == Platform.AssetUrl(version, binaryName);
    assert !CacheHit(version, tc);
    trace := trace + [Info(Downloading(downloadUrl))];

    trace := trace + [Download(downloadUrl)];
    var downloaded := tc.download(downloadUrl);
    if downloaded.Err? {
      r := Err(DownloadFailed(downloadUrl, downloaded.error));
      return;
    }
    var downloadPath := downloaded.value;

    if m.platform != "win32" {
      trace := trace + [Chmod(downloadPath, ExecutableMode)];
    }

    var resolvedVersion := version;
    if version == Latest {
      resolvedVersion := LatestVersion(m.today);
    }

    var stagingDir := StagingDir(m);
    trace := trace + [MakeDir(stagingDir)];
    var destPath := Join(stagingDir, binaryName);
    trace := trace + [CopyFile(downloadPath, destPath)];

    var cachedDir := tc.cacheDir(stagingDir, ToolName, resolvedVersion);
    trace := trace + [CacheDir(stagingDir, ToolName, resolvedVersion)];
    var finalPath := Join(cachedDir, binaryName);

    trace := trace + [AddPath(cachedDir)];
    trace := trace + [Info(InstalledTo(finalPath))];
    r := Ok(Installed(finalPath, resolvedVersion));
  }

  /** An unsupported machine throws the platform module's message before
      making any call. */
  lemma UnsupportedMachine(version: string, m: Machine, tc: ToolCache, error: string)
    ensures InstallFor(version, m, tc, Err(error)) == Outcome(Err(error), [])
  {
  }

  /** A pinned version found in the tool cache is reused: the result is the
      binary in the cached directory under the requested version, that
      directory is the last thing put on the PATH, and nothing is downloaded. */
  lemma ReusedFromCache(version: string, m: Machine, tc: ToolCache, binaryName: string)
    requires CacheHit(version, tc)
    ensures var o := InstallFor(version, m, tc, Ok(binaryName));
      var cached := tc.find(ToolName, version);
      && o.result == Ok(Installed(Join(cached, binaryName), version))
      && o.trace[|o.trace| - 1] == AddPath(cached)
      && forall e | e in o.trace :: InstallEvent(e) && !e.Download? && (e.AddPath? ==> e.dir == cached)
  {
  }

  /** Without a cache hit the asset is downloaded; when that fails, the
      error thrown names the address and the reason, the download is the last
      call and nothing is put on the PATH. */
  lemma DownloadFailure(version: string, m: Machine, tc: ToolCache, binaryName: string)
    requires !CacheHit(version, tc)
    requires tc.download(Platform.AssetUrl(version, binaryName)).Err?
    ensures var o := InstallFor(version, m, tc, Ok(binaryName));
      var url := Platform.AssetUrl(version, binaryName);
      && o.result == Err(DownloadFailed(url, tc.download(url).error))
      && o.trace[|o.trace| - 1] == Download(url)
      && forall e | e in o.trace :: InstallEvent(e) && !e.AddPath?
  {
  }

  /** A successful download is cached under the resolved version (the
      requested one, or the day's for `latest`), and the result is the binary
      in the directory the tool cache returns, which is the one put on the
      PATH. */
  lemma FreshInstall(version: string, m: Machine, tc: ToolCache, binaryName: string)
    requires !CacheHit(version, tc)
    requires tc.download(Platform.AssetUrl(version, binaryName)).Ok?
    ensures var o := InstallFor(version, m, tc, Ok(binaryName));
      var url := Platform.AssetUrl(version, binaryName);
      var resolved := if version == Latest then LatestVersion(m.today) else version;
      var dir := tc.cacheDir(StagingDir(m), ToolName, resolved);
      && o.result == Ok(Installed(Join(dir, binaryName), resolved))
      && Download(url) in o.trace
      && CacheDir(StagingDir(m), ToolName, resolved) in o.trace
      && AddPath(dir) in o.trace
      && forall e | e in o.trace :: InstallEvent(e) && (e.AddPath? ==> e.dir == dir)
  {
    var o := InstallFor(version, m, tc, Ok(binaryName));
    var url := Platform.AssetUrl(version, binaryName);
    var file := tc.download(url).value;
    var resolved := if version == Latest then LatestVersion(m.today) else version;
    var staging := StagingDir(m);
    var dir := tc.cacheDir(staging, ToolName, resolved);
    var lookup := if version != Latest then [Find(ToolName, version)] else [];
    var chmod := if m.platform != "win32" then [Chmod(file, ExecutableMode)] else [];
    // the calls up to the download, then the staging and caching calls
    var head := lookup + [Info(Downloading(url))] + [Download(url)] + chmod;
    var tail := [MakeDir(staging)] + [CopyFile(file, Join(staging, binaryName))]
      + [CacheDir(staging, ToolName, resolved)] + [AddPath(dir)] + [Info(InstalledTo(Join(dir, binaryName)))];
    assert o.trace == head + [MakeDir(staging)] + [CopyFile(file, Join(staging, binaryName))]
      + [CacheDir(staging, ToolName, resolved)] + [AddPath(dir)] + [Info(InstalledTo(Join(dir, binaryName)))];
    assert forall e | e in head :: InstallEvent(e) && !e.AddPath?;
    assert forall e | e in tail :: InstallEvent(e) && (e.AddPath? ==> e.dir == dir);
  }

  /** Every run: it fails exactly when the machine is unsupported or a
      needed download fails; it only consults the tool cache, logs,
      downloads, touches its staging files and extends the PATH; and a
      success is the binary inside the directory put on the PATH, under the
      requested version or, for `latest`, the day's. */
  lemma InstallResult(version: string, m: Machine, tc: ToolCache, binary: Result<string>)
    ensures var o := InstallFor(version, m, tc, binary);
      && (o.result.Err? <==>
            binary.Err?
            || (!CacheHit(version, tc) && tc.download(Platform.AssetUrl(version, binary.value)).Err?))
      && (forall e | e in o.trace :: InstallEvent(e))
      && (o.result.Ok? ==>
            && o.result.value.version == (if version == Latest then LatestVersion(m.today) else version)
            && EndsWith(o.result.value.path, "/" + binary.value)
            && exists e | e in o.trace :: e.AddPath? && o.result.value.path == Join(e.dir, binary.value))
  {
    match binary
    case Err(error) =>
      UnsupportedMachine(version, m, tc, error);
    case Ok(binaryName) =>
      if CacheHit(version, tc) {
        ReusedFromCache(version, m, tc, binaryName);
        var o := InstallFor(version, m, tc, binary);
        assert o.trace[|o.trace| - 1] in o.trace;
      } else if tc.download(Platform.AssetUrl(version, binaryName)).Err? {
        DownloadFailure(version, m, tc, binaryName);
      } else {
        FreshInstall(version, m, tc, binaryName);
      }
  }

  /** `latest` is never looked up in the tool cache, so what the cache holds
      changes nothing: it is always downloaded. */
  lemma LatestSkipsCache(m: Machine, tc: ToolCache, binary: Result<string>, find: (string, string) -> string)
    ensures forall e | e in InstallFor(Latest, m, tc, binary).trace :: !e.Find?
    ensures InstallFor(Latest, m, tc, binary) == InstallFor(Latest, m, tc.(find := find), binary)
    ensures binary.Ok? ==>
      Download(Platform.AssetUrl(Latest, binary.value)) in InstallFor(Latest, m, tc, binary).trace
  {
    if binary.Ok? {
      var url := Platform.AssetUrl(Latest, binary.value);
      if tc.download(url).Err? {
        DownloadFailure(Latest, m, tc, binary.value);
        var o := InstallFor(Latest, m, tc, binary);
        assert o.trace[|o.trace| - 1] in o.trace;
      } else {
        FreshInstall(Latest, m, tc, binary.value);
      }
    }
  }
}
