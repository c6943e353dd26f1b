/** Naming of the released omni-cache binaries (src/platform.js). The values
    `os.platform()` and `os.arch()` report are parameters. */
module Platform {
  import opened Results
  import opened Text

  /** `platformMap`: the operating systems a binary is published for. */
  const PlatformNames: map<string, string> :=
    map["darwin" := "darwin", "linux" := "linux", "freebsd" := "freebsd",
        "netbsd" := "netbsd", "openbsd" := "openbsd"]

  /** `archMap`: Node's architecture names to the release names. */
  const ArchNames: map<string, string> :=
    map["x64" := "amd64", "arm64" := "arm64", "arm" := "arm", "s390x" := "s390x"]

  /** The lists the two error messages end with. */
  const PlatformList := ["darwin", "linux", "freebsd", "netbsd", "openbsd"]
  const ArchList := ["x64 (amd64)", "arm64", "arm", "s390x"]

  const Releases := "https://github.com/cirruslabs/omni-cache/releases"

  /** `names` separated by ", ". */
  function Commas(names: seq<string>): string {
    if |names| == 0 then ""
    else if |names| == 1 then names[0]
    else names[0] + ", " + Commas(names[1..])
  }

  /** The message thrown for an operating system without a binary. */
  function UnsupportedPlatform(platform: string): (message: string)
    ensures StartsWith(message, "Unsupported platform: " + platform)
  {
    var prefix := "Unsupported platform: " + platform;
    PrefixOfConcat(prefix, ". omni-cache supports: " + Commas(PlatformList));
    prefix + ". omni-cache supports: " + Commas(PlatformList)
  }

  /** The message thrown for an architecture without a binary. */
  function UnsupportedArch(arch: string): (message: string)
    ensures StartsWith(message, "Unsupported architecture: " + arch)
  {
    var prefix := "Unsupported architecture: " + arch;
    PrefixOfConcat(prefix, ". omni-cache supports: " + Commas(ArchList));
    prefix + ". omni-cache supports: " + Commas(ArchList)
  }

  /** `getPlatform`: a supported system keeps its name. */
  function GetPlatform(platform: string): (r: Result<string>)
    ensures r.Ok? <==> platform in PlatformNames
    ensures r.Ok? ==> r.value == platform
    ensures r.Err? ==> r.error == UnsupportedPlatform(platform)
  {
    if platform in PlatformNames then Ok(PlatformNames[platform])
    else Err(UnsupportedPlatform(platform))
  }

  /** `getArch`: only x64 is renamed, to amd64. */
  function GetArch(arch: string): (r: Result<string>)
    ensures r.Ok? <==> arch in ArchNames
    ensures r.Ok? ==> r.value == if arch == "x64" then "amd64" else arch
    ensures r.Err? ==> r.error == UnsupportedArch(arch)
  {
    if arch in ArchNames then Ok(ArchNames[arch])
    else Err(UnsupportedArch(arch))
  }

  /** `getBinaryName`: the platform is looked up first, so its error wins. */
  function GetBinaryName(platform: string, arch: string): (r: Result<string>)
    ensures r.Ok? <==> platform in PlatformNames && arch in ArchNames
    ensures r.Ok? ==> r.value == "omni-cache-" + platform + "-" + GetArch(arch).value
    ensures platform !in PlatformNames ==> r.error == UnsupportedPlatform(platform)
    ensures platform in PlatformNames && arch !in ArchNames ==> r.error == UnsupportedArch(arch)
  {
    match GetPlatform(platform)
    case Err(e) => Err(e)
    case Ok(p) =>
      match GetArch(arch)
      case Err(e) => Err(e)
      case Ok(a) => Ok("omni-cache-" + p + "-" + a)
  }

  /** The release asset `binaryName` of `version`: the `latest` alias uses
      GitHub's latest-release redirect, every other version names its tag. */
  function AssetUrl(version: string, binaryName: string): (url: string)
    ensures version == "latest" ==> url == Releases + "/latest/download/" + binaryName
    ensures version != "latest" ==> url == Releases + "/download/" + version + "/" + binaryName
  {
    var tag := if version == "latest" then "latest" else version;
    if tag == "latest" then Releases + "/latest/download/" + binaryName
    else Releases + "/download/" + tag + "/" + binaryName
  }

  /** `getDownloadUrl`: the asset of this machine's binary. */
  function GetDownloadUrl(version: string, platform: string, arch: string): (r: Result<string>)
    ensures r.Ok? <==> GetBinaryName(platform, arch).Ok?
    ensures r.Err? ==> r.error == GetBinaryName(platform, arch).error
    ensures r.Ok? ==> r.value == AssetUrl(version, GetBinaryName(platform, arch).value)
  {
    match GetBinaryName(platform, arch)
    case Err(e) => Err(e)
    case Ok(binaryName) => Ok(AssetUrl(version, binaryName))
  }

  /** Exactly five systems are supported. */
  lemma SupportedPlatforms(platform: string)
    ensures GetPlatform(platform).Ok? <==>
      platform == "darwin" || platform == "linux" || platform == "freebsd"
      || platform == "netbsd" || platform == "openbsd"
  {
  }

  /** Exactly four architectures are supported. */
  lemma SupportedArchs(arch: string)
    ensures GetArch(arch).Ok? <==> arch == "x64" || arch == "arm64" || arch == "arm" || arch == "s390x"
  {
  }

  /** The asset for Linux on x64, as the release page names it. */
  lemma LinuxAmd64()
    ensures GetBinaryName("linux", "x64") == Ok("omni-cache-linux-amd64")
  {
    assert "linux" in PlatformNames && "x64" in ArchNames;
    assert GetArch("x64").value == "amd64";
    assert "omni-cache-" + "linux" + "-" + "amd64" == "omni-cache-linux-amd64";
  }

  /** Different versions are downloaded from different addresses: a pinned
      version never resolves to the latest-release asset, and two pinned
      versions never share an asset. */
  lemma AssetUrlInjective(v1: string, v2: string, b: string)
    requires v1 != v2
    ensures AssetUrl(v1, b) != AssetUrl(v2, b)
  {
    if v1 == "latest" || v2 == "latest" {
      // one address continues with "latest/", the other with "download/"
      var pinned := if v1 == "latest" then v2 else v1;
      LatestIsNotPinned(pinned, b);
    } else if |v1| == |v2| {
      // same length: the tags sit at the same place and differ there
      TagsDiffer(Releases + "/download/", v1, v2, b);
    }
  }

  lemma DownloadUrlInjective(v1: string, v2: string, platform: string, arch: string)
    requires GetBinaryName(platform, arch).Ok?
    requires v1 != v2
    ensures GetDownloadUrl(v1, platform, arch).value != GetDownloadUrl(v2, platform, arch).value
  {
    AssetUrlInjective(v1, v2, GetBinaryName(platform, arch).value);
  }

  lemma LatestIsNotPinned(version: string, b: string)
    ensures Releases + "/latest/download/" + b != Releases + "/download/" + version + "/" + b
  {
    var n := |Releases + "/"|;
    assert (Releases + "/latest/download/" + b)[n] == 'l';
    assert (Releases + "/download/" + version + "/" + b)[n] == 'd';
  }

  lemma TagsDiffer(x: string, v1: string, v2: string, y: string)
    requires |v1| == |v2| && v1 != v2
    ensures x + v1 + "/" + y != x + v2 + "/" + y
  {
    assert (x + v1 + "/" + y)[|x|..|x| + |v1|] == v1;
    assert (x + v2 + "/" + y)[|x|..|x| + |v2|] == v2;
  }
}
