# setup-omni-cache, modelled in Dafny

`setup-omni-cache` is a GitHub Action that runs the omni-cache server as a
sidecar for the rest of a workflow job. It has two phases.

- **Start phase.** The action picks the release binary for the runner's
  operating system and architecture. It reuses a tool-cache copy of a pinned
  version or downloads the release asset, then caches it and puts it on the
  PATH. It launches `omni-cache sidecar` in the background, with the bucket,
  host, prefix and S3 endpoint in the child's environment. It saves the
  child's pid, the host and the log file for the stop phase. It then probes
  `<endpoint>/stats` up to 30 times, one second apart. It publishes `version`
  right after the install, and `cache-endpoint` and `cache-socket` once the
  sidecar is healthy. Any error ends
  the phase with a single `setFailed`.
- **Stop phase (post action).** The action reads the saved state. It fetches
  `<endpoint>/metrics/cache` and prints the body. When the body is JSON with
  `hits` and `misses`, it logs the hit rate and writes a job summary. It then
  shows the server's log and stops the server: first SIGTERM, then up to 20
  liveness probes 500 ms apart, then SIGKILL if the process is still alive.
  This phase never fails the workflow.

The project has seven modules:

| module | file | models |
|---|---|---|
| `Results` | `results.dfy` | `Option` and `Result` |
| `Text` | `text.dfy` | the JavaScript string operations the action relies on: `trim`, `parseInt(s, 10)`, number-to-string, `startsWith`/`endsWith`, and `path.join` of two parts |
| `Effects` | `effects.dfy` | the observable calls: every call to `@actions/core`, the tool cache, the file system, `spawn`, `fetch`, `process.kill` and the timers is an `Event`, and a run is the sequence of events it produces (its trace) |
| `Platform` | `platform.dfy` | `src/platform.js` |
| `Install` | `install.dfy` | `src/install.js` |
| `Startup` | `startup.dfy` | `src/main.js` |
| `Post` | `post.dfy` | `src/post.js` |

Outside collaborators are given as parameters; the repeated calls (health
probes, `process.kill`) as answers indexed by call number:

- the tool cache, as a `ToolCache` of three functions;
- the health probes, as `respond(attempt)`;
- the statistics `fetch`, as a single `FetchResult`;
- `JSON.parse`, as a function from text to `Parsed`;
- `process.kill`, as `kill(k)` for its k-th call. Call 0 is SIGTERM.
- the machine, as a `Machine` value: platform, architecture, temporary and
  home directories, clock and date.

Each loop or step-by-step procedure of the source is a Dafny `method`:
`InstallOmniCache`, `WaitForHealthy`, `Startup.Run`, `Serve`,
`ShutdownOmniCache` and `Post.Run`. Each `ensures` that its result and trace
equal a specification function defined by recursion or by cases. The
properties are lemmas about those functions.

## Model

| member | source | states |
|---|---|---|
| Platform.GetPlatform | src/platform.js:7-24 | Succeeds exactly for darwin, linux, freebsd, netbsd and openbsd, which keep their names. Any other system gets the "Unsupported platform: …" error. |
| Platform.UnsupportedPlatform | src/platform.js:18-21 | The platform error message begins with "Unsupported platform: " and the system's name. |
| Platform.SupportedPlatforms | src/platform.js:9-15 | The supported systems are exactly the five listed. |
| Platform.GetArch | src/platform.js:30-46 | Succeeds exactly for x64, arm64, arm and s390x. Only x64 is renamed, to amd64. Anything else gets the "Unsupported architecture: …" error. |
| Platform.UnsupportedArch | src/platform.js:40-43 | The architecture error message begins with "Unsupported architecture: " and the name. |
| Platform.SupportedArchs | src/platform.js:32-37 | The supported architectures are exactly the four listed. |
| Platform.GetBinaryName | src/platform.js:52-56 | The name is `omni-cache-<platform>-<arch>` exactly when both are supported. The platform is checked first, so its error wins when both are unsupported. |
| Platform.LinuxAmd64 | src/platform.js:52-56 | Linux on x64 gets `omni-cache-linux-amd64`. |
| Platform.AssetUrl | src/platform.js:63-71 | `latest` uses the `/releases/latest/download/` address. Any other version uses `/releases/download/<version>/`. |
| Platform.GetDownloadUrl | src/platform.js:63-71 | Succeeds or fails exactly as `getBinaryName` does, with the same error. On success it is the asset address of that binary name. |
| Platform.AssetUrlInjective | src/platform.js:67-70 | Two different versions never share a download address. |
| Platform.DownloadUrlInjective | src/platform.js:63-71 | On a supported machine, different versions give different download addresses. |
| Install.InstallOmniCache | src/install.js:15-70 | The method's result and call sequence equal the installer specification `Installation` for this machine. |
| Install.UnsupportedMachine | src/install.js:16 | On an unsupported machine, the binary-name error is thrown before any call is made. |
| Install.ReusedFromCache | src/install.js:19-27 | A pinned version found in the tool cache returns the binary in the cached directory, under the requested version. That directory is the last call, put on the PATH. Nothing is downloaded. |
| Install.DownloadFailure | src/install.js:30-40 | A failed download throws "Failed to download omni-cache from <url>: <reason>". The download is the last call, and nothing is put on the PATH. |
| Install.FreshInstall | src/install.js:30-69 | A successful download is cached under the resolved version: the requested one, or `latest-<date>` for `latest`. The result is the binary in the directory the tool cache returned, and that directory is the one put on the PATH. |
| Install.InstallResult | src/install.js:15-70 | Fails exactly when the machine is unsupported, or when no cached copy is found and the download fails. Every call is a cache lookup, a log line, a download, a staging-file operation on the binary or a PATH extension. On success the version is resolved, the path ends in `/<binary>`, and its directory was put on the PATH. |
| Install.LatestSkipsCache | src/install.js:19 | `latest` is never looked up in the tool cache, so the cache's contents do not change the outcome. It is always downloaded. |
| Startup.HostOf | src/main.js:50 | The host is never empty: a given host input is used as it is, otherwise `localhost:12321`. |
| Startup.VersionOf | src/main.js:52 | The version is never empty: a given version input is used as it is, otherwise `latest`. |
| Startup.DefaultVersion | src/main.js:52 | Without a version input the `latest` release is installed. |
| Startup.Endpoint | src/main.js:16 | The endpoint always begins with "http". A host already beginning with "http" is kept as it is. Any other host gets "http://" in front. |
| Startup.EndpointIdempotent | src/main.js:106 | Normalising an endpoint a second time changes nothing. |
| Startup.DefaultEndpoint | src/main.js:50 | Without a host input the host is `localhost:12321` and the endpoint is `http://localhost:12321`. |
| Startup.WaitForHealthy | src/main.js:15-39 | The loop's outcome and calls equal the health-wait specification `HealthFrom`, starting from attempt 1. |
| Startup.HealthyAtFirstOk | src/main.js:18-24 | The wait ends healthy at attempt k iff k is the first attempt within the budget that gets an OK answer. |
| Startup.ExhaustedWithoutOk | src/main.js:18-38 | The wait runs out of attempts, and throws, iff no attempt within the budget gets an OK answer. |
| Startup.HealthProbes | src/main.js:18-20 | One `/stats` probe per attempt made: up to and including the healthy attempt, or the whole budget. |
| Startup.HealthPauses | src/main.js:31-33 | One pause between consecutive attempts. There is none after the last attempt of the budget and none after the healthy one. |
| Startup.HealthEvents | src/main.js:18-34 | The wait only probes the `/stats` address, logs and pauses. |
| Startup.ChildEnvironment | src/main.js:62-73 | The child's environment is the inherited one plus the bucket and host. The prefix and S3 endpoint are added only when those inputs are non-empty. Every other inherited variable keeps its value, including an inherited prefix or S3 endpoint when the input is empty. |
| Startup.Run | src/main.js:45-121 | The method's calls equal the start-phase specification `StartTrace`. |
| Startup.Serve | src/main.js:88-116 | After the spawn, the method's calls equal `Serving`: save the state, wait, then publish or fail. |
| Startup.ServingSavesFirst | src/main.js:88-92 | Once the child has a pid, the pid text, the host and the log file are saved first, in that order. |
| Startup.ServingSavesBeforeProbes | src/main.js:88-103 | Every save comes before the first health probe. |
| Startup.ServingReady | src/main.js:103-116 | After a healthy wait nothing fails, both `cache-endpoint` and `cache-socket` are set, and the Unix socket line is logged last. |
| Startup.ServingUnhealthy | src/main.js:103-120 | After an exhausted wait the phase fails once, at its end, with the exhaustion message. No output is set. |
| Startup.LaunchedFacts | src/main.js:54-86 | Up to the spawn nothing fails, nothing is saved and nothing is probed. `version` is the only output set, and the last call spawns `<binary> sidecar` with `ChildEnvironment`. |
| Startup.StartInstallFailed | src/main.js:57-120 | A failed install ends the phase with its message. Nothing is spawned and no output is set. |
| Startup.StartSpawnFailed | src/main.js:89-120 | A child without a pid fails the phase right after the spawn, before anything is saved. `version` is the only output set. |
| Startup.StartReady | src/main.js:45-116 | A healthy server completes the phase without failure, with `version`, `cache-endpoint` and `cache-socket` all set. |
| Startup.StartUnhealthy | src/main.js:103-120 | A server that never becomes healthy fails the phase once. Only `version` was set. |
| Startup.StartSavesFirst | src/main.js:88-103 | Once the child has a pid, the three state values are saved, and all saves come before any probe. |
| Startup.StartWithFailures | src/main.js:45-121 | For each cause (missing bucket, install error, missing pid, exhausted wait) the phase fails exactly once, as its last call, with that cause's message. |
| Startup.StartWithSucceeds | src/main.js:45-121 | The phase succeeds iff the bucket is given, the install works, the child has a pid and the wait ends healthy. |
| Startup.StartOutcome | src/main.js:45-121 | On a given machine, the phase succeeds iff the bucket is given, the install works, the child has a pid and one of the first 30 probes gets an OK answer. |
| Startup.StartFailsOnce | src/main.js:117-120 | A start phase that does not succeed reports exactly one failure, as its last call. |
| Startup.StartWithOutputs | src/main.js:103-120 | Whatever the installer and the health wait did, a phase that does not succeed sets no output except `version`. |
| Startup.StartFailureOutputs | src/main.js:103-120 | On a given machine, a start phase that does not succeed sets neither `cache-endpoint` nor `cache-socket`. |
| Text.ParseIntOfNatToString | src/main.js:90 | Parsing the saved pid text back in base 10 gives the pid again. This is the `toString`/`parseInt` round trip between the two phases. |
| Text.ParseInt | src/post.js:139 | `parseInt(s, 10)`: leading white space is skipped, an optional sign is read, then the longest run of decimal digits. No digits gives `NaN` (`None`). Its round trip with `toString` is ParseIntOfNatToString. |
| Text.Trim | src/post.js:18 | `trim()`: white space is dropped from both ends. What it keeps is stated by TrimDrops. |
| Text.Join | src/main.js:76 | `path.join` of two parts: the first part, one `/`, then the second, and nothing else. |
| Text.TrimDrops | src/post.js:18 | `trim` removes only surrounding white space. The result is empty iff the text is all white space, and it is a contiguous slice of the input whose dropped prefix and suffix are all white space. |
| Post.StatsUrl | src/post.js:10-13 | The statistics address is the normalised endpoint followed directly by `/metrics/cache`, with nothing between them. |
| Post.StripBom | src/post.js:17 | Exactly one leading byte order mark is dropped. Anything else is unchanged. |
| Post.HitRateTenths | src/post.js:40-42 | The rate in tenths of a percent is the exact rate `hits*1000/total` rounded to the nearest tenth. It is never above 100 percent. |
| Post.Tenths | src/post.js:42 | The rate is printed as digits, a point, and one digit. |
| Post.TenthsValue | src/post.js:42 | Reading the printed digits of a rate back gives the rate. |
| Post.RateText | src/post.js:41-42 | The rate text is `0` iff nothing was counted. Otherwise it is the rounded rate with one decimal. |
| Post.TwoThirds | src/post.js:40-45 | 100 hits and 50 misses print as 66.7. |
| Post.LooksLikeJson | src/post.js:27 | `/^[{[]/.test(trimmed)`: the text is non-empty and begins with `{` or `[`. |
| Post.JsonOpeners | src/post.js:27 | The JSON test accepts exactly the texts that start with `{` or with `[`. |
| Post.FetchStats | src/post.js:9-71 | `fetchStats(host)`: it always fetches the statistics address first, and something is always logged after it. Statistics are returned only for an OK response. |
| Post.Answer | src/post.js:12-68 | A rejected fetch or an error status gives exactly one warning and no statistics. An OK response is handled by Classify. |
| Post.Classify | src/post.js:14-62 | An OK body always logs something. Statistics are returned iff the trimmed body looks like JSON and parses, and they are the parser's value. |
| Post.Report | src/post.js:40-59 | Nothing is reported iff a counter is missing. Otherwise the report is a log line and then the summary under the level-2 "omni-cache Statistics" heading. |
| Post.FetchStatsResult | src/post.js:9-71 | Statistics are returned iff the response is OK and its trimmed body looks like JSON and parses. The value returned is what the parser gave. |
| Post.FetchStatsTrace | src/post.js:10-13 | The first call is the `fetch` of the statistics address, whatever the outcome. |
| Post.AnswerEffects | src/post.js:12-68 | At most one warning follows the fetch. There is no probe, no signal and no failure, because `fetchStats` never throws. |
| Post.EmptyBody | src/post.js:19-22 | An empty or all-white-space body is noted at debug level only. No statistics, nothing printed. |
| Post.BodyPrinted | src/post.js:24-25 | Every other OK body is printed whole after the heading, with its white space kept. |
| Post.PlainTextBody | src/post.js:27-29 | A body that does not start with `{` or `[` is printed and nothing more. |
| Post.MalformedBody | src/post.js:31-37 | A JSON-looking body that does not parse gives one warning with the parser's message, and no statistics. |
| Post.ParsedBody | src/post.js:31-62 | Parsed statistics are returned and then reported. |
| Post.ReportWithCounters | src/post.js:40-59 | With both counters, the hit-rate line and then the summary table are reported. The table has a header row and the hits, misses and rate rows. |
| Post.ReportWithoutCounters | src/post.js:40 | Without either counter nothing is reported. |
| Post.HttpError | src/post.js:63-65 | An error status gives one warning, "Failed to fetch stats: HTTP <status>", and no statistics. |
| Post.FetchThrown | src/post.js:66-68 | A rejected fetch gives one warning with its message, and no statistics. |
| Post.ProbesLeftAtStart | src/post.js:91-95 | A 10000 ms budget at 500 ms steps allows exactly 20 probes. |
| Post.ShutdownOmniCache | src/post.js:78-122 | The method's calls equal the shutdown specification `Shutdown`. |
| Post.PollingEscalates | src/post.js:95-111 | If every remaining probe finds the process alive, all of them are made, each followed by a pause, and then SIGKILL is sent. |
| Post.PollingStops | src/post.js:95-105 | A first failing probe at call k ends the loop there with "shutdown complete", after k - calls + 1 probes and one fewer pauses. |
| Post.PollingSigkill | src/post.js:95-111 | The loop sends SIGKILL iff every remaining probe finds the process alive. |
| Post.PollingIgnoresLaterCalls | src/post.js:110-114 | Only the probes' answers shape the loop. The SIGKILL call's outcome is ignored. |
| Post.ValidPid | src/post.js:79 | The `!pid` or `isNaN(pid)` test: a pid is accepted unless it is `NaN` (`None`) or 0. |
| Post.SavedPidValid | src/post.js:79-139 | A pid saved by its decimal text is accepted by the shutdown iff it is not 0. |
| Post.ShutdownWithoutPid | src/post.js:79-82 | A missing, zero or NaN pid gives one warning. Nothing is signalled iff the pid is invalid. Otherwise the first signal is SIGTERM. |
| Post.ShutdownAlreadyGone | src/post.js:86-117 | A SIGTERM that fails with ESRCH reports "already terminated". The only signal is SIGTERM. |
| Post.ShutdownRefused | src/post.js:86-120 | Any other SIGTERM error is warned about with its message and ends the shutdown. |
| Post.ShutdownAtFirstExit | src/post.js:88-105 | When probe k (1 ≤ k ≤ 20) is the first to find the process gone, the signals are SIGTERM and k probes, with k - 1 pauses and no SIGKILL. The shutdown ends with "shutdown complete". |
| Post.ShutdownEscalates | src/post.js:84-114 | A process that survives SIGTERM and all 20 probes gets SIGTERM, 20 probes and then one SIGKILL, with 20 pauses. |
| Post.ShutdownSigkill | src/post.js:79-114 | SIGKILL is sent iff the pid is valid and SIGTERM and all 20 probes were delivered. |
| Post.ShutdownBounded | src/post.js:91-106 | Whatever the answers, at most 20 probes and at most 20 pauses. |
| Post.ShutdownIgnoresSigkillAnswer | src/post.js:110-114 | The SIGKILL call's error is swallowed: two kill oracles that agree on SIGTERM and the 20 probes give the same shutdown. |
| Post.ShutdownQuiet | src/post.js:78-122 | The shutdown neither fetches nor fails. |
| Post.SavedHost | src/post.js:131 | The stop phase's host is never empty. It is the saved host when one was saved, otherwise `localhost:12321`. |
| Post.Run | src/post.js:128-153 | The method's calls equal the stop-phase specification `Stop`. |
| Post.StopWithoutPid | src/post.js:134-137 | Without a saved pid the only call is the "nothing to clean up" line. Nothing is fetched or signalled. |
| Post.StopShutsDown | src/post.js:139-148 | With a saved pid, the statistics of the saved host, or the default host, are fetched first. The logs are shown right after the statistics step, before any signal, and nothing is fetched after them. Every signal comes after the fetch, and a valid pid gets SIGTERM. |
| Post.StopNeverFails | src/post.js:128-153 | The stop phase never calls `setFailed`. |
| Post.SavedByStart | src/main.js:90-92 | The state saved by the start phase gives back the pid text, the host and the log file. |
| Post.StopAfterStart | src/post.js:130-148 | After a start phase that ran a server with pid p on host h, the stop phase fetches h's statistics, shows the same log file and sends SIGTERM to p. |

## Left out

- Files, pipes and processes: the log file's `openSync`/`closeSync`, `detached`, `stdio` and `child.unref()` in `src/main.js` are not modelled. The spawn is one `Spawn` event, and the pid it yields is a parameter. A failure of `openSync` is not modelled.
- Timers: `setTimeout` pauses are `Sleep` events with their duration. No time passes in the model.
- `core.getInput` is taken as its result. Its trimming is not modelled, and "required" is modelled only as the error for an empty bucket.
- `path.join` is a plain join with one `/`, with no normalisation of `..`, `.` or repeated separators.
- The machine (`os.platform()`, `os.arch()`, `os.tmpdir()`, `os.homedir()`, `Date.now()` and today's date) is a parameter.
- Post.HitRateTenths: the hit rate is exact rational arithmetic rounded half up to tenths. JavaScript computes it in double precision with `toFixed(1)`, which can round an exact half differently. Non-integer or negative counters are not modelled.
- `JSON.parse` is an oracle that returns non-negative integer `hits` and `misses` or reports them absent. Counters that are strings, `null`, fractions or other JSON values are not modelled. Because of the `{`/`[` test at `src/post.js:27`, the parsed value is always an object or an array, so reading its fields cannot throw.
- `displayLogs` (`src/logs.js`) is not part of this model. It is one `DisplayLogs` event with the saved log path.
- Rejections of `response.text()` and of `core.summary.write()` are not modelled. Both would reach the outer catch of `fetchStats` as a warning. The `typeof response.text === 'function'` test is taken as always true.
- Failures of `fs.promises.chmod`, `mkdir` and `copyFile` and a rejection of `tc.cacheDir` in the installer are not modelled: `ToolCache.cacheDir` always returns a directory. They would throw and fail the start phase.
- Object-prototype keys such as `toString` as a platform or architecture name are not modelled. `os.platform()` and `os.arch()` never return them.
- The "Post action error" catch in the stop phase's `run` is not modelled. The modelled calls cannot throw there: `fetchStats` and `shutdownOmniCache` catch their own errors, and `displayLogs` is not part of this model.
- A thrown value that is not an `Error` in `src/main.js:119` is not modelled. Every error the phase can meet is an `Error`.
- `__tests__/main.test.js:85-87`, `115-118` and `134-140` expect a `cache-address` output and an exported `OMNI_CACHE_ADDRESS` read from the server's log. `__tests__/main.test.js:97-112` expect the settings as command-line flags. `src/main.js` does neither: it passes only `sidecar` and puts the settings in the environment. The model follows `src/main.js`. In particular, an inherited `OMNI_CACHE_PREFIX` or `OMNI_CACHE_S3_ENDPOINT` is passed through when the input is empty.
