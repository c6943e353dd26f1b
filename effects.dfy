/** The outside world as the action sees it. Every call the action makes into
    `@actions/core`, `@actions/tool-cache`, `child_process`, `fetch`, timers
    and `process.kill` is recorded as one `Event`, in order, so that a run is
    described by the trace it leaves; answers from the outside world come in
    as parameters (`Machine`, `FetchResult`, the oracles of each module). */
module Effects {
  import opened Text

  /** The signals `process.kill` is called with: SIGTERM, the liveness probe
      (signal 0) and SIGKILL. */
  datatype Signal = SIGTERM | Probe | SIGKILL

  /** The lines the action writes to the log, one constructor per line of
      the source; `Render` spells each one out. */
  datatype Message =
    // src/install.js
    | FoundCached(version: string, path: string)
    | Downloading(url: string)
    | InstalledTo(path: string)
    // src/main.js
    | SettingUp(version: string)
    | StartingSidecar
    | StartedWithPid(pid: int)
    | HealthyAfter(attempt: nat)
    | AttemptFailed(attempt: nat, maxAttempts: nat, reason: string)
    | Ready
    | HttpEndpoint(url: string)
    | UnixSocket(path: string)
    // src/post.js
    | EmptyStats
    | StatsHeading
    | Verbatim(text: string)
    | UnparsableStats(reason: string)
    | HitRateLine(rate: string, hits: nat, misses: nat)
    | StatsHttpError(status: nat)
    | StatsUnavailable(reason: string)
    | NoValidPid
    | ShuttingDown(pid: int)
    | ShutdownComplete
    | SendingSigkill
    | AlreadyTerminated
    | ShutdownError(reason: string)
    | NothingToCleanUp

  /** The text of each log line. */
  function Render(m: Message): string {
    match m
    case FoundCached(version, path) => "Found cached omni-cache " + version + " at " + path
    case Downloading(url) => "Downloading omni-cache from " + url
    case InstalledTo(path) => "omni-cache installed to " + path
    case SettingUp(version) => "Setting up omni-cache " + version + "..."
    case StartingSidecar => "Starting omni-cache sidecar..."
    case StartedWithPid(pid) => "omni-cache started with PID " + IntToString(pid)
    case HealthyAfter(attempt) => "omni-cache is healthy after " + NatToString(attempt) + " attempt(s)"
    case AttemptFailed(attempt, maxAttempts, reason) =>
      "Health check attempt " + NatToString(attempt) + "/" + NatToString(maxAttempts) + " failed: " + reason
    case Ready => "omni-cache is ready!"
    case HttpEndpoint(url) => "  HTTP endpoint: " + url
    case UnixSocket(path) => "  Unix socket: " + path
    case EmptyStats => "omni-cache stats endpoint returned empty response"
    case StatsHeading => "=== omni-cache Statistics ==="
    case Verbatim(text) => text
    case UnparsableStats(reason) => "Could not parse cache statistics JSON: " + reason
    case HitRateLine(rate, hits, misses) =>
      "Cache hit rate: " + rate + "% (" + NatToString(hits) + " hits, " + NatToString(misses) + " misses)"
    case StatsHttpError(status) => "Failed to fetch stats: HTTP " + NatToString(status)
    case StatsUnavailable(reason) => "Could not fetch cache statistics: " + reason
    case NoValidPid => "No valid PID found for omni-cache"
    case ShuttingDown(pid) => "Shutting down omni-cache (PID: " + IntToString(pid) + ")..."
    case ShutdownComplete => "omni-cache shutdown complete"
    case SendingSigkill => "omni-cache did not respond to SIGTERM, sending SIGKILL"
    case AlreadyTerminated => "omni-cache process already terminated"
    case ShutdownError(reason) => "Error shutting down omni-cache: " + reason
    case NothingToCleanUp => "No omni-cache process to clean up"
  }

  datatype Event =
    | Info(message: Message)                         // core.info
    | Warning(message: Message)                      // core.warning
    | Debug(message: Message)                        // core.debug
    | SetFailed(failure: string)                     // core.setFailed
    | SetOutput(name: string, value: string)         // core.setOutput
    | SaveState(key: string, value: string)          // core.saveState
    | AddPath(dir: string)                           // core.addPath
    | Summary(heading: string, level: nat, rows: seq<seq<string>>) // core.summary ... .write()
    | Find(tool: string, version: string)            // tc.find
    | Download(url: string)                          // tc.downloadTool
    | Chmod(file: string, mode: nat)                 // fs.promises.chmod
    | MakeDir(dir: string)                           // fs.promises.mkdir
    | CopyFile(source: string, dest: string)         // fs.promises.copyFile
    | CacheDir(dir: string, tool: string, version: string) // tc.cacheDir
    | Spawn(file: string, args: seq<string>, env: map<string, string>) // child_process.spawn
    | Fetch(url: string)                             // fetch
    | Sleep(ms: nat)                                 // await setTimeout
    | Kill(pid: int, signal: Signal)                 // process.kill
    | DisplayLogs(file: string)                      // displayLogs (src/logs.js)

  /** One answer of `fetch`: a response, or the error its promise rejects with. */
  datatype FetchResult =
    | Response(ok: bool, status: nat, body: string)
    | Thrown(message: string)

  predicate IsOk(r: FetchResult) {
    r.Response? && r.ok
  }

  /** What `os` reports about the machine the action runs on. `today` is the
      date part of `new Date().toISOString()`, `nowMillis` is `Date.now()`. */
  datatype Machine = Machine(
    platform: string,
    arch: string,
    tmpdir: string,
    homedir: string,
    today: string,
    nowMillis: nat)

  /** The kinds of calls whose number the properties bound. */
  datatype Kind = Fetches | Pauses | Kills | Saves | Outputs | Failures | Spawns | Warnings

  predicate OfKind(e: Event, k: Kind) {
    match k
    case Fetches => e.Fetch?
    case Pauses => e.Sleep?
    case Kills => e.Kill?
    case Saves => e.SaveState?
    case Outputs => e.SetOutput?
    case Failures => e.SetFailed?
    case Spawns => e.Spawn?
    case Warnings => e.Warning?
  }

  /** `t` holds no event of kind `k`. */
  predicate Lacks(t: seq<Event>, k: Kind) {
    forall e | e in t :: !OfKind(e, k)
  }

  lemma LacksAppend(a: seq<Event>, b: seq<Event>, k: Kind)
    ensures Lacks(a + b, k) <==> Lacks(a, k) && Lacks(b, k)
  {
  }

  /** Every event of kind `p` in `t` comes before every event of kind `q`. */
  predicate AllBefore(t: seq<Event>, p: Kind, q: Kind) {
    forall i, j | 0 <= i < |t| && 0 <= j < |t| && OfKind(t[i], p) && OfKind(t[j], q) :: i < j
  }

  lemma AllBeforeAppend(a: seq<Event>, b: seq<Event>, p: Kind, q: Kind)
    requires Lacks(a, q) && Lacks(b, p)
    ensures AllBefore(a + b, p, q)
  {
  }

  lemma AppendAssoc(a: seq<Event>, b: seq<Event>, c: seq<Event>)
    ensures a + (b + c) == a + b + c
  {
  }

  /** The number of events of `t` of kind `k`. */
  function Count(t: seq<Event>, k: Kind): nat
  {
    if t == [] then 0 else Count(t[..|t| - 1], k) + (if OfKind(t[|t| - 1], k) then 1 else 0)
  }

  lemma CountOne(e: Event, k: Kind)
    ensures Count([e], k) == if OfKind(e, k) then 1 else 0
  {
    assert [e][..0] == [];
  }

  lemma {:induction false} CountAppend(a: seq<Event>, b: seq<Event>, k: Kind)
    ensures Count(a + b, k) == Count(a, k) + Count(b, k)
    decreases |b|
  {
    if b == [] {
      assert a + b == a;
    } else {
      assert (a + b)[..|a + b| - 1] == a + b[..|b| - 1];
      CountAppend(a, b[..|b| - 1], k);
    }
  }

  /** The signals of the `Kill` events of `t`, in order. */
  function Signals(t: seq<Event>): seq<Signal>
  {
    if t == [] then []
    else Signals(t[..|t| - 1]) + (if t[|t| - 1].Kill? then [t[|t| - 1].signal] else [])
  }

  lemma {:induction false} SignalsAppend(a: seq<Event>, b: seq<Event>)
    ensures Signals(a + b) == Signals(a) + Signals(b)
    decreases |b|
  {
    if b == [] {
      assert a + b == a;
    } else {
      assert (a + b)[..|a + b| - 1] == a + b[..|b| - 1];
      SignalsAppend(a, b[..|b| - 1]);
    }
  }

  /** The trace of a start phase that did not fail. */
  predicate Succeeded(t: seq<Event>) {
    Lacks(t, Failures)
  }

  /** The trace of a start phase that failed once, with `message`, at its end. */
  predicate FailedOnce(t: seq<Event>, message: string) {
    |t| > 0 && t[|t| - 1] == SetFailed(message) && Succeeded(t[..|t| - 1])
  }

  lemma AllBeforeShift(a: seq<Event>, b: seq<Event>, p: Kind, q: Kind)
    requires Lacks(a, q) && AllBefore(b, p, q)
    ensures AllBefore(a + b, p, q)
  {
    forall i, j | 0 <= i < |a + b| && 0 <= j < |a + b| && OfKind((a + b)[i], p) && OfKind((a + b)[j], q)
      ensures i < j
    {
      if i >= |a| && j >= |a| {
        assert (a + b)[i] == b[i - |a|] && (a + b)[j] == b[j - |a|];
      }
    }
  }

  lemma FailedAfter(prefix: seq<Event>, message: string)
    requires Succeeded(prefix)
    ensures FailedOnce(prefix + [SetFailed(message)], message)
  {
    assert (prefix + [SetFailed(message)])[..|prefix|] == prefix;
  }

  lemma FailedIsNotSucceeded(t: seq<Event>, message: string)
    requires FailedOnce(t, message)
    ensures !Succeeded(t)
  {
    assert t[|t| - 1] in t;
  }
}
