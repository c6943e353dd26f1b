/** The start phase (src/main.js): install the binary, launch it in the
    background with the cache settings in its environment, save what the stop
    phase needs, wait for the server to answer its health endpoint and publish
    where it listens. Every error ends the phase with one `setFailed`. */
module Startup {
  import opened Results
  import opened Text
  import opened Effects
  import Install
  import Platform

  const DefaultHost := "localhost:12321"
  const DefaultMaxAttempts: nat := 30
  const DefaultDelayMs: nat := 1000

  const PidKey := "omni-cache-pid"
  const HostKey := "omni-cache-host"
  const LogKey := "omni-cache-log"

  const BucketVar := "OMNI_CACHE_BUCKET"
  const HostVar := "OMNI_CACHE_HOST"
  const PrefixVar := "OMNI_CACHE_PREFIX"
  const S3EndpointVar := "OMNI_CACHE_S3_ENDPOINT"

  /** Thrown by `core.getInput('bucket', { required: true })` for an empty input. */
  const MissingBucket := "Input required and not supplied: bucket"
  /** Thrown by `pid.toString()` when `spawn` gave the child no pid. */
  const MissingPid := "Cannot read properties of undefined (reading 'toString')"

  /** The action inputs as `core.getInput` returns them; "" when not supplied. */
  datatype Inputs = Inputs(bucket: string, prefix: string, host: string, s3Endpoint: string, version: string)

  /** `core.getInput('host') || DefaultHost`: never empty. */
  function HostOf(inputs: Inputs): (host: string)
    ensures host != ""
    ensures inputs.host != "" ==> host == inputs.host
    ensures inputs.host == "" ==> host == DefaultHost
  {
    if inputs.host == "" then DefaultHost else inputs.host
  }

  /** `core.getInput('version') || 'latest'`: never empty. */
  function VersionOf(inputs: Inputs): (version: string)
    ensures version != ""
    ensures inputs.version != "" ==> version == inputs.version
  {
    if inputs.version == "" then Install.Latest else inputs.version
  }

  function LogFile(m: Machine): string {
    Join(m.tmpdir, "omni-cache.log")
  }

  function SocketPath(m: Machine): string {
    Join(Join(m.homedir, ".cirruslabs"), "omni-cache.sock")
  }

  /** The base URL of the server: the host itself when it already begins
      with "http", otherwise the host behind "http://". */
  function Endpoint(host: string): (url: string)
    ensures StartsWith(url, "http")
    ensures StartsWith(host, "http") ==> url == host
    ensures !StartsWith(host, "http") ==> url == "http://" + host && EndsWith(url, host)
  {
    if StartsWith(host, "http") then host
    else
      assert ("http://" + host)[..4] == "http";
      assert ("http://" + host)[7..] == host;
      "http://" + host
  }

  /** Normalising an endpoint again changes nothing. */
  lemma EndpointIdempotent(host: string)
    ensures Endpoint(Endpoint(host)) == Endpoint(host)
  {
    assert StartsWith(Endpoint(host), "http");
  }

  // ---------------------------------------------------------------------
  // waitForHealthy

  /** How a health wait ends: answered OK at `attempt`, or out of attempts,
      which `waitForHealthy` reports by throwing `ExhaustedMessage`. */
  datatype HealthOutcome = Healthy(attempt: nat) | Exhausted

  function ExhaustedMessage(maxAttempts: nat): string {
    "omni-cache failed to become healthy after " + NatToString(maxAttempts) + " attempts"
  }

  /** The calls a health wait may make: probes of `url`/stats, log lines and pauses. */
  predicate HealthEvent(url: string, e: Event) {
    (e.Fetch? && e.url == url + "/stats") || e.Info? || e.Debug? || e.Sleep?
  }

  /** The calls of a failed attempt: the probe, a debug line when the fetch
      was rejected (a non-OK answer is not logged), and a pause unless the
      attempt was the last one. */
  function FailedAttempt(url: string, attempt: nat, maxAttempts: nat, delayMs: nat,
                         answer: FetchResult): seq<Event>
  {
    var noted := if answer.Thrown? then [Debug(AttemptFailed(attempt, maxAttempts, answer.message))] else [];
    var pause := if attempt < maxAttempts then [Sleep(delayMs)] else [];
    [Fetch(url + "/stats")] + noted + pause
  }

  /** The rest of the health wait from attempt `attempt` on: the outcome and
      the calls made. An attempt that is answered OK ends the wait; any other
      answer, or a rejected fetch, is a failed attempt. */
  function HealthFrom(url: string, attempt: nat, maxAttempts: nat, delayMs: nat,
                      respond: nat -> FetchResult): (r: (HealthOutcome, seq<Event>))
    decreases maxAttempts + 1 - attempt
  {
    if attempt > maxAttempts then (Exhausted, [])
    else if IsOk(respond(attempt)) then
      (Healthy(attempt), [Fetch(url + "/stats")] + [Info(HealthyAfter(attempt))])
    else
      var rest := HealthFrom(url, attempt + 1, maxAttempts, delayMs, respond);
      (rest.0, FailedAttempt(url, attempt, maxAttempts, delayMs, respond(attempt)) + rest.1)
  }

  /** A failed attempt probes once, and pauses unless it was the last. */
  lemma FailedAttemptCounts(url: string, attempt: nat, maxAttempts: nat, delayMs: nat, answer: FetchResult)
    ensures Count(FailedAttempt(url, attempt, maxAttempts, delayMs, answer), Fetches) == 1
    ensures Count(FailedAttempt(url, attempt, maxAttempts, delayMs, answer), Pauses)
      == if attempt < maxAttempts then 1 else 0
  {
    var probe := [Fetch(url + "/stats")];
    var noted := if answer.Thrown? then [Debug(AttemptFailed(attempt, maxAttempts, answer.message))] else [];
    var pause := if attempt < maxAttempts then [Sleep(delayMs)] else [];
    CountOne(probe[0], Fetches);
    CountOne(probe[0], Pauses);
    if noted != [] {
      CountOne(noted[0], Fetches);
      CountOne(noted[0], Pauses);
    }
    if pause != [] {
      CountOne(pause[0], Fetches);
      CountOne(pause[0], Pauses);
    }
    CountAppend(probe, noted, Fetches);
    CountAppend(probe + noted, pause, Fetches);
    CountAppend(probe, noted, Pauses);
    CountAppend(probe + noted, pause, Pauses);
  }

  /** An answered attempt probes once and does not pause. */
  lemma AnsweredCounts(url: string, attempt: nat)
    ensures Count([Fetch(url + "/stats")] + [Info(HealthyAfter(attempt))], Fetches) == 1
    ensures Count([Fetch(url + "/stats")] + [Info(HealthyAfter(attempt))], Pauses) == 0
  {
    CountAppend([Fetch(url + "/stats")], [Info(HealthyAfter(attempt))], Fetches);
    CountAppend([Fetch(url + "/stats")], [Info(HealthyAfter(attempt))], Pauses);
    CountOne(Fetch(url + "/stats"), Fetches);
    CountOne(Fetch(url + "/stats"), Pauses);
    CountOne(Info(HealthyAfter(attempt)), Fetches);
    CountOne(Info(HealthyAfter(attempt)), Pauses);
  }

  /** A health wait only probes, logs and pauses. */
  lemma {:induction false} HealthEvents(url: string, attempt: nat, maxAttempts: nat, delayMs: nat,
                                        respond: nat -> FetchResult)
    ensures forall e | e in HealthFrom(url, attempt, maxAttempts, delayMs, respond).1 :: HealthEvent(url, e)
    decreases maxAttempts + 1 - attempt
  {
    if attempt <= maxAttempts && !IsOk(respond(attempt)) {
      HealthEvents(url, attempt + 1, maxAttempts, delayMs, respond);
    }
  }

  /** `waitForHealthy(host, maxAttempts, delayMs)`: a counted loop of probes. */
  method WaitForHealthy(host: string, maxAttempts: nat, delayMs: nat, respond: nat -> FetchResult)
    returns (outcome: HealthOutcome, trace: seq<Event>)
    ensures (outcome, trace) == HealthFrom(Endpoint(host), 1, maxAttempts, delayMs, respond)
  {
    var url := Endpoint(host);
    trace := [];
    var attempt: nat := 1;
    assert HealthFrom(url, 1, maxAttempts, delayMs, respond).1
        == trace + HealthFrom(url, 1, maxAttempts, delayMs, respond).1;
    while attempt <= maxAttempts
      invariant 1 <= attempt <= maxAttempts + 1
      invariant HealthFrom(url, 1, maxAttempts, delayMs, respond)
        == (HealthFrom(url, attempt, maxAttempts, delayMs, respond).0,
            trace + HealthFrom(url, attempt, maxAttempts, delayMs, respond).1)
      decreases maxAttempts + 1 - attempt
    {
      ghost var before := trace;
      trace := trace + [Fetch(url + "/stats")];
      var answer := respond(attempt);
      if answer.Response? && answer.ok {
        trace := trace + [Info(HealthyAfter(attempt))];
        outcome := Healthy(attempt);
        assert trace == before + ([Fetch(url + "/stats")] + [Info(HealthyAfter(attempt))]);
        assert (outcome, trace) == HealthFrom(url, 1, maxAttempts, delayMs, respond);
        return;
      }
      if answer.Thrown? {
        trace := trace + [Debug(AttemptFailed(attempt, maxAttempts, answer.message))];
      }
      if attempt < maxAttempts {
        trace := trace + [Sleep(delayMs)];
      }
      ghost var failed := FailedAttempt(url, attempt, maxAttempts, delayMs, answer);
      assert trace == before + failed;
      AppendAssoc(before, failed, HealthFrom(url, attempt + 1, maxAttempts, delayMs, respond).1);
      attempt := attempt + 1;
    }
    assert HealthFrom(url, attempt, maxAttempts, delayMs, respond) == (Exhausted, []);
    assert trace + [] == trace;
    outcome := Exhausted;
    assert (outcome, trace) == HealthFrom(url, 1, maxAttempts, delayMs, respond);
  }

  /** The wait ends healthy at attempt `k` exactly when `k` is the first
      attempt, within the budget, that is answered OK. */
  lemma {:induction false} HealthyAtFirstOk(url: string, attempt: nat, maxAttempts: nat, delayMs: nat,
                                            respond: nat -> FetchResult, k: nat)
    ensures HealthFrom(url, attempt, maxAttempts, delayMs, respond).0 == Healthy(k) <==>
      attempt <= k <= maxAttempts && IsOk(respond(k))
      && forall j :: attempt <= j < k ==> !IsOk(respond(j))
    decreases maxAttempts + 1 - attempt
  {
    if attempt <= maxAttempts && !IsOk(respond(attempt)) {
      HealthyAtFirstOk(url, attempt + 1, maxAttempts, delayMs, respond, k);
      if HealthFrom(url, attempt, maxAttempts, delayMs, respond).0 == Healthy(k) {
        assert forall j :: attempt <= j < k ==> !IsOk(respond(j)) by {
          forall j | attempt <= j < k ensures !IsOk(respond(j)) {
            if j == attempt {} else { assert attempt + 1 <= j < k; }
          }
        }
      }
    }
  }

  /** The wait runs out of attempts exactly when no attempt within the
      budget is answered OK. */
  lemma {:induction false} ExhaustedWithoutOk(url: string, attempt: nat, maxAttempts: nat, delayMs: nat,
                                              respond: nat -> FetchResult)
    ensures HealthFrom(url, attempt, maxAttempts, delayMs, respond).0 == Exhausted <==>
      forall j :: attempt <= j <= maxAttempts ==> !IsOk(respond(j))
    decreases maxAttempts + 1 - attempt
  {
    if attempt <= maxAttempts && !IsOk(respond(attempt)) {
      ExhaustedWithoutOk(url, attempt + 1, maxAttempts, delayMs, respond);
      if forall j :: attempt + 1 <= j <= maxAttempts ==> !IsOk(respond(j)) {
        assert forall j :: attempt <= j <= maxAttempts ==> !IsOk(respond(j)) by {
          forall j | attempt <= j <= maxAttempts ensures !IsOk(respond(j)) {
            if j == attempt {} else { assert attempt + 1 <= j <= maxAttempts; }
          }
        }
      }
    }
  }

  /** One probe per attempt made. */
  lemma {:induction false} HealthProbes(url: string, attempt: nat, maxAttempts: nat, delayMs: nat,
                                        respond: nat -> FetchResult)
    requires attempt <= maxAttempts + 1
    ensures var r := HealthFrom(url, attempt, maxAttempts, delayMs, respond);
      Count(r.1, Fetches) == (if r.0.Healthy? then r.0.attempt + 1 - attempt else maxAttempts + 1 - attempt)
    decreases maxAttempts + 1 - attempt
  {
    if attempt <= maxAttempts {
      if IsOk(respond(attempt)) {
        AnsweredCounts(url, attempt);
      } else {
        var failed := FailedAttempt(url, attempt, maxAttempts, delayMs, respond(attempt));
        var rest := HealthFrom(url, attempt + 1, maxAttempts, delayMs, respond);
        HealthProbes(url, attempt + 1, maxAttempts, delayMs, respond);
        FailedAttemptCounts(url, attempt, maxAttempts, delayMs, respond(attempt));
        CountAppend(failed, rest.1, Fetches);
      }
    }
  }

  /** One pause between consecutive attempts: none after the last attempt
      of the budget, none after the healthy one. */
  lemma {:induction false} HealthPauses(url: string, attempt: nat, maxAttempts: nat, delayMs: nat,
                                        respond: nat -> FetchResult)
    requires attempt <= maxAttempts + 1
    ensures var r := HealthFrom(url, attempt, maxAttempts, delayMs, respond);
      Count(r.1, Pauses) == (if r.0.Healthy? then r.0.attempt - attempt
                             else if attempt <= maxAttempts then maxAttempts - attempt else 0)
    decreases maxAttempts + 1 - attempt
  {
    if attempt <= maxAttempts {
      if IsOk(respond(attempt)) {
        AnsweredCounts(url, attempt);
      } else {
        var failed := FailedAttempt(url, attempt, maxAttempts, delayMs, respond(attempt));
        var rest := HealthFrom(url, attempt + 1, maxAttempts, delayMs, respond);
        HealthPauses(url, attempt + 1, maxAttempts, delayMs, respond);
        FailedAttemptCounts(url, attempt, maxAttempts, delayMs, respond(attempt));
        CountAppend(failed, rest.1, Pauses);
        if rest.0.Healthy? {
          HealthyAtFirstOk(url, attempt + 1, maxAttempts, delayMs, respond, rest.0.attempt);
        }
      }
    }
  }

  // ---------------------------------------------------------------------
  // run

  /** The environment the server is started with: the action's own
      environment with the bucket and host set, the prefix and S3 endpoint
      set only when those inputs are non-empty, and everything else
      inherited unchanged (including a prefix or an S3 endpoint the workflow
      had set itself when the input is empty). */
  function ChildEnvironment(inputs: Inputs, inherited: map<string, string>): (env: map<string, string>)
    ensures env.Keys == inherited.Keys + {BucketVar, HostVar}
      + (if inputs.prefix != "" then {PrefixVar} else {})
      + (if inputs.s3Endpoint != "" then {S3EndpointVar} else {})
    ensures env[BucketVar] == inputs.bucket && env[HostVar] == HostOf(inputs)
    ensures inputs.prefix != "" ==> env[PrefixVar] == inputs.prefix
    ensures inputs.prefix == "" && PrefixVar in inherited ==> env[PrefixVar] == inherited[PrefixVar]
    ensures inputs.s3Endpoint != "" ==> env[S3EndpointVar] == inputs.s3Endpoint
    ensures inputs.s3Endpoint == "" && S3EndpointVar in inherited ==>
      env[S3EndpointVar] == inherited[S3EndpointVar]
    ensures forall k | k in inherited && k !in {BucketVar, HostVar, PrefixVar, S3EndpointVar} ::
      env[k] == inherited[k]
  {
    var base := inherited[BucketVar := inputs.bucket][HostVar := HostOf(inputs)];
    var withPrefix := if inputs.prefix != "" then base[PrefixVar := inputs.prefix] else base;
    if inputs.s3Endpoint != "" then withPrefix[S3EndpointVar := inputs.s3Endpoint] else withPrefix
  }

  /** `waitForHealthy(host)` with its default budget of 30 attempts, one
      second apart. */
  function HealthWait(host: string, respond: nat -> FetchResult): (HealthOutcome, seq<Event>) {
    HealthFrom(Endpoint(host), 1, DefaultMaxAttempts, DefaultDelayMs, respond)
  }

  /** A trace that saves, publishes, fails and starts nothing. */
  predicate Passive(t: seq<Event>) {
    Lacks(t, Saves) && Lacks(t, Outputs) && Lacks(t, Failures) && Lacks(t, Spawns)
  }

  /** The health wait is passive. */
  lemma HealthPassive(host: string, respond: nat -> FetchResult)
    ensures Passive(HealthWait(host, respond).1)
  {
    HealthEvents(Endpoint(host), 1, DefaultMaxAttempts, DefaultDelayMs, respond);
  }

  /** What the phase saves for the stop phase, and the line it logs then. */
  function Saved(host: string, m: Machine, pid: nat): seq<Event> {
    [SaveState(PidKey, NatToString(pid))] + [SaveState(HostKey, host)]
      + [SaveState(LogKey, LogFile(m))] + [Info(StartedWithPid(pid))]
  }

  /** The outputs set once the server is healthy, and the lines logged then. */
  function Published(host: string, m: Machine): seq<Event> {
    [SetOutput("cache-endpoint", Endpoint(host))] + [SetOutput("cache-socket", SocketPath(m))]
      + [Info(Ready)] + [Info(HttpEndpoint(Endpoint(host)))] + [Info(UnixSocket(SocketPath(m)))]
  }

  /** The part of `run()` after the server was started with pid `pid`,
      given how the health wait went: the state the stop phase needs is
      saved, the wait runs, and where the server listens is published. */
  function Serving(host: string, m: Machine, pid: nat, wait: (HealthOutcome, seq<Event>)): seq<Event>
  {
    Saved(host, m, pid) + wait.1
      + if wait.0 == Exhausted then [SetFailed(ExhaustedMessage(DefaultMaxAttempts))] else Published(host, m)
  }

  /** Saving neither probes, publishes nor fails; publishing neither saves nor fails. */
  lemma SavedAndPublished(host: string, m: Machine, pid: nat)
    ensures Lacks(Saved(host, m, pid), Fetches) && Lacks(Saved(host, m, pid), Outputs)
    ensures Lacks(Saved(host, m, pid), Failures)
    ensures Lacks(Published(host, m), Saves) && Lacks(Published(host, m), Failures)
  {
  }

  /** The phase up to the spawn, after the installer made the calls
      `installTrace` and gave `installed`: the version is published and the
      server is started with its environment. */
  function Launched(inputs: Inputs, inherited: map<string, string>, installTrace: seq<Event>,
                    installed: Install.Installed): seq<Event>
  {
    [Info(SettingUp(VersionOf(inputs)))] + installTrace + [SetOutput("version", installed.version)]
      + [Info(StartingSidecar)] + [Spawn(installed.path, ["sidecar"], ChildEnvironment(inputs, inherited))]
  }

  /** `run()` call by call, given what the installer did (`install`), the
      pid `spawn` gave the child (`None` when it could not be started) and
      how the health wait went. The first error thrown ends the phase with
      `setFailed` of its message. */
  function StartWith(inputs: Inputs, inherited: map<string, string>, m: Machine, install: Install.Outcome,
                     spawned: Option<nat>, wait: (HealthOutcome, seq<Event>)): seq<Event>
  {
    if inputs.bucket == "" then [SetFailed(MissingBucket)]
    else if install.result.Err? then
      [Info(SettingUp(VersionOf(inputs)))] + install.trace + [SetFailed(install.result.error)]
    else
      var launched := Launched(inputs, inherited, install.trace, install.result.value);
      if spawned.None? then launched + [SetFailed(MissingPid)]
      else launched + Serving(HostOf(inputs), m, spawned.value, wait)
  }

  /** The start phase with the installer run on this machine and the
      health endpoint answering as `respond` says. */
  function StartTrace(inputs: Inputs, inherited: map<string, string>, m: Machine, tc: Install.ToolCache,
                      spawned: Option<nat>, respond: nat -> FetchResult): seq<Event>
  {
    StartWith(inputs, inherited, m, Install.Installation(VersionOf(inputs), m, tc), spawned,
              HealthWait(HostOf(inputs), respond))
  }

  /** `run()`. `inherited` is `process.env`; `spawned` is `child.pid`. */
  method Run(inputs: Inputs, inherited: map<string, string>, m: Machine, tc: Install.ToolCache,
             spawned: Option<nat>, respond: nat -> FetchResult)
    returns (trace: seq<Event>)
    ensures trace == StartTrace(inputs, inherited, m, tc, spawned, respond)
  {
    if inputs.bucket == "" {
      trace := [SetFailed(MissingBucket)];
      return;
    }
    var host := if inputs.host == "" then DefaultHost else inputs.host;
    var version := if inputs.version == "" then Install.Latest else inputs.version;
    trace := [Info(SettingUp(version))];
    var installed, installTrace := Install.InstallOmniCache(version, m, tc);
    trace := trace + installTrace;
    if installed.Err? {
      trace := trace + [SetFailed(installed.error)];
      return;
    }
    trace := trace + [SetOutput("version", installed.value.version)];

    var env := inherited[BucketVar := inputs.bucket][HostVar := host];
    if inputs.prefix != "" {
      env := env[PrefixVar := inputs.prefix];
    }
    if inputs.s3Endpoint != "" {
      env := env[S3EndpointVar := inputs.s3Endpoint];
    }
    trace := trace + [Info(StartingSidecar)];
    trace := trace + [Spawn(installed.value.path, ["sidecar"], env)];
    assert trace == Launched(inputs, inherited, installTrace, installed.value);
    if spawned.None? {
      trace := trace + [SetFailed(MissingPid)];
      return;
    }
    var serving := Serve(host, m, spawned.value, respond);
    trace := trace + serving;
  }

  /** The rest of `run()` once the server has a pid. */
  method Serve(host: string, m: Machine, pid: nat, respond: nat -> FetchResult) returns (trace: seq<Event>)
    ensures trace == Serving(host, m, pid, HealthWait(host, respond))
  {
    var logFile := Join(m.tmpdir, "omni-cache.log");
    trace := [SaveState(PidKey, NatToString(pid))];
    trace := trace + [SaveState(HostKey, host)];
    trace := trace + [SaveState(LogKey, logFile)];
    trace := trace + [Info(StartedWithPid(pid))];

    var outcome, healthTrace := WaitForHealthy(host, DefaultMaxAttempts, DefaultDelayMs, respond);
    trace := trace + healthTrace;
    if outcome == Exhausted {
      trace := trace + [SetFailed(ExhaustedMessage(DefaultMaxAttempts))];
      return;
    }
    assert trace == Saved(host, m, pid) + healthTrace;
    var endpoint := if StartsWith(host, "http") then host else "http://" + host;
    trace := trace + [SetOutput("cache-endpoint", endpoint)];
    var socketPath := Join(Join(m.homedir, ".cirruslabs"), "omni-cache.sock");
    trace := trace + [SetOutput("cache-socket", socketPath)];
    trace := trace + [Info(Ready)];
    trace := trace + [Info(HttpEndpoint(endpoint))];
    trace := trace + [Info(UnixSocket(socketPath))];
    assert trace == Saved(host, m, pid) + healthTrace + Published(host, m);
  }

  /** Without a version input the latest release is installed. */
  lemma DefaultVersion(inputs: Inputs)
    requires inputs.version == ""
    ensures VersionOf(inputs) == "latest"
  {
  }

  /** Without a host input the server is reached at its default address. */
  lemma DefaultEndpoint(inputs: Inputs)
    requires inputs.host == ""
    ensures HostOf(inputs) == DefaultHost && Endpoint(HostOf(inputs)) == "http://localhost:12321"
  {
    assert DefaultHost[0] == 'l';
  }

  /** Once started, the phase begins by saving the pid, the host and the
      log file, in that order. */
  lemma ServingSavesFirst(host: string, m: Machine, pid: nat, wait: (HealthOutcome, seq<Event>))
    ensures var t := Serving(host, m, pid, wait);
      |t| >= 3 && t[..3] == [SaveState(PidKey, NatToString(pid)), SaveState(HostKey, host), SaveState(LogKey, LogFile(m))]
  {
    var t := Serving(host, m, pid, wait);
    assert t[..3] == Saved(host, m, pid)[..3];
  }

  /** Everything is saved before the health endpoint is first probed. */
  lemma ServingSavesBeforeProbes(host: string, m: Machine, pid: nat, wait: (HealthOutcome, seq<Event>))
    requires Passive(wait.1)
    ensures AllBefore(Serving(host, m, pid, wait), Saves, Fetches)
  {
    var ending := if wait.0 == Exhausted then [SetFailed(ExhaustedMessage(DefaultMaxAttempts))] else Published(host, m);
    SavedAndPublished(host, m, pid);
    LacksAppend(wait.1, ending, Saves);
    assert Serving(host, m, pid, wait) == Saved(host, m, pid) + (wait.1 + ending);
    AllBeforeAppend(Saved(host, m, pid), wait.1 + ending, Saves, Fetches);
  }

  /** After a healthy wait the server is published: the phase does not
      fail, and ends by setting both outputs and logging them. */
  lemma ServingReady(host: string, m: Machine, pid: nat, wait: (HealthOutcome, seq<Event>))
    requires Passive(wait.1) && wait.0.Healthy?
    ensures var t := Serving(host, m, pid, wait);
      Succeeded(t)
      && SetOutput("cache-endpoint", Endpoint(host)) in t
      && SetOutput("cache-socket", SocketPath(m)) in t
      && t[|t| - 1] == Info(UnixSocket(SocketPath(m)))
  {
    SavedAndPublished(host, m, pid);
    LacksAppend(Saved(host, m, pid), wait.1, Failures);
    LacksAppend(Saved(host, m, pid) + wait.1, Published(host, m), Failures);
  }

  /** After an exhausted wait the phase fails once, at its end, with the
      exhaustion message; nothing is published. */
  lemma ServingUnhealthy(host: string, m: Machine, pid: nat, wait: (HealthOutcome, seq<Event>))
    requires Passive(wait.1) && wait.0 == Exhausted
    ensures var t := Serving(host, m, pid, wait);
      FailedOnce(t, ExhaustedMessage(DefaultMaxAttempts)) && Lacks(t, Outputs)
  {
    var failed := [SetFailed(ExhaustedMessage(DefaultMaxAttempts))];
    SavedAndPublished(host, m, pid);
    LacksAppend(Saved(host, m, pid), wait.1, Failures);
    LacksAppend(Saved(host, m, pid), wait.1, Outputs);
    LacksAppend(Saved(host, m, pid) + wait.1, failed, Outputs);
    FailedAfter(Saved(host, m, pid) + wait.1, ExhaustedMessage(DefaultMaxAttempts));
  }

  /** The installer neither fails the phase, saves, publishes, starts nor probes anything. */
  lemma InstallEventsPassive(t: seq<Event>)
    requires forall e | e in t :: Install.InstallEvent(e)
    ensures Passive(t) && Lacks(t, Fetches)
  {
  }

  lemma InstallationPassive(version: string, m: Machine, tc: Install.ToolCache)
    ensures Passive(Install.Installation(version, m, tc).trace)
    ensures Lacks(Install.Installation(version, m, tc).trace, Fetches)
  {
    var o := Install.Installation(version, m, tc);
    Install.InstallResult(version, m, tc, Platform.GetBinaryName(m.platform, m.arch));
    InstallEventsPassive(o.trace);
  }

  /** A failed install ends the phase with its message: nothing is started
      and nothing is published. */
  lemma StartInstallFailed(inputs: Inputs, inherited: map<string, string>, m: Machine, install: Install.Outcome,
                           spawned: Option<nat>, wait: (HealthOutcome, seq<Event>))
    requires inputs.bucket != "" && install.result.Err? && Passive(install.trace)
    ensures var t := StartWith(inputs, inherited, m, install, spawned, wait);
      t[0] == Info(SettingUp(VersionOf(inputs))) && FailedOnce(t, install.result.error)
      && Lacks(t, Spawns) && Lacks(t, Outputs)
  {
    var begun := [Info(SettingUp(VersionOf(inputs)))] + install.trace;
    var failed := [SetFailed(install.result.error)];
    LacksAppend([Info(SettingUp(VersionOf(inputs)))], install.trace, Failures);
    LacksAppend(begun, failed, Spawns);
    LacksAppend(begun, failed, Outputs);
    FailedAfter(begun, install.result.error);
  }

  /** Up to the spawn nothing fails, nothing is saved and nothing is
      probed; the version is published and the server started with the
      environment the inputs call for. */
  lemma LaunchedFacts(inputs: Inputs, inherited: map<string, string>, installTrace: seq<Event>,
                      installed: Install.Installed)
    requires Passive(installTrace) && Lacks(installTrace, Fetches)
    ensures var t := Launched(inputs, inherited, installTrace, installed);
      Lacks(t, Failures) && Lacks(t, Saves) && Lacks(t, Fetches)
      && SetOutput("version", installed.version) in t
      && (forall e | e in t && e.SetOutput? :: e.name == "version")
      && t[|t| - 1] == Spawn(installed.path, ["sidecar"], ChildEnvironment(inputs, inherited))
  {
    var begun := [Info(SettingUp(VersionOf(inputs)))] + installTrace;
    var started := [SetOutput("version", installed.version)] + [Info(StartingSidecar)]
      + [Spawn(installed.path, ["sidecar"], ChildEnvironment(inputs, inherited))];
    assert Launched(inputs, inherited, installTrace, installed) == begun + started;
    LacksAppend([Info(SettingUp(VersionOf(inputs)))], installTrace, Failures);
    LacksAppend([Info(SettingUp(VersionOf(inputs)))], installTrace, Saves);
    LacksAppend([Info(SettingUp(VersionOf(inputs)))], installTrace, Fetches);
    LacksAppend(begun, started, Failures);
    LacksAppend(begun, started, Saves);
    LacksAppend(begun, started, Fetches);
    LacksAppend([Info(SettingUp(VersionOf(inputs)))], installTrace, Outputs);
  }

  /** A server without a pid ends the phase right after the spawn, before
      anything is saved. */
  lemma StartSpawnFailed(inputs: Inputs, inherited: map<string, string>, m: Machine, install: Install.Outcome,
                         wait: (HealthOutcome, seq<Event>))
    requires inputs.bucket != "" && install.result.Ok? && Passive(install.trace) && Lacks(install.trace, Fetches)
    ensures var t := StartWith(inputs, inherited, m, install, None, wait);
      FailedOnce(t, MissingPid) && Lacks(t, Saves)
      && (forall e | e in t && e.SetOutput? :: e.name == "version")
      && SetOutput("version", install.result.value.version) in t
      && t[|t| - 2] == Spawn(install.result.value.path, ["sidecar"], ChildEnvironment(inputs, inherited))
  {
    var launched := Launched(inputs, inherited, install.trace, install.result.value);
    LaunchedFacts(inputs, inherited, install.trace, install.result.value);
    assert StartWith(inputs, inherited, m, install, None, wait) == launched + [SetFailed(MissingPid)];
    LacksAppend(launched, [SetFailed(MissingPid)], Saves);
    FailedAfter(launched, MissingPid);
  }

  /** A server that becomes healthy completes the phase: nothing fails and
      the version, the endpoint and the socket are all published. */
  lemma StartReady(inputs: Inputs, inherited: map<string, string>, m: Machine, install: Install.Outcome,
                   pid: nat, wait: (HealthOutcome, seq<Event>))
    requires inputs.bucket != "" && install.result.Ok? && Passive(install.trace) && Lacks(install.trace, Fetches)
    requires Passive(wait.1) && wait.0.Healthy?
    ensures var t := StartWith(inputs, inherited, m, install, Some(pid), wait);
      Succeeded(t)
      && SetOutput("version", install.result.value.version) in t
      && SetOutput("cache-endpoint", Endpoint(HostOf(inputs))) in t
      && SetOutput("cache-socket", SocketPath(m)) in t
  {
    var launched := Launched(inputs, inherited, install.trace, install.result.value);
    var serving := Serving(HostOf(inputs), m, pid, wait);
    LaunchedFacts(inputs, inherited, install.trace, install.result.value);
    ServingReady(HostOf(inputs), m, pid, wait);
    LacksAppend(launched, serving, Failures);
    assert StartWith(inputs, inherited, m, install, Some(pid), wait) == launched + serving;
  }

  /** A server that never becomes healthy fails the phase once, at its end,
      with the exhaustion message; only the version was published. */
  lemma StartUnhealthy(inputs: Inputs, inherited: map<string, string>, m: Machine, install: Install.Outcome,
                       pid: nat, wait: (HealthOutcome, seq<Event>))
    requires inputs.bucket != "" && install.result.Ok? && Passive(install.trace) && Lacks(install.trace, Fetches)
    requires Passive(wait.1) && wait.0 == Exhausted
    ensures var t := StartWith(inputs, inherited, m, install, Some(pid), wait);
      FailedOnce(t, ExhaustedMessage(DefaultMaxAttempts))
      && forall e | e in t && e.SetOutput? :: e.name == "version"
  {
    var launched := Launched(inputs, inherited, install.trace, install.result.value);
    var serving := Serving(HostOf(inputs), m, pid, wait);
    LaunchedFacts(inputs, inherited, install.trace, install.result.value);
    ServingUnhealthy(HostOf(inputs), m, pid, wait);
    var t := launched + serving;
    assert StartWith(inputs, inherited, m, install, Some(pid), wait) == t;
    assert t[..|t| - 1] == launched + serving[..|serving| - 1];
    LacksAppend(launched, serving[..|serving| - 1], Failures);
  }

  /** Once the server has a pid, the pid, the host and the log file are
      saved, and all of them before the first probe. */
  lemma StartSavesFirst(inputs: Inputs, inherited: map<string, string>, m: Machine, install: Install.Outcome,
                        pid: nat, wait: (HealthOutcome, seq<Event>))
    requires inputs.bucket != "" && install.result.Ok? && Passive(install.trace) && Lacks(install.trace, Fetches)
    requires Passive(wait.1)
    ensures var t := StartWith(inputs, inherited, m, install, Some(pid), wait);
      SaveState(PidKey, NatToString(pid)) in t && SaveState(HostKey, HostOf(inputs)) in t
      && SaveState(LogKey, LogFile(m)) in t && AllBefore(t, Saves, Fetches)
  {
    var launched := Launched(inputs, inherited, install.trace, install.result.value);
    var serving := Serving(HostOf(inputs), m, pid, wait);
    LaunchedFacts(inputs, inherited, install.trace, install.result.value);
    ServingSavesFirst(HostOf(inputs), m, pid, wait);
    ServingSavesBeforeProbes(HostOf(inputs), m, pid, wait);
    assert StartWith(inputs, inherited, m, install, Some(pid), wait) == launched + serving;
    assert serving[0] in serving && serving[1] in serving && serving[2] in serving;
    AllBeforeShift(launched, serving, Saves, Fetches);
  }

  /** How the start phase ends, given the installer's and the health
      wait's behaviour, cause by cause in the order the source meets them:
      every failure is reported once, as the last call. */
  lemma StartWithFailures(inputs: Inputs, inherited: map<string, string>, m: Machine, install: Install.Outcome,
                          spawned: Option<nat>, wait: (HealthOutcome, seq<Event>))
    requires Passive(install.trace) && Lacks(install.trace, Fetches) && Passive(wait.1)
    ensures var t := StartWith(inputs, inherited, m, install, spawned, wait);
      && (inputs.bucket == "" ==> t == [SetFailed(MissingBucket)])
      && (inputs.bucket != "" && install.result.Err? ==> FailedOnce(t, install.result.error))
      && (inputs.bucket != "" && install.result.Ok? && spawned.None? ==> FailedOnce(t, MissingPid))
      && (inputs.bucket != "" && install.result.Ok? && spawned.Some? && wait.0 == Exhausted ==>
            FailedOnce(t, ExhaustedMessage(DefaultMaxAttempts)))
  {
    if inputs.bucket == "" {
    } else if install.result.Err? {
      StartInstallFailed(inputs, inherited, m, install, spawned, wait);
    } else if spawned.None? {
      StartSpawnFailed(inputs, inherited, m, install, wait);
    } else if wait.0 == Exhausted {
      StartUnhealthy(inputs, inherited, m, install, spawned.value, wait);
    }
  }

  /** The phase succeeds exactly when the bucket is given, the install
      works, the server gets a pid and the health wait ends healthy. */
  lemma StartWithSucceeds(inputs: Inputs, inherited: map<string, string>, m: Machine, install: Install.Outcome,
                          spawned: Option<nat>, wait: (HealthOutcome, seq<Event>))
    requires Passive(install.trace) && Lacks(install.trace, Fetches) && Passive(wait.1)
    ensures Succeeded(StartWith(inputs, inherited, m, install, spawned, wait)) <==>
      inputs.bucket != "" && install.result.Ok? && spawned.Some? && wait.0.Healthy?
  {
    var t := StartWith(inputs, inherited, m, install, spawned, wait);
    if inputs.bucket == "" {
      assert t[0] in t;
    } else if install.result.Err? {
      StartInstallFailed(inputs, inherited, m, install, spawned, wait);
      FailedIsNotSucceeded(t, install.result.error);
    } else if spawned.None? {
      StartSpawnFailed(inputs, inherited, m, install, wait);
      FailedIsNotSucceeded(t, MissingPid);
    } else if wait.0 == Exhausted {
      StartUnhealthy(inputs, inherited, m, install, spawned.value, wait);
      FailedIsNotSucceeded(t, ExhaustedMessage(DefaultMaxAttempts));
    } else {
      StartReady(inputs, inherited, m, install, spawned.value, wait);
    }
  }

  /** The start phase on this machine succeeds exactly when the bucket is
      given, the install works, the server gets a pid and one of the first
      30 probes is answered OK. */
  lemma StartOutcome(inputs: Inputs, inherited: map<string, string>, m: Machine, tc: Install.ToolCache,
                     spawned: Option<nat>, respond: nat -> FetchResult)
    ensures Succeeded(StartTrace(inputs, inherited, m, tc, spawned, respond)) <==>
      inputs.bucket != "" && Install.Installation(VersionOf(inputs), m, tc).result.Ok? && spawned.Some?
      && exists k :: 1 <= k <= DefaultMaxAttempts && IsOk(respond(k))
  {
    var install := Install.Installation(VersionOf(inputs), m, tc);
    var wait := HealthWait(HostOf(inputs), respond);
    assert StartTrace(inputs, inherited, m, tc, spawned, respond) == StartWith(inputs, inherited, m, install, spawned, wait);
    InstallationPassive(VersionOf(inputs), m, tc);
    HealthPassive(HostOf(inputs), respond);
    ExhaustedWithoutOk(Endpoint(HostOf(inputs)), 1, DefaultMaxAttempts, DefaultDelayMs, respond);
    StartWithSucceeds(inputs, inherited, m, install, spawned, wait);
  }

  /** A start phase on this machine that does not succeed reports exactly
      one failure, as its last call. */
  lemma StartFailsOnce(inputs: Inputs, inherited: map<string, string>, m: Machine, tc: Install.ToolCache,
                       spawned: Option<nat>, respond: nat -> FetchResult)
    ensures !Succeeded(StartTrace(inputs, inherited, m, tc, spawned, respond)) ==>
      exists message :: FailedOnce(StartTrace(inputs, inherited, m, tc, spawned, respond), message)
  {
    var install := Install.Installation(VersionOf(inputs), m, tc);
    var wait := HealthWait(HostOf(inputs), respond);
    var t := StartTrace(inputs, inherited, m, tc, spawned, respond);
    assert t == StartWith(inputs, inherited, m, install, spawned, wait);
    InstallationPassive(VersionOf(inputs), m, tc);
    HealthPassive(HostOf(inputs), respond);
    StartWithFailures(inputs, inherited, m, install, spawned, wait);
    StartWithSucceeds(inputs, inherited, m, install, spawned, wait);
    if inputs.bucket == "" {
      FailedAfter([], MissingBucket);
      assert FailedOnce(t, MissingBucket);
    } else if install.result.Err? {
      assert FailedOnce(t, install.result.error);
    } else if spawned.None? {
      assert FailedOnce(t, MissingPid);
    } else if wait.0 == Exhausted {
      assert FailedOnce(t, ExhaustedMessage(DefaultMaxAttempts));
    }
  }

  /** A phase that does not succeed publishes nothing but, possibly, the
      version: neither `cache-endpoint` nor `cache-socket` is set. */
  lemma StartWithOutputs(inputs: Inputs, inherited: map<string, string>, m: Machine, install: Install.Outcome,
                         spawned: Option<nat>, wait: (HealthOutcome, seq<Event>))
    requires Passive(install.trace) && Lacks(install.trace, Fetches) && Passive(wait.1)
    ensures var t := StartWith(inputs, inherited, m, install, spawned, wait);
      !Succeeded(t) ==> forall e | e in t && e.SetOutput? :: e.name == "version"
  {
    StartWithSucceeds(inputs, inherited, m, install, spawned, wait);
    if inputs.bucket == "" {
    } else if install.result.Err? {
      StartInstallFailed(inputs, inherited, m, install, spawned, wait);
    } else if spawned.None? {
      StartSpawnFailed(inputs, inherited, m, install, wait);
    } else if wait.0 == Exhausted {
      StartUnhealthy(inputs, inherited, m, install, spawned.value, wait);
    }
  }

  /** On this machine, a start phase that does not succeed sets no
      `cache-endpoint` and no `cache-socket` output. */
  lemma StartFailureOutputs(inputs: Inputs, inherited: map<string, string>, m: Machine, tc: Install.ToolCache,
                            spawned: Option<nat>, respond: nat -> FetchResult)
    ensures var t := StartTrace(inputs, inherited, m, tc, spawned, respond);
      !Succeeded(t) ==> forall e | e in t && e.SetOutput? :: e.name == "version"
  {
    var install := Install.Installation(VersionOf(inputs), m, tc);
    var wait := HealthWait(HostOf(inputs), respond);
    assert StartTrace(inputs, inherited, m, tc, spawned, respond) == StartWith(inputs, inherited, m, install, spawned, wait);
    InstallationPassive(VersionOf(inputs), m, tc);
    HealthPassive(HostOf(inputs), respond);
    StartWithOutputs(inputs, inherited, m, install, spawned, wait);
  }
}
