/** The stop phase (src/post.js): the cache statistics are fetched and
    reported, the server's log is shown, and the server is stopped by a
    SIGTERM, a bounded series of liveness probes and, when those all find it
    still running, a SIGKILL. `JSON.parse` and `process.kill` are oracles. */
module Post {
  import opened Results
  import opened Text
  import opened Effects
  import Startup

  /** What `JSON.parse` makes of the statistics, reduced to the two fields
      the action reads; `None` is a field that is `undefined`. */
  datatype Stats = Stats(hits: Option<nat>, misses: Option<nat>)

  /** One answer of `JSON.parse`: a value, or the error it throws. */
  datatype Parsed = Parsed(stats: Stats) | Malformed(message: string)

  /** One answer of `process.kill`: the signal was delivered, or the call
      threw an error with this `code` and `message`. */
  datatype KillResult = Delivered | Raised(code: string, message: string)

  const NoSuchProcess := "ESRCH"
  const SummaryHeading := "omni-cache Statistics"
  const SummaryLevel: nat := 2

  // ---------------------------------------------------------------------
  // fetchStats

  /** The address the statistics are read from. */
  function StatsUrl(host: string): (url: string)
    ensures StartsWith(url, Startup.Endpoint(host)) && EndsWith(url, "/metrics/cache")
    ensures |url| == |Startup.Endpoint(host)| + |"/metrics/cache"|
  {
    var base := Startup.Endpoint(host);
    assert (base + "/metrics/cache")[..|base|] == base;
    assert (base + "/metrics/cache")[|base|..] == "/metrics/cache";
    base + "/metrics/cache"
  }

  /** `replace(/^﻿/, '')`: one leading byte order mark is dropped. */
  function StripBom(s: string): (r: string)
    ensures |s| > 0 && s[0] == '\U{FEFF}' ==> r == s[1..]
    ensures !(|s| > 0 && s[0] == '\U{FEFF}') ==> r == s
  {
    if |s| > 0 && s[0] == '\U{FEFF}' then s[1..] else s
  }

  /** `/^[{[]/.test(t)` */
  predicate LooksLikeJson(t: string) {
    |t| > 0 && (t[0] == '{' || t[0] == '[')
  }

  /** The test accepts exactly the texts that open an object or an array. */
  lemma JsonOpeners(t: string)
    ensures LooksLikeJson(t) <==> StartsWith(t, "{") || StartsWith(t, "[")
  {
    if |t| > 0 {
      assert t[..1] == [t[0]];
    }
  }

  /** The hit rate in tenths of a percent, `hits * 100 / total` rounded to
      the nearest tenth with halves rounded up. */
  function HitRateTenths(hits: nat, total: nat): (r: nat)
    requires 0 < total
    ensures 2 * r * total <= 2000 * hits + total < 2 * (r + 1) * total
    ensures hits <= total ==> r <= 1000
  {
    var q := (2000 * hits + total) / (2 * total);
    RoundingBounds(hits, total, q);
    q
  }

  lemma RoundingBounds(hits: nat, total: nat, q: nat)
    requires 0 < total && q == (2000 * hits + total) / (2 * total)
    ensures 2 * q * total <= 2000 * hits + total < 2 * (q + 1) * total
    ensures hits <= total ==> q <= 1000
  {
    var n := 2000 * hits + total;
    var d := 2 * total;
    assert d * q <= n < d * q + d;
    assert d * q == 2 * q * total;
    assert 2 * (q + 1) * total == d * q + d;
    if hits <= total {
      assert n < d * 1001;
      MulLess(q, 1001, d);
    }
  }

  lemma MulLess(a: nat, b: nat, c: nat)
    requires c * a < c * b
    ensures a < b
  {
  }

  /** `toFixed(1)` of a number given in tenths. */
  function Tenths(r: nat): (s: string)
    ensures |s| >= 3 && s[|s| - 2] == '.'
    ensures forall i :: 0 <= i < |s| && i != |s| - 2 ==> IsDigit(s[i])
  {
    NatToString(r / 10) + "." + [DigitChar(r % 10)]
  }

  /** Reading the digits of `Tenths(r)` back gives `r`. */
  lemma TenthsValue(r: nat)
    ensures var s := Tenths(r);
      DigitsValue(s[..|s| - 2]) * 10 + DigitValue(s[|s| - 1]) == r
  {
    var s := Tenths(r);
    assert s[..|s| - 2] == NatToString(r / 10);
    DigitsValueOfNatToString(r / 10);
  }

  /** The rate as the action prints it: the number `0` without decimals when
      nothing was counted, one decimal otherwise. */
  function RateText(hits: nat, misses: nat): (s: string)
    ensures hits + misses == 0 <==> s == "0"
    ensures hits + misses > 0 ==> s == Tenths(HitRateTenths(hits, hits + misses))
  {
    if hits + misses > 0 then Tenths(HitRateTenths(hits, hits + misses)) else "0"
  }

  /** 100 hits and 50 misses make a rate of 66.7 percent. */
  lemma TwoThirds()
    ensures HitRateTenths(100, 150) == 667
    ensures RateText(100, 50) == "66.7"
  {
    var r := HitRateTenths(100, 150);
    assert 2 * r * 150 <= 200150 < 2 * (r + 1) * 150;
    assert NatToString(66) == "66";
  }

  /** The job summary table: a header row, then hits, misses and rate. */
  function SummaryRows(hits: nat, misses: nat, rate: string): seq<seq<string>> {
    [["Metric", "Value"], ["Cache Hits", NatToString(hits)],
     ["Cache Misses", NatToString(misses)], ["Hit Rate", rate + "%"]]
  }

  /** What is reported about parsed statistics. */
  function Report(stats: Stats): (r: seq<Event>)
    ensures r == [] <==> stats.hits.None? || stats.misses.None?
    ensures r != [] ==> (|r| == 2 && r[0].Info? && r[1].Summary? && r[1].heading == SummaryHeading
                         && r[1].level == SummaryLevel)
  {
    if stats.hits.Some? && stats.misses.Some? then
      var rate := RateText(stats.hits.value, stats.misses.value);
      [Info(HitRateLine(rate, stats.hits.value, stats.misses.value))]
        + [Summary(SummaryHeading, SummaryLevel, SummaryRows(stats.hits.value, stats.misses.value, rate))]
    else []
  }

  /** The heading and the body as printed. */
  function Shown(cleaned: string): seq<Event> {
    [Info(StatsHeading)] + [Info(Verbatim(cleaned))]
  }

  /** The handling of an OK response's body. */
  function Classify(body: string, parse: string -> Parsed): (r: (Option<Stats>, seq<Event>))
    ensures |r.1| >= 1
    ensures r.0.Some? <==> LooksLikeJson(Trim(StripBom(body))) && parse(Trim(StripBom(body))).Parsed?
    ensures r.0.Some? ==> r.0.value == parse(Trim(StripBom(body))).stats
  {
    var cleaned := StripBom(body);
    var trimmed := Trim(cleaned);
    if trimmed == [] then (None, [Debug(EmptyStats)])
    else if !LooksLikeJson(trimmed) then (None, Shown(cleaned))
    else
      match parse(trimmed)
      case Malformed(message) => (None, Shown(cleaned) + [Warning(UnparsableStats(message))])
      case Parsed(stats) => (Some(stats), Shown(cleaned) + Report(stats))
  }

  /** What follows the `fetch` call: a thrown error and an error status
      are warned about, an OK response's body is classified. */
  function Answer(response: FetchResult, parse: string -> Parsed): (r: (Option<Stats>, seq<Event>))
    ensures |r.1| >= 1
    ensures !IsOk(response) ==> r.0 == None && |r.1| == 1 && r.1[0].Warning?
    ensures IsOk(response) ==> r == Classify(response.body, parse)
  {
    match response
    case Thrown(message) => (None, [Warning(StatsUnavailable(message))])
    case Response(ok, status, body) =>
      if ok then Classify(body, parse) else (None, [Warning(StatsHttpError(status))])
  }

  /** `fetchStats(host)`: the statistics when the server answered with JSON,
      and the trace; `response` is what `fetch` gave. */
  function FetchStats(host: string, response: FetchResult, parse: string -> Parsed): (r: (Option<Stats>, seq<Event>))
    ensures |r.1| >= 2 && r.1[0] == Fetch(StatsUrl(host))
    ensures r.0.Some? ==> IsOk(response)
  {
    var answer := Answer(response, parse);
    (answer.0, [Fetch(StatsUrl(host))] + answer.1)
  }

  /** Statistics are returned exactly when an OK response carries a body
      that looks like JSON and parses; they are what `JSON.parse` gave. */
  lemma FetchStatsResult(host: string, response: FetchResult, parse: string -> Parsed)
    ensures var r := FetchStats(host, response, parse);
      r.0.Some? <==>
        IsOk(response) && LooksLikeJson(Trim(StripBom(response.body)))
        && parse(Trim(StripBom(response.body))).Parsed?
    ensures var r := FetchStats(host, response, parse);
      r.0.Some? ==> r.0.value == parse(Trim(StripBom(response.body))).stats
  {
  }

  /** Whatever the server answers, the statistics are fetched first, from
      `StatsUrl(host)`, and what follows is the answer's trace. */
  lemma FetchStatsTrace(host: string, response: FetchResult, parse: string -> Parsed)
    ensures var t := FetchStats(host, response, parse).1;
      |t| > 0 && t[0] == Fetch(StatsUrl(host)) && t[1..] == Answer(response, parse).1
    ensures Count(FetchStats(host, response, parse).1, Warnings) == Count(Answer(response, parse).1, Warnings)
  {
    var fetch := [Fetch(StatsUrl(host))];
    var rest := Answer(response, parse).1;
    assert FetchStats(host, response, parse).1 == fetch + rest;
    CountAppend(fetch, rest, Warnings);
    CountOne(fetch[0], Warnings);
  }

  /** At most one warning follows the fetch; no further fetch, no signal
      and no failure: `fetchStats` never throws. */
  lemma AnswerEffects(response: FetchResult, parse: string -> Parsed)
    ensures var t := Answer(response, parse).1;
      Count(t, Warnings) <= 1 && Lacks(t, Fetches) && Lacks(t, Failures) && Lacks(t, Kills)
  {
    var t := Answer(response, parse).1;
    if response.Thrown? || !response.ok {
      assert |t| == 1 && t[0].Warning?;
      CountOne(t[0], Warnings);
    } else {
      ClassifyEffects(response.body, parse);
    }
  }

  lemma ClassifyEffects(body: string, parse: string -> Parsed)
    ensures var t := Classify(body, parse).1;
      Count(t, Warnings) <= 1 && Lacks(t, Fetches) && Lacks(t, Failures) && Lacks(t, Kills)
  {
    ClassifyWarnings(body, parse);
    ClassifyLogs(body, parse);
  }

  /** Classifying a body only logs: every event is a log line or the summary. */
  predicate Logged(t: seq<Event>) {
    forall e | e in t :: e.Info? || e.Debug? || e.Warning? || e.Summary?
  }

  lemma ClassifyLogs(body: string, parse: string -> Parsed)
    ensures Logged(Classify(body, parse).1)
  {
    var cleaned := StripBom(body);
    var trimmed := Trim(cleaned);
    if trimmed != [] && LooksLikeJson(trimmed) && parse(trimmed).Parsed? {
      var t := Classify(body, parse).1;
      assert t == Shown(cleaned) + Report(parse(trimmed).stats);
    }
  }

  lemma ClassifyWarnings(body: string, parse: string -> Parsed)
    ensures Count(Classify(body, parse).1, Warnings) <= 1
  {
    var t := Classify(body, parse).1;
    var cleaned := StripBom(body);
    var trimmed := Trim(cleaned);
    if trimmed == [] {
      CountOne(Debug(EmptyStats), Warnings);
    } else {
      var tail := t[2..];
      assert t == Shown(cleaned) + tail;
      ShownEffects(cleaned);
      CountAppend(Shown(cleaned), tail, Warnings);
      if LooksLikeJson(trimmed) && parse(trimmed).Malformed? {
        assert tail == [Warning(UnparsableStats(parse(trimmed).message))];
        CountOne(tail[0], Warnings);
      } else if LooksLikeJson(trimmed) {
        assert tail == Report(parse(trimmed).stats);
        ReportEffects(parse(trimmed).stats);
      } else {
        assert tail == [];
      }
    }
  }

  lemma ShownEffects(cleaned: string)
    ensures Count(Shown(cleaned), Warnings) == 0
  {
    CountAppend([Info(StatsHeading)], [Info(Verbatim(cleaned))], Warnings);
    CountOne(Info(StatsHeading), Warnings);
    CountOne(Info(Verbatim(cleaned)), Warnings);
  }

  lemma ReportEffects(stats: Stats)
    ensures Count(Report(stats), Warnings) == 0
  {
    var t := Report(stats);
    if t != [] {
      assert t == [t[0]] + [t[1]];
      CountAppend([t[0]], [t[1]], Warnings);
      CountOne(t[0], Warnings);
      CountOne(t[1], Warnings);
    }
  }

  /** A body that is empty once a byte order mark and white space are
      dropped is logged at debug level only: no statistics, nothing printed. */
  lemma EmptyBody(body: string, parse: string -> Parsed)
    requires Trim(StripBom(body)) == []
    ensures Classify(body, parse).0 == None
    ensures Classify(body, parse).1 == [Debug(EmptyStats)]
  {
  }

  /** Any other OK body is printed whole, after a heading. */
  lemma BodyPrinted(body: string, parse: string -> Parsed)
    requires Trim(StripBom(body)) != []
    ensures var t := Classify(body, parse).1;
      |t| >= 2 && t[..2] == Shown(StripBom(body))
    ensures Shown(StripBom(body)) == [Info(StatsHeading), Info(Verbatim(StripBom(body)))]
  {
  }

  /** A body that does not look like JSON is only printed: no statistics
      and no warning. */
  lemma PlainTextBody(body: string, parse: string -> Parsed)
    requires Trim(StripBom(body)) != [] && !LooksLikeJson(Trim(StripBom(body)))
    ensures Classify(body, parse).0 == None
    ensures Classify(body, parse).1 == Shown(StripBom(body))
  {
  }

  /** A JSON-looking body that does not parse ends with one warning
      carrying the parser's message. */
  lemma MalformedBody(body: string, parse: string -> Parsed)
    requires LooksLikeJson(Trim(StripBom(body))) && parse(Trim(StripBom(body))).Malformed?
    ensures Classify(body, parse).0 == None
    ensures Classify(body, parse).1
      == Shown(StripBom(body)) + [Warning(UnparsableStats(parse(Trim(StripBom(body))).message))]
  {
  }

  /** Parsed statistics are returned and reported. */
  lemma ParsedBody(body: string, parse: string -> Parsed)
    requires LooksLikeJson(Trim(StripBom(body))) && parse(Trim(StripBom(body))).Parsed?
    ensures var stats := parse(Trim(StripBom(body))).stats;
      Classify(body, parse).0 == Some(stats)
      && Classify(body, parse).1 == Shown(StripBom(body)) + Report(stats)
  {
  }

  /** The report of statistics with both counters: the rate line, then the
      job summary. Without either counter nothing is reported. */
  lemma ReportWithCounters(hits: nat, misses: nat)
    ensures var rate := RateText(hits, misses);
      Report(Stats(Some(hits), Some(misses)))
        == [Info(HitRateLine(rate, hits, misses)), Summary(SummaryHeading, SummaryLevel, SummaryRows(hits, misses, rate))]
  {
  }

  lemma ReportWithoutCounters(hits: Option<nat>, misses: Option<nat>)
    requires hits.None? || misses.None?
    ensures Report(Stats(hits, misses)) == []
  {
  }

  /** A response with an error status: one warning naming the status. */
  lemma HttpError(status: nat, body: string, parse: string -> Parsed)
    ensures Answer(Response(false, status, body), parse).0 == None
    ensures Answer(Response(false, status, body), parse).1 == [Warning(StatsHttpError(status))]
    ensures Render(StatsHttpError(status)) == "Failed to fetch stats: HTTP " + NatToString(status)
  {
  }

  /** A `fetch` that throws: one warning with its message. */
  lemma FetchThrown(message: string, parse: string -> Parsed)
    ensures Answer(Thrown(message), parse).0 == None
    ensures Answer(Thrown(message), parse).1 == [Warning(StatsUnavailable(message))]
  {
  }

  // ---------------------------------------------------------------------
  // shutdownOmniCache

  const MaxWaitMs: nat := 10000
  const CheckIntervalMs: nat := 500
  const MaxProbes: nat := 20

  /** `!pid || isNaN(pid)`: `NaN` and 0 are rejected. */
  predicate ValidPid(pid: Option<int>) {
    pid.Some? && pid.value != 0
  }

  /** The number of probes still to come once `waited` milliseconds have
      passed in the probing loop. */
  function ProbesLeft(waited: nat): nat
    decreases MaxWaitMs - waited
  {
    if waited >= MaxWaitMs then 0 else 1 + ProbesLeft(waited + CheckIntervalMs)
  }

  /** 10000 / 500: the loop makes at most 20 probes. */
  lemma ProbesLeftAtStart()
    ensures ProbesLeft(0) == MaxProbes
  {
    ProbesLeftBefore(MaxProbes);
  }

  lemma {:induction false} ProbesLeftBefore(k: nat)
    requires k <= MaxProbes
    ensures ProbesLeft(MaxWaitMs - CheckIntervalMs * k) == k
  {
    if k > 0 {
      ProbesLeftBefore(k - 1);
      assert MaxWaitMs - CheckIntervalMs * k + CheckIntervalMs == MaxWaitMs - CheckIntervalMs * (k - 1);
    }
  }

  /** A probe that found the process alive, and the pause after it. */
  function Alive(pid: int): seq<Event> {
    [Kill(pid, Probe)] + [Sleep(CheckIntervalMs)]
  }

  /** The probing loop from `waited` milliseconds on; the `k`-th call of
      `process.kill` is answered by `kill(k)`, the next one being `calls`. */
  function Polling(pid: int, waited: nat, calls: nat, kill: nat -> KillResult): seq<Event>
    decreases MaxWaitMs - waited
  {
    if waited >= MaxWaitMs then [Warning(SendingSigkill)] + [Kill(pid, SIGKILL)]
    else if kill(calls).Raised? then [Kill(pid, Probe)] + [Info(ShutdownComplete)]
    else Alive(pid) + Polling(pid, waited + CheckIntervalMs, calls + 1, kill)
  }

  /** What follows the SIGTERM, which is call 0. */
  function Terminated(pid: int, kill: nat -> KillResult): seq<Event> {
    match kill(0)
    case Raised(code, message) =>
      if code == NoSuchProcess then [Info(AlreadyTerminated)] else [Warning(ShutdownError(message))]
    case Delivered => Polling(pid, 0, 1, kill)
  }

  /** `shutdownOmniCache(pid)`. */
  function Shutdown(pid: Option<int>, kill: nat -> KillResult): seq<Event> {
    if !ValidPid(pid) then [Warning(NoValidPid)]
    else [Info(ShuttingDown(pid.value))] + [Kill(pid.value, SIGTERM)] + Terminated(pid.value, kill)
  }

  method ShutdownOmniCache(pid: Option<int>, kill: nat -> KillResult) returns (trace: seq<Event>)
    ensures trace == Shutdown(pid, kill)
  {
    if pid.None? || pid.value == 0 {
      trace := [Warning(NoValidPid)];
      return;
    }
    var p := pid.value;
    trace := [Info(ShuttingDown(p))];
    trace := trace + [Kill(p, SIGTERM)];
    var answer := kill(0);
    var calls: nat := 1;
    if answer.Raised? {
      if answer.code == NoSuchProcess {
        trace := trace + [Info(AlreadyTerminated)];
      } else {
        trace := trace + [Warning(ShutdownError(answer.message))];
      }
      return;
    }
    var waited: nat := 0;
    while waited < MaxWaitMs
      invariant Shutdown(pid, kill) == trace + Polling(p, waited, calls, kill)
      decreases MaxWaitMs - waited
    {
      var before := trace;
      trace := trace + [Kill(p, Probe)];
      answer := kill(calls);
      calls := calls + 1;
      if answer.Raised? {
        trace := trace + [Info(ShutdownComplete)];
        AppendAssoc(before, [Kill(p, Probe)], [Info(ShutdownComplete)]);
        return;
      }
      trace := trace + [Sleep(CheckIntervalMs)];
      waited := waited + CheckIntervalMs;
      AppendAssoc(before, Alive(p), Polling(p, waited, calls, kill));
    }
    var before := trace;
    trace := trace + [Warning(SendingSigkill)];
    trace := trace + [Kill(p, SIGKILL)];
    AppendAssoc(before, [Warning(SendingSigkill)], [Kill(p, SIGKILL)]);
  }

  /** `n` copies of signal `s`. */
  function Repeat(s: Signal, n: nat): (r: seq<Signal>)
    ensures |r| == n && forall i :: 0 <= i < n ==> r[i] == s
  {
    if n == 0 then [] else [s] + Repeat(s, n - 1)
  }

  lemma SignalsOne(e: Event)
    ensures Signals([e]) == if e.Kill? then [e.signal] else []
  {
    assert [e][..0] == [];
  }

  lemma AliveFacts(pid: int)
    ensures Signals(Alive(pid)) == [Probe] && Count(Alive(pid), Pauses) == 1
  {
    SignalsAppend([Kill(pid, Probe)], [Sleep(CheckIntervalMs)]);
    SignalsOne(Kill(pid, Probe));
    SignalsOne(Sleep(CheckIntervalMs));
    CountAppend([Kill(pid, Probe)], [Sleep(CheckIntervalMs)], Pauses);
    CountOne(Kill(pid, Probe), Pauses);
    CountOne(Sleep(CheckIntervalMs), Pauses);
  }

  /** The two events `a` and `b`: their signals and pauses. */
  lemma PairFacts(a: Event, b: Event)
    requires !a.Kill? && b.Kill? && !a.Sleep? && !b.Sleep?
    ensures Signals([a] + [b]) == [b.signal] && Count([a] + [b], Pauses) == 0
  {
    SignalsAppend([a], [b]);
    SignalsOne(a);
    SignalsOne(b);
    CountAppend([a], [b], Pauses);
    CountOne(a, Pauses);
    CountOne(b, Pauses);
  }

  /** One more probe that finds the process alive. */
  lemma AliveThen(pid: int, rest: seq<Event>)
    ensures Signals(Alive(pid) + rest) == [Probe] + Signals(rest)
    ensures Count(Alive(pid) + rest, Pauses) == 1 + Count(rest, Pauses)
  {
    AliveFacts(pid);
    SignalsAppend(Alive(pid), rest);
    CountAppend(Alive(pid), rest, Pauses);
  }

  /** When every remaining probe finds the process alive, they are all
      made, each followed by a pause, and then SIGKILL is sent. */
  lemma {:induction false} PollingEscalates(pid: int, waited: nat, calls: nat, kill: nat -> KillResult)
    requires forall j | calls <= j < calls + ProbesLeft(waited) :: kill(j).Delivered?
    ensures Signals(Polling(pid, waited, calls, kill)) == Repeat(Probe, ProbesLeft(waited)) + [SIGKILL]
    ensures Count(Polling(pid, waited, calls, kill), Pauses) == ProbesLeft(waited)
    decreases MaxWaitMs - waited
  {
    if waited >= MaxWaitMs {
      PairFacts(Warning(SendingSigkill), Kill(pid, SIGKILL));
    } else {
      var rest := Polling(pid, waited + CheckIntervalMs, calls + 1, kill);
      assert kill(calls).Delivered?;
      PollingEscalates(pid, waited + CheckIntervalMs, calls + 1, kill);
      AliveThen(pid, rest);
    }
  }

  /** When probe `k` is the first to fail, the loop ends there: `k - calls + 1`
      probes, a pause after each but the last, and "shutdown complete". */
  lemma {:induction false} PollingStops(pid: int, waited: nat, calls: nat, kill: nat -> KillResult, k: nat)
    requires calls <= k < calls + ProbesLeft(waited) && kill(k).Raised?
    requires forall j | calls <= j < k :: kill(j).Delivered?
    ensures var t := Polling(pid, waited, calls, kill);
      Signals(t) == Repeat(Probe, k - calls + 1) && Count(t, Pauses) == k - calls
      && t[|t| - 1] == Info(ShutdownComplete)
    decreases MaxWaitMs - waited
  {
    if k == calls {
      var t := Polling(pid, waited, calls, kill);
      assert t == [Kill(pid, Probe)] + [Info(ShutdownComplete)];
      SignalsAppend([Kill(pid, Probe)], [Info(ShutdownComplete)]);
      SignalsOne(Kill(pid, Probe));
      SignalsOne(Info(ShutdownComplete));
      CountAppend([Kill(pid, Probe)], [Info(ShutdownComplete)], Pauses);
      CountOne(Kill(pid, Probe), Pauses);
      CountOne(Info(ShutdownComplete), Pauses);
    } else {
      var rest := Polling(pid, waited + CheckIntervalMs, calls + 1, kill);
      assert kill(calls).Delivered?;
      PollingStops(pid, waited + CheckIntervalMs, calls + 1, kill, k);
      AliveThen(pid, rest);
      assert Polling(pid, waited, calls, kill) == Alive(pid) + rest;
    }
  }

  /** SIGKILL is sent exactly when every remaining probe finds the process
      alive. */
  lemma {:induction false} PollingSigkill(pid: int, waited: nat, calls: nat, kill: nat -> KillResult)
    ensures SIGKILL in Signals(Polling(pid, waited, calls, kill))
      <==> forall j | calls <= j < calls + ProbesLeft(waited) :: kill(j).Delivered?
    decreases MaxWaitMs - waited
  {
    if waited >= MaxWaitMs {
      PairFacts(Warning(SendingSigkill), Kill(pid, SIGKILL));
    } else if kill(calls).Raised? {
      SignalsAppend([Kill(pid, Probe)], [Info(ShutdownComplete)]);
      SignalsOne(Kill(pid, Probe));
      SignalsOne(Info(ShutdownComplete));
    } else {
      var rest := Polling(pid, waited + CheckIntervalMs, calls + 1, kill);
      var n := ProbesLeft(waited + CheckIntervalMs);
      PollingSigkill(pid, waited + CheckIntervalMs, calls + 1, kill);
      AliveThen(pid, rest);
      assert SIGKILL in Signals(Alive(pid) + rest) <==> SIGKILL in Signals(rest);
      assert ProbesLeft(waited) == 1 + n;
      assert (forall j | calls <= j < calls + 1 + n :: kill(j).Delivered?)
        <==> (forall j | calls + 1 <= j < calls + 1 + n :: kill(j).Delivered?);
    }
  }

  /** The loop never makes more probes than are left. */
  lemma {:induction false} PollingProbes(pid: int, waited: nat, calls: nat, kill: nat -> KillResult)
    ensures multiset(Signals(Polling(pid, waited, calls, kill)))[Probe] <= ProbesLeft(waited)
    decreases MaxWaitMs - waited
  {
    if waited >= MaxWaitMs {
      PairFacts(Warning(SendingSigkill), Kill(pid, SIGKILL));
    } else if kill(calls).Raised? {
      SignalsAppend([Kill(pid, Probe)], [Info(ShutdownComplete)]);
      SignalsOne(Kill(pid, Probe));
      SignalsOne(Info(ShutdownComplete));
    } else {
      PollingProbes(pid, waited + CheckIntervalMs, calls + 1, kill);
      AliveThen(pid, Polling(pid, waited + CheckIntervalMs, calls + 1, kill));
    }
  }

  /** The loop never pauses more often than there are probes left. */
  lemma {:induction false} PollingPauses(pid: int, waited: nat, calls: nat, kill: nat -> KillResult)
    ensures Count(Polling(pid, waited, calls, kill), Pauses) <= ProbesLeft(waited)
    decreases MaxWaitMs - waited
  {
    if waited >= MaxWaitMs {
      PairFacts(Warning(SendingSigkill), Kill(pid, SIGKILL));
    } else if kill(calls).Raised? {
      CountAppend([Kill(pid, Probe)], [Info(ShutdownComplete)], Pauses);
      CountOne(Kill(pid, Probe), Pauses);
      CountOne(Info(ShutdownComplete), Pauses);
    } else {
      PollingPauses(pid, waited + CheckIntervalMs, calls + 1, kill);
      AliveThen(pid, Polling(pid, waited + CheckIntervalMs, calls + 1, kill));
    }
  }

  /** The loop never fetches and never fails. */
  lemma {:induction false} PollingQuiet(pid: int, waited: nat, calls: nat, kill: nat -> KillResult)
    ensures Lacks(Polling(pid, waited, calls, kill), Fetches)
    ensures Lacks(Polling(pid, waited, calls, kill), Failures)
    decreases MaxWaitMs - waited
  {
    if waited < MaxWaitMs && kill(calls).Delivered? {
      var rest := Polling(pid, waited + CheckIntervalMs, calls + 1, kill);
      PollingQuiet(pid, waited + CheckIntervalMs, calls + 1, kill);
      LacksAppend(Alive(pid), rest, Fetches);
      LacksAppend(Alive(pid), rest, Failures);
    }
  }

  /** Only the answers to the probes matter: the answer to SIGKILL is never
      looked at. */
  lemma {:induction false} PollingIgnoresLaterCalls(pid: int, waited: nat, calls: nat,
                                                    kill: nat -> KillResult, other: nat -> KillResult)
    requires forall j | calls <= j < calls + ProbesLeft(waited) :: kill(j) == other(j)
    ensures Polling(pid, waited, calls, kill) == Polling(pid, waited, calls, other)
    decreases MaxWaitMs - waited
  {
    if waited < MaxWaitMs {
      assert kill(calls) == other(calls);
      PollingIgnoresLaterCalls(pid, waited + CheckIntervalMs, calls + 1, kill, other);
    }
  }

  /** The signals and pauses of a shutdown with a valid pid: SIGTERM, then
      those of what follows it. */
  lemma ShutdownParts(p: int, kill: nat -> KillResult)
    requires p != 0
    ensures Signals(Shutdown(Some(p), kill)) == [SIGTERM] + Signals(Terminated(p, kill))
    ensures Count(Shutdown(Some(p), kill), Pauses) == Count(Terminated(p, kill), Pauses)
    ensures var t := Shutdown(Some(p), kill); t[|t| - 1] == Terminated(p, kill)[|Terminated(p, kill)| - 1]
  {
    var head := [Info(ShuttingDown(p))] + [Kill(p, SIGTERM)];
    var rest := Terminated(p, kill);
    assert Shutdown(Some(p), kill) == head + rest;
    PairFacts(Info(ShuttingDown(p)), Kill(p, SIGTERM));
    SignalsAppend(head, rest);
    CountAppend(head, rest, Pauses);
  }

  /** Without a valid pid nothing is signalled; with one, SIGTERM is. */
  lemma ShutdownWithoutPid(pid: Option<int>, kill: nat -> KillResult)
    ensures !ValidPid(pid) ==> Shutdown(pid, kill) == [Warning(NoValidPid)]
    ensures Signals(Shutdown(pid, kill)) == [] <==> !ValidPid(pid)
    ensures ValidPid(pid) ==> Signals(Shutdown(pid, kill))[0] == SIGTERM
  {
    if ValidPid(pid) {
      ShutdownParts(pid.value, kill);
    } else {
      SignalsOne(Warning(NoValidPid));
    }
  }

  /** A process that is already gone when SIGTERM is sent. */
  lemma ShutdownAlreadyGone(p: int, kill: nat -> KillResult)
    requires p != 0 && kill(0).Raised? && kill(0).code == NoSuchProcess
    ensures Shutdown(Some(p), kill) == [Info(ShuttingDown(p)), Kill(p, SIGTERM), Info(AlreadyTerminated)]
    ensures Signals(Shutdown(Some(p), kill)) == [SIGTERM]
  {
    ShutdownParts(p, kill);
    SignalsOne(Info(AlreadyTerminated));
  }

  /** Any other error from SIGTERM is warned about and ends the shutdown. */
  lemma ShutdownRefused(p: int, kill: nat -> KillResult)
    requires p != 0 && kill(0).Raised? && kill(0).code != NoSuchProcess
    ensures Shutdown(Some(p), kill)
      == [Info(ShuttingDown(p)), Kill(p, SIGTERM), Warning(ShutdownError(kill(0).message))]
    ensures Signals(Shutdown(Some(p), kill)) == [SIGTERM]
  {
    ShutdownParts(p, kill);
    SignalsOne(Warning(ShutdownError(kill(0).message)));
  }

  /** The first probe that fails, probe `k`, ends the shutdown: SIGTERM and
      `k` probes are sent, no SIGKILL. */
  lemma ShutdownAtFirstExit(p: int, kill: nat -> KillResult, k: nat)
    requires p != 0 && kill(0).Delivered?
    requires 1 <= k <= MaxProbes && kill(k).Raised?
    requires forall j | 1 <= j < k :: kill(j).Delivered?
    ensures var t := Shutdown(Some(p), kill);
      Signals(t) == [SIGTERM] + Repeat(Probe, k) && Count(t, Pauses) == k - 1
      && t[|t| - 1] == Info(ShutdownComplete)
  {
    ProbesLeftAtStart();
    PollingStops(p, 0, 1, kill, k);
    ShutdownParts(p, kill);
  }

  /** A process that survives all 20 probes gets SIGKILL, once, last. */
  lemma ShutdownEscalates(p: int, kill: nat -> KillResult)
    requires p != 0
    requires forall j | 0 <= j <= MaxProbes :: kill(j).Delivered?
    ensures var t := Shutdown(Some(p), kill);
      Signals(t) == [SIGTERM] + Repeat(Probe, MaxProbes) + [SIGKILL]
      && Count(t, Pauses) == MaxProbes
  {
    ProbesLeftAtStart();
    PollingEscalates(p, 0, 1, kill);
    ShutdownParts(p, kill);
  }

  /** SIGKILL is sent exactly when SIGTERM and all 20 probes found the
      process. */
  lemma ShutdownSigkill(pid: Option<int>, kill: nat -> KillResult)
    ensures SIGKILL in Signals(Shutdown(pid, kill))
      <==> ValidPid(pid) && forall j | 0 <= j <= MaxProbes :: kill(j).Delivered?
  {
    if ValidPid(pid) {
      ShutdownParts(pid.value, kill);
      TerminatedSigkill(pid.value, kill);
    } else {
      SignalsOne(Warning(NoValidPid));
    }
  }

  lemma TerminatedSigkill(p: int, kill: nat -> KillResult)
    ensures SIGKILL in Signals(Terminated(p, kill))
      <==> forall j | 0 <= j <= MaxProbes :: kill(j).Delivered?
  {
    if kill(0).Raised? {
      SignalsOne(Terminated(p, kill)[0]);
    } else {
      ProbesLeftAtStart();
      PollingSigkill(p, 0, 1, kill);
    }
  }

  /** At most 20 probes and 20 pauses, whatever the answers. */
  lemma ShutdownBounded(pid: Option<int>, kill: nat -> KillResult)
    ensures multiset(Signals(Shutdown(pid, kill)))[Probe] <= MaxProbes
    ensures Count(Shutdown(pid, kill), Pauses) <= MaxProbes
  {
    if ValidPid(pid) {
      var p := pid.value;
      ShutdownParts(p, kill);
      ProbesLeftAtStart();
      PollingProbes(p, 0, 1, kill);
      PollingPauses(p, 0, 1, kill);
      if kill(0).Raised? {
        SignalsOne(Terminated(p, kill)[0]);
        CountOne(Terminated(p, kill)[0], Pauses);
      }
    } else {
      SignalsOne(Warning(NoValidPid));
      CountOne(Warning(NoValidPid), Pauses);
    }
  }

  /** Whatever the SIGKILL call answers, the shutdown is the same: its
      error is swallowed. */
  lemma ShutdownIgnoresSigkillAnswer(pid: Option<int>, kill: nat -> KillResult, other: nat -> KillResult)
    requires forall j | 0 <= j <= MaxProbes :: kill(j) == other(j)
    ensures Shutdown(pid, kill) == Shutdown(pid, other)
  {
    if ValidPid(pid) {
      ProbesLeftAtStart();
      PollingIgnoresLaterCalls(pid.value, 0, 1, kill, other);
    }
  }

  /** The shutdown never fetches and never fails. */
  lemma ShutdownQuiet(pid: Option<int>, kill: nat -> KillResult)
    ensures Lacks(Shutdown(pid, kill), Fetches) && Lacks(Shutdown(pid, kill), Failures)
  {
    if ValidPid(pid) {
      PollingQuiet(pid.value, 0, 1, kill);
    }
  }

  // ---------------------------------------------------------------------
  // run

  /** `core.getState(key)`: "" for a key the start phase did not save. */
  function GetState(saved: map<string, string>, key: string): string {
    if key in saved then saved[key] else ""
  }

  /** The state left by the `saveState` calls of trace `t`; a later save of
      a key replaces an earlier one. */
  function StateOf(t: seq<Event>): map<string, string> {
    if t == [] then map[]
    else
      var before := StateOf(t[..|t| - 1]);
      var e := t[|t| - 1];
      if e.SaveState? then before[e.key := e.value] else before
  }

  /** `core.getState('omni-cache-host') || 'localhost:12321'` */
  function SavedHost(saved: map<string, string>): (host: string)
    ensures host != ""
    ensures GetState(saved, Startup.HostKey) == "" ==> host == Startup.DefaultHost
    ensures GetState(saved, Startup.HostKey) != "" ==> host == saved[Startup.HostKey]
  {
    if GetState(saved, Startup.HostKey) == "" then Startup.DefaultHost
    else GetState(saved, Startup.HostKey)
  }

  /** The post action's `run()`: the stop phase, given the saved state and
      the answers of `fetch`, `JSON.parse` and `process.kill`. */
  function Stop(saved: map<string, string>, response: FetchResult, parse: string -> Parsed,
                kill: nat -> KillResult): seq<Event>
  {
    var pidText := GetState(saved, Startup.PidKey);
    if pidText == "" then [Info(NothingToCleanUp)]
    else
      FetchStats(SavedHost(saved), response, parse).1 + [DisplayLogs(GetState(saved, Startup.LogKey))]
        + Shutdown(ParseInt(pidText), kill)
  }

  method Run(saved: map<string, string>, response: FetchResult, parse: string -> Parsed,
             kill: nat -> KillResult) returns (trace: seq<Event>)
    ensures trace == Stop(saved, response, parse, kill)
  {
    var pidText := GetState(saved, Startup.PidKey);
    var host := GetState(saved, Startup.HostKey);
    if host == "" {
      host := Startup.DefaultHost;
    }
    var logFile := GetState(saved, Startup.LogKey);
    if pidText == "" {
      trace := [Info(NothingToCleanUp)];
      return;
    }
    var pid := ParseInt(pidText);
    var stats := FetchStats(host, response, parse);
    trace := stats.1;
    trace := trace + [DisplayLogs(logFile)];
    var shutdown := ShutdownOmniCache(pid, kill);
    trace := trace + shutdown;
  }

  /** Without a saved pid nothing is fetched and nothing is signalled. */
  lemma StopWithoutPid(saved: map<string, string>, response: FetchResult, parse: string -> Parsed,
                       kill: nat -> KillResult)
    requires GetState(saved, Startup.PidKey) == ""
    ensures Stop(saved, response, parse, kill) == [Info(NothingToCleanUp)]
    ensures Lacks(Stop(saved, response, parse, kill), Fetches) && Lacks(Stop(saved, response, parse, kill), Kills)
  {
  }

  /** A saved pid is accepted by the shutdown exactly when it is not 0. */
  lemma SavedPidValid(n: nat)
    ensures ValidPid(ParseInt(NatToString(n))) <==> n != 0
  {
    ParseIntOfNatToString(n);
  }

  /** With a saved pid, whatever the statistics step met, the logs are shown
      and the shutdown follows: every signal comes after the statistics were
      fetched, and a valid pid gets SIGTERM. */
  lemma StopShutsDown(saved: map<string, string>, response: FetchResult, parse: string -> Parsed,
                      kill: nat -> KillResult)
    requires GetState(saved, Startup.PidKey) != ""
    ensures var t := Stop(saved, response, parse, kill);
      t[0] == Fetch(StatsUrl(SavedHost(saved))) && DisplayLogs(GetState(saved, Startup.LogKey)) in t
      && AllBefore(t, Fetches, Kills)
    ensures var t := Stop(saved, response, parse, kill);
      var n := |FetchStats(SavedHost(saved), response, parse).1|;
      n < |t| && t[n] == DisplayLogs(GetState(saved, Startup.LogKey))
      && Lacks(t[..n + 1], Kills) && Lacks(t[n + 1..], Fetches)
    ensures var pid := ParseInt(GetState(saved, Startup.PidKey));
      ValidPid(pid) ==> Kill(pid.value, SIGTERM) in Stop(saved, response, parse, kill)
  {
    var pid := ParseInt(GetState(saved, Startup.PidKey));
    var stats := FetchStats(SavedHost(saved), response, parse).1;
    var logs := [DisplayLogs(GetState(saved, Startup.LogKey))];
    var shutdown := Shutdown(pid, kill);
    var t := Stop(saved, response, parse, kill);
    assert t == (stats + logs) + shutdown;
    FetchStatsTrace(SavedHost(saved), response, parse);
    AnswerEffects(response, parse);
    assert stats == [stats[0]] + Answer(response, parse).1;
    LacksAppend(stats, logs, Kills);
    ShutdownQuiet(pid, kill);
    AllBeforeAppend(stats + logs, shutdown, Fetches, Kills);
    assert t[|stats|] == logs[0];
    assert t[..|stats| + 1] == stats + logs;
    assert t[|stats| + 1..] == shutdown;
    if ValidPid(pid) {
      assert shutdown[1] == Kill(pid.value, SIGTERM);
      assert t[|stats| + 2] == shutdown[1];
    }
  }

  /** The stop phase never fails the workflow: no `setFailed`. */
  lemma StopNeverFails(saved: map<string, string>, response: FetchResult, parse: string -> Parsed,
                       kill: nat -> KillResult)
    ensures Lacks(Stop(saved, response, parse, kill), Failures)
  {
    var pidText := GetState(saved, Startup.PidKey);
    if pidText != "" {
      var stats := FetchStats(SavedHost(saved), response, parse).1;
      var logs := [DisplayLogs(GetState(saved, Startup.LogKey))];
      var shutdown := Shutdown(ParseInt(pidText), kill);
      FetchStatsTrace(SavedHost(saved), response, parse);
      AnswerEffects(response, parse);
      assert stats == [stats[0]] + Answer(response, parse).1;
      ShutdownQuiet(ParseInt(pidText), kill);
      LacksAppend(stats, logs, Failures);
      LacksAppend(stats + logs, shutdown, Failures);
    }
  }

  /** The state the start phase saves for a started server. */
  lemma SavedByStart(host: string, m: Machine, pid: nat)
    ensures var saved := StateOf(Startup.Saved(host, m, pid));
      GetState(saved, Startup.PidKey) == NatToString(pid) && GetState(saved, Startup.HostKey) == host
      && GetState(saved, Startup.LogKey) == Startup.LogFile(m)
  {
    var t := Startup.Saved(host, m, pid);
    assert t[..3][..2] == t[..2] && t[..2][..1] == t[..1] && t[..1][..0] == [];
    assert StateOf(t[..1]) == map[Startup.PidKey := NatToString(pid)];
    assert StateOf(t[..2]) == StateOf(t[..1])[Startup.HostKey := host];
    assert StateOf(t[..3]) == StateOf(t[..2])[Startup.LogKey := Startup.LogFile(m)];
    assert StateOf(t) == StateOf(t[..3]);
    assert Startup.PidKey[11] == 'p' && Startup.HostKey[11] == 'h' && Startup.LogKey[11] == 'l';
  }

  /** After a start phase that started the server with pid `pid` and saved
      its state, the stop phase fetches the statistics of the same host,
      shows the same log and sends SIGTERM to that pid. */
  lemma StopAfterStart(host: string, m: Machine, pid: nat, response: FetchResult,
                       parse: string -> Parsed, kill: nat -> KillResult)
    requires host != "" && pid != 0
    ensures var t := Stop(StateOf(Startup.Saved(host, m, pid)), response, parse, kill);
      t[0] == Fetch(StatsUrl(host)) && DisplayLogs(Startup.LogFile(m)) in t && Kill(pid, SIGTERM) in t
  {
    var saved := StateOf(Startup.Saved(host, m, pid));
    SavedByStart(host, m, pid);
    ParseIntOfNatToString(pid);
    StopShutsDown(saved, response, parse, kill);
  }
}
