/** The quota tables as values, and what one recorded response does to them. */
module QuotaTables {
  import opened Wrappers
  import opened QuotaCapacity

  const MILLI: int := 1_000_000
  const RECENT_SECONDS: int := 30
  const SAMPLE_DAYS: int := 90
  const HISTORY_KEPT: nat := 40
  const CODEX: string := "codex"

  datatype SampleRow = SampleRow(account: string, startedMs: int, finishedMs: int)

  datatype Key = Key(account: string, limitId: string, window: string)

  datatype HistoryRow = HistoryRow(account: string, segment: Seg)

  datatype Summary = Summary(usageComplete: Option<bool>, attemptStartedAt: Option<int>, serviceTier: Option<string>)

  datatype LogRow = LogRow(account: Option<string>, createdAt: int, input: nat, cached: nat, output: nat,
                           summary: Option<Summary>, model: string)

  datatype Tables = Tables(samples: seq<SampleRow>, states: map<Key, Seg>, history: seq<HistoryRow>, logs: seq<LogRow>)

  datatype Window = Window(usedPercent: Option<real>, duration: Option<int>, resetAt: Option<int>)

  datatype Limit = Limit(limitId: string, primary: Option<Window>, secondary: Option<Window>)

  datatype Quota = Quota(account: string, plan: Option<string>, limits: seq<Limit>)

  /** What every sample of one response shares. */
  datatype Response = Response(account: string, plan: Option<string>, startedAt: int, finishedAt: int,
                               observerStartedAt: int, settled: bool)

  /** `timestamp_millis`: the instant rounded down. */
  function Ms(t: int): int {
    t / MILLI
  }

  function Max(a: int, b: int): int {
    if a >= b then a else b
  }

  /** `SELECT MAX(finished_at)`. */
  function LastFinished(samples: seq<SampleRow>, a: string): Option<int> {
    if samples == [] then None
    else
      var rest := LastFinished(samples[1..], a);
      if samples[0].account != a then rest
      else if rest.None? then Some(samples[0].finishedMs)
      else Some(Max(samples[0].finishedMs, rest.value))
  }

  function WithoutOld(samples: seq<SampleRow>, a: string, before: int): seq<SampleRow> {
    if samples == [] then []
    else if samples[0].account == a && samples[0].finishedMs < before then WithoutOld(samples[1..], a, before)
    else [samples[0]] + WithoutOld(samples[1..], a, before)
  }

  function RowsOf(history: seq<HistoryRow>, a: string): seq<HistoryRow> {
    if history == [] then []
    else (if history[0].account == a then [history[0]] else []) + RowsOf(history[1..], a)
  }

  /** Deletes the account's rows that have 40 newer ones. */
  function KeepNewest(history: seq<HistoryRow>, a: string): seq<HistoryRow> {
    if history == [] then []
    else if history[0].account == a && |RowsOf(history[1..], a)| >= HISTORY_KEPT then KeepNewest(history[1..], a)
    else [history[0]] + KeepNewest(history[1..], a)
  }

  /** A completed attempt of the account inside the half-open interval. */
  predicate InRange(r: LogRow, a: string, since: int, until: int) {
    r.account == Some(a) && since < r.createdAt <= until
  }

  predicate UsageComplete(r: LogRow) {
    r.summary.Some? && r.summary.value.usageComplete == Some(true)
  }

  predicate InsideBoundary(r: LogRow, boundary: int) {
    r.summary.Some? && r.summary.value.attemptStartedAt.Some? && r.summary.value.attemptStartedAt.value >= boundary
  }

  predicate BadRow(r: LogRow, boundary: int) {
    r.cached > r.input || !(UsageComplete(r) && InsideBoundary(r, boundary))
  }

  predicate BadRowIn(logs: seq<LogRow>, a: string, boundary: int, since: int, until: int) {
    exists r :: r in logs && InRange(r, a, since, until) && BadRow(r, boundary)
  }

  /** `has_incomplete_metering`: only attempts that completed after the latest accepted sample. */
  predicate IncompleteMetering(logs: seq<LogRow>, a: string, s: Seg, until: int) {
    BadRowIn(logs, a, s.baseline.finishedAt, Max(s.latest.startedAt, s.baseline.finishedAt), until)
  }

  predicate RecentLog(logs: seq<LogRow>, a: string, from_: int) {
    exists r :: r in logs && r.account == Some(a) && r.createdAt >= from_
  }

  predicate Usable(w: Option<Window>) {
    w.Some? && w.value.usedPercent.Some? && 0.0 <= w.value.usedPercent.value <= 100.0
  }

  function SampleOf(r: Response, w: Window): Sample
    requires Usable(Some(w))
  {
    Sample(r.observerStartedAt, r.startedAt, r.finishedAt, w.usedPercent.value, w.resetAt, w.duration, r.plan, r.settled)
  }

  /** One window of one limit: observe it in its segment, or open a segment for it. */
  function ApplyWindow(t: Tables, r: Response, limitId: string, window: string, w: Option<Window>): Tables {
    if !Usable(w) then t
    else
      var k := Key(r.account, limitId, window);
      var sample := SampleOf(r, w.value);
      if k in t.states then
        var s := t.states[k];
        var scan := limitId == CODEX && IncompleteMetering(t.logs, r.account, s, r.startedAt);
        var (live, done) := Observed(s.(meteringIncomplete := s.meteringIncomplete || scan), sample);
        var history := if done.Some? then t.history + [HistoryRow(r.account, done.value)] else t.history;
        t.(states := t.states[k := live.(limitId := limitId)], history := history)
      else
        t.(states := t.states[k := NewSegment(limitId, window, sample, Baseline)])
  }

  function Windows(l: Limit): seq<(string, Option<Window>)> {
    [("primary", l.primary), ("secondary", l.secondary)]
  }

  function ApplyWindows(t: Tables, r: Response, limitId: string, ws: seq<(string, Option<Window>)>): Tables
    decreases |ws|
  {
    if ws == [] then t
    else ApplyWindows(ApplyWindow(t, r, limitId, ws[0].0, ws[0].1), r, limitId, ws[1..])
  }

  function ApplyLimits(t: Tables, r: Response, limits: seq<Limit>): Tables
    decreases |limits|
  {
    if limits == [] then t
    else ApplyLimits(ApplyWindows(t, r, limits[0].limitId, Windows(limits[0])), r, limits[1..])
  }

  /** The ordering guard: the response began no later than the newest recorded one finished. */
  predicate Late(t: Tables, a: string, startedAt: int) {
    var last := LastFinished(t.samples, a);
    last.Some? && Ms(startedAt) <= last.value
  }

  function ResponseOf(t: Tables, q: Quota, startedAt: int, finishedAt: int, idle: bool, observer: int): Response {
    var settled := idle && !RecentLog(t.logs, q.account, startedAt - RECENT_SECONDS * SECOND);
    Response(q.account, q.plan, startedAt, finishedAt, observer, settled)
  }

  /** The transaction up to its deletions. */
  function Ingest(t: Tables, q: Quota, startedAt: int, finishedAt: int, idle: bool, observer: int): Tables {
    var r := ResponseOf(t, q, startedAt, finishedAt, idle, observer);
    var inserted := t.(samples := t.samples + [SampleRow(q.account, Ms(startedAt), Ms(finishedAt))]);
    ApplyLimits(inserted, r, q.limits)
  }

  function Pruned(t: Tables, a: string, finishedAt: int): Tables {
    t.(samples := WithoutOld(t.samples, a, Ms(finishedAt - SAMPLE_DAYS * 86400 * SECOND)),
       history := KeepNewest(t.history, a))
  }

  function Recorded(t: Tables, q: Quota, startedAt: int, finishedAt: int, idle: bool, observer: int): Tables {
    if Late(t, q.account, startedAt) then t
    else Pruned(Ingest(t, q, startedAt, finishedAt, idle, observer), q.account, finishedAt)
  }

  // ---------- The full rescan of a segment ----------

  const U64_MAX: nat := 0xFFFF_FFFF_FFFF_FFFF

  function SaturatingAdd(a: nat, b: nat): nat {
    if a + b <= U64_MAX then a + b else U64_MAX
  }

  function SaturatingSub(a: nat, b: nat): nat {
    if a >= b then a - b else 0
  }

  /** The rows `summarize` reads for a segment, in table order. */
  function Metered(logs: seq<LogRow>, a: string, s: Seg): seq<LogRow> {
    if logs == [] || s.limitId != CODEX then []
    else
      (if InRange(logs[0], a, s.baseline.finishedAt, s.latest.startedAt) then [logs[0]] else [])
      + Metered(logs[1..], a, s)
  }

  datatype Totals = Totals(tokens: Tokens, attempts: nat, complete: nat, boundaryComplete: bool,
                           workload: map<(string, string), nat>)

  function Tier(r: LogRow): string {
    if r.summary.Some? && r.summary.value.serviceTier.Some? then r.summary.value.serviceTier.value else "unknown"
  }

  function AddRow(t: Totals, r: LogRow, boundary: int): Totals {
    var k := (r.model, Tier(r));
    Totals(
      Tokens(SaturatingAdd(t.tokens.uncachedInput, SaturatingSub(r.input, r.cached)),
             SaturatingAdd(t.tokens.cachedInput, r.cached),
             SaturatingAdd(t.tokens.output, r.output)),
      t.attempts + 1,
      t.complete + if UsageComplete(r) && r.cached <= r.input then 1 else 0,
      t.boundaryComplete && InsideBoundary(r, boundary),
      t.workload[k := (if k in t.workload then t.workload[k] else 0) + 1])
  }

  const NO_TOTALS := Totals(Tokens(0, 0, 0), 0, 0, true, map[])

  function AddRows(t: Totals, rows: seq<LogRow>, boundary: int): Totals
    decreases |rows|
  {
    if rows == [] then t else AddRows(AddRow(t, rows[0], boundary), rows[1..], boundary)
  }

  function TotalsOf(logs: seq<LogRow>, a: string, s: Seg): Totals {
    AddRows(NO_TOTALS, Metered(logs, a, s), s.baseline.finishedAt)
  }

  function Summarized(logs: seq<LogRow>, a: string, s: Seg, historical: bool, now: int): Report {
    var t := TotalsOf(logs, a, s);
    MakeReport(s, t.tokens, t.attempts, t.complete, t.boundaryComplete, t.workload, historical, now)
  }

  function UncachedSum(rows: seq<LogRow>): nat {
    if rows == [] then 0
    else (if rows[0].input >= rows[0].cached then rows[0].input - rows[0].cached else 0) + UncachedSum(rows[1..])
  }

  function CachedSum(rows: seq<LogRow>): nat {
    if rows == [] then 0 else rows[0].cached + CachedSum(rows[1..])
  }

  function OutputSum(rows: seq<LogRow>): nat {
    if rows == [] then 0 else rows[0].output + OutputSum(rows[1..])
  }

  /** The row is of the model and of the service tier, which is "unknown" when the row does not say. */
  predicate OfWorkload(r: LogRow, model: string, tier: string) {
    && r.model == model
    && (if r.summary.Some? && r.summary.value.serviceTier.Some? then r.summary.value.serviceTier == Some(tier) else tier == "unknown")
  }

  function WorkloadCount(rows: seq<LogRow>, k: (string, string)): nat {
    if rows == [] then 0 else (if OfWorkload(rows[0], k.0, k.1) then 1 else 0) + WorkloadCount(rows[1..], k)
  }

  /** Each class of token is the true sum, capped at the 64-bit maximum. */
  lemma {:induction false} TokensAreCappedSums(t: Totals, rows: seq<LogRow>, boundary: int)
    requires t.tokens.uncachedInput <= U64_MAX && t.tokens.cachedInput <= U64_MAX && t.tokens.output <= U64_MAX
    ensures var u := AddRows(t, rows, boundary);
            && u.tokens.uncachedInput == SaturatingAdd(t.tokens.uncachedInput, UncachedSum(rows))
            && u.tokens.cachedInput == SaturatingAdd(t.tokens.cachedInput, CachedSum(rows))
            && u.tokens.output == SaturatingAdd(t.tokens.output, OutputSum(rows))
    decreases |rows|
  {
    if rows != [] {
      TokensAreCappedSums(AddRow(t, rows[0], boundary), rows[1..], boundary);
    }
  }

  /** Every row is counted once, and once in its own workload. */
  lemma {:induction false} RowsAreCountedOnce(t: Totals, rows: seq<LogRow>, boundary: int, k: (string, string))
    ensures var u := AddRows(t, rows, boundary);
            && u.attempts == t.attempts + |rows|
            && (if k in u.workload then u.workload[k] else 0)
               == (if k in t.workload then t.workload[k] else 0) + WorkloadCount(rows, k)
    decreases |rows|
  {
    if rows != [] {
      RowsAreCountedOnce(AddRow(t, rows[0], boundary), rows[1..], boundary, k);
    }
  }

  predicate Clean(t: Totals) {
    t.complete == t.attempts && t.boundaryComplete
  }

  /** The two quality checks come out clean exactly when no metered row is bad. */
  lemma {:induction false} CleanMeansNoBadRow(t: Totals, rows: seq<LogRow>, boundary: int)
    requires t.complete <= t.attempts
    ensures var u := AddRows(t, rows, boundary);
            && u.complete <= u.attempts
            && (Clean(u) <==> Clean(t) && forall r :: r in rows ==> !BadRow(r, boundary))
    decreases |rows|
  {
    if rows != [] {
      CleanMeansNoBadRow(AddRow(t, rows[0], boundary), rows[1..], boundary);
      assert Clean(AddRow(t, rows[0], boundary)) <==> Clean(t) && !BadRow(rows[0], boundary);
      assert forall r :: r in rows <==> r == rows[0] || r in rows[1..];
    }
  }

  lemma {:induction false} MeteredRows(logs: seq<LogRow>, a: string, s: Seg, r: LogRow)
    requires s.limitId == CODEX
    ensures r in Metered(logs, a, s) <==> r in logs && InRange(r, a, s.baseline.finishedAt, s.latest.startedAt)
  {
    if logs != [] {
      MeteredRows(logs[1..], a, s, r);
    }
  }

  /** The rescan of a codex segment is clean exactly when no row in its window is bad. */
  lemma {:induction false} RescanMeaning(logs: seq<LogRow>, a: string, s: Seg)
    requires s.limitId == CODEX
    ensures var t := TotalsOf(logs, a, s);
            && t.complete <= t.attempts
            && (t.complete < t.attempts || !t.boundaryComplete
                <==> BadRowIn(logs, a, s.baseline.finishedAt, s.baseline.finishedAt, s.latest.startedAt))
  {
    CleanMeansNoBadRow(NO_TOTALS, Metered(logs, a, s), s.baseline.finishedAt);
    forall r ensures r in Metered(logs, a, s) <==> r in logs && InRange(r, a, s.baseline.finishedAt, s.latest.startedAt) {
      MeteredRows(logs, a, s, r);
    }
  }

  /** Each row of the window is metered as often as it is logged. */
  lemma {:induction false} MeteredAsLogged(logs: seq<LogRow>, a: string, s: Seg, r: LogRow)
    ensures multiset(Metered(logs, a, s))[r]
         == if s.limitId == CODEX && InRange(r, a, s.baseline.finishedAt, s.latest.startedAt) then multiset(logs)[r] else 0
  {
    if logs != [] {
      MeteredAsLogged(logs[1..], a, s, r);
      assert logs == [logs[0]] + logs[1..];
    }
  }

  /** A sum in a 64-bit counter that stops at its maximum. */
  function Capped(n: nat): nat {
    if n < 0x1_0000_0000_0000_0000 then n else 0xFFFF_FFFF_FFFF_FFFF
  }

  /** A report counts the rows of its window, their tokens and their workloads, and the complete ones among them. */
  lemma {:induction false} SummaryMeans(logs: seq<LogRow>, a: string, s: Seg, historical: bool, now: int, k: (string, string))
    ensures var r, rows := Summarized(logs, a, s, historical, now), Metered(logs, a, s);
            && r.attempts == |rows| && r.completeAttempts == CompleteCount(rows)
            && r.tokens == Tokens(Capped(UncachedSum(rows)), Capped(CachedSum(rows)), Capped(OutputSum(rows)))
            && (if k in r.workload then r.workload[k] else 0) == WorkloadCount(rows, k)
  {
    var rows := Metered(logs, a, s);
    TokensAreCappedSums(NO_TOTALS, rows, s.baseline.finishedAt);
    RowsAreCountedOnce(NO_TOTALS, rows, s.baseline.finishedAt, k);
    CompleteRowsCounted(NO_TOTALS, rows, s.baseline.finishedAt);
  }

  function CompleteCount(rows: seq<LogRow>): nat {
    if rows == [] then 0
    else (if UsageComplete(rows[0]) && rows[0].cached <= rows[0].input then 1 else 0) + CompleteCount(rows[1..])
  }

  lemma {:induction false} CompleteRowsCounted(t: Totals, rows: seq<LogRow>, boundary: int)
    ensures AddRows(t, rows, boundary).complete == t.complete + CompleteCount(rows)
    decreases |rows|
  {
    if rows != [] {
      CompleteRowsCounted(AddRow(t, rows[0], boundary), rows[1..], boundary);
    }
  }

  // ---------- What a recorded response leaves ----------

  /** Some sample of the account finished in or after the millisecond in which the response began. */
  predicate Overtaken(t: Tables, a: string, startedAt: int) {
    exists row :: row in t.samples && row.account == a && startedAt / MILLI <= row.finishedMs
  }

  lemma {:induction false} LateMeans(samples: seq<SampleRow>, a: string, ms: int)
    ensures LastFinished(samples, a).Some? && ms <= LastFinished(samples, a).value
       <==> exists row :: row in samples && row.account == a && ms <= row.finishedMs
  {
    if samples != [] {
      LateMeans(samples[1..], a, ms);
      assert forall row :: row in samples <==> row == samples[0] || row in samples[1..];
    }
  }

  lemma {:induction false} KeptSamples(samples: seq<SampleRow>, a: string, before: int, row: SampleRow)
    ensures row in WithoutOld(samples, a, before) <==> row in samples && !(row.account == a && row.finishedMs < before)
  {
    if samples != [] {
      KeptSamples(samples[1..], a, before, row);
    }
  }

  lemma {:induction false} WindowsLeave(t: Tables, r: Response, limits: seq<Limit>)
    ensures ApplyLimits(t, r, limits).samples == t.samples && ApplyLimits(t, r, limits).logs == t.logs
    decreases |limits|
  {
    if limits != [] {
      var l := limits[0];
      var one := ApplyWindow(t, r, l.limitId, "primary", l.primary);
      BothWindows(t, r, l);
      WindowsLeave(ApplyWindow(one, r, l.limitId, "secondary", l.secondary), r, limits[1..]);
    }
  }

  /** The two windows of a limit, the primary one first. */
  lemma {:induction false} BothWindows(t: Tables, r: Response, l: Limit)
    ensures ApplyWindows(t, r, l.limitId, Windows(l))
         == ApplyWindow(ApplyWindow(t, r, l.limitId, "primary", l.primary), r, l.limitId, "secondary", l.secondary)
  {
    var one := ApplyWindow(t, r, l.limitId, "primary", l.primary);
    assert Windows(l)[1..] == [("secondary", l.secondary)];
    assert ApplyWindows(one, r, l.limitId, Windows(l)[1..])
        == ApplyWindows(ApplyWindow(one, r, l.limitId, "secondary", l.secondary), r, l.limitId, []);
  }

  /** A response changes nothing exactly when a sample of its account overtook it; otherwise its own row is added,
      and the rows of its account that finished more than 90 days before it go. */
  lemma {:induction false} RecordedSamples(t: Tables, q: Quota, startedAt: int, finishedAt: int, idle: bool, observer: int, row: SampleRow)
    ensures var u := Recorded(t, q, startedAt, finishedAt, idle, observer);
            if Overtaken(t, q.account, startedAt) then u == t
            else row in u.samples
                 <==> && (row in t.samples || row == SampleRow(q.account, startedAt / MILLI, finishedAt / MILLI))
                      && !(row.account == q.account && row.finishedMs < (finishedAt - 90 * 86400 * SECOND) / MILLI)
  {
    LateMeans(t.samples, q.account, Ms(startedAt));
    var inserted := t.samples + [SampleRow(q.account, Ms(startedAt), Ms(finishedAt))];
    WindowsLeave(t.(samples := inserted), ResponseOf(t, q, startedAt, finishedAt, idle, observer), q.limits);
    KeptSamples(inserted, q.account, Ms(finishedAt - SAMPLE_DAYS * 86400 * SECOND), row);
  }

  /** The two tables have the same segment, or none, under the key. */
  predicate SameAt(t: Tables, u: Tables, k: Key) {
    (k in u.states <==> k in t.states) && (k in t.states ==> u.states[k] == t.states[k])
  }

  lemma {:induction false} OtherLimitsLeave(t: Tables, r: Response, limits: seq<Limit>, k: Key)
    requires forall l :: l in limits ==> l.limitId != k.limitId
    ensures SameAt(t, ApplyLimits(t, r, limits), k)
    decreases |limits|
  {
    if limits != [] {
      var l := limits[0];
      BothWindows(t, r, l);
      OtherLimitsLeave(ApplyWindows(t, r, l.limitId, Windows(l)), r, limits[1..], k);
    }
  }

  /** The sample that the window of a response gives, field by field. */
  predicate ReadFrom(s: Sample, r: Response, w: Window) {
    && s.observerStartedAt == r.observerStartedAt && s.startedAt == r.startedAt && s.finishedAt == r.finishedAt
    && w.usedPercent == Some(s.used) && s.resetAt == w.resetAt && s.duration == w.duration
    && s.plan == r.plan && s.settled == r.settled
  }

  /** A window shows a number from 0 to 100. */
  predicate Shows(w: Option<Window>) {
    w.Some? && w.value.usedPercent.Some? && 0.0 <= w.value.usedPercent.value <= 100.0
  }

  /** What one window of the response makes of the segment under its key. */
  ghost predicate Sampled(t: Tables, u: Tables, r: Response, k: Key, w: Option<Window>) {
    if !Shows(w) then SameAt(t, u, k)
    else
      k in u.states &&
      exists s: Sample :: ReadFrom(s, r, w.value) && SegmentAfter(t, u.states[k], r, k, s)
  }

  /** The observation of the sample by the segment of the key. */
  function Observation(t: Tables, r: Response, k: Key, s: Sample): (Seg, Option<Seg>)
    requires k in t.states
  {
    ApplyInput(t.states[k], Input(k.limitId == "codex" && IncompleteMetering(t.logs, r.account, t.states[k], r.startedAt), s))
  }

  predicate SegmentAfter(t: Tables, live: Seg, r: Response, k: Key, s: Sample) {
    if k !in t.states then live == Seg(k.limitId, k.window, s, s, None, Baseline, false)
    else live == Observation(t, r, k, s).0.(limitId := k.limitId)
  }

  /** A segment that the sample completes is archived, and nothing else is. */
  predicate Archives(t: Tables, u: Tables, r: Response, k: Key, s: Sample) {
    u.history == t.history + if k in t.states && Observation(t, r, k, s).1.Some?
                             then [HistoryRow(r.account, Observation(t, r, k, s).1.value)] else []
  }

  lemma {:induction false} WindowIsRead(t: Tables, r: Response, limitId: string, window: string, w: Option<Window>, k: Key)
    ensures var u := ApplyWindow(t, r, limitId, window, w);
            && u.logs == t.logs
            && (k != Key(r.account, limitId, window) ==> SameAt(t, u, k))
            && (k == Key(r.account, limitId, window) ==> Sampled(t, u, r, k, w))
            && (k == Key(r.account, limitId, window) ==>
                  if Shows(w) then exists s: Sample :: ReadFrom(s, r, w.value) && Archives(t, u, r, k, s) else u == t)
  {
    if Usable(w) && k == Key(r.account, limitId, window) {
      var s := SampleOf(r, w.value);
      assert ReadFrom(s, r, w.value);
      assert SegmentAfter(t, ApplyWindow(t, r, limitId, window, w).states[k], r, k, s);
      assert Archives(t, ApplyWindow(t, r, limitId, window, w), r, k, s);
    }
  }

  lemma {:induction false} LimitIsRead(t: Tables, r: Response, l: Limit, primary: bool)
    ensures var k := Key(r.account, l.limitId, if primary then "primary" else "secondary");
            Sampled(t, ApplyWindows(t, r, l.limitId, Windows(l)), r, k, if primary then l.primary else l.secondary)
  {
    var k := Key(r.account, l.limitId, if primary then "primary" else "secondary");
    var one := ApplyWindow(t, r, l.limitId, "primary", l.primary);
    BothWindows(t, r, l);
    WindowIsRead(t, r, l.limitId, "primary", l.primary, k);
    WindowIsRead(one, r, l.limitId, "secondary", l.secondary, k);
  }

  lemma {:induction false} SampledThenLeft(t: Tables, u: Tables, v: Tables, r: Response, k: Key, w: Option<Window>)
    requires Sampled(t, u, r, k, w) && SameAt(u, v, k)
    ensures Sampled(t, v, r, k, w)
  {
  }

  lemma {:induction false} LeftThenSampled(t: Tables, u: Tables, v: Tables, r: Response, k: Key, w: Option<Window>)
    requires SameAt(t, u, k) && t.logs == u.logs && Sampled(u, v, r, k, w)
    ensures Sampled(t, v, r, k, w)
  {
    if Shows(w) {
      var s: Sample :| ReadFrom(s, r, w.value) && SegmentAfter(u, v.states[k], r, k, s);
      assert SegmentAfter(t, v.states[k], r, k, s);
    }
  }

  lemma {:induction false} LimitsAreRead(t: Tables, r: Response, limits: seq<Limit>, i: nat, primary: bool)
    requires i < |limits| && forall j :: 0 <= j < |limits| && j != i ==> limits[j].limitId != limits[i].limitId
    ensures var k := Key(r.account, limits[i].limitId, if primary then "primary" else "secondary");
            Sampled(t, ApplyLimits(t, r, limits), r, k, if primary then limits[i].primary else limits[i].secondary)
    decreases |limits|
  {
    var l := limits[0];
    var k := Key(r.account, limits[i].limitId, if primary then "primary" else "secondary");
    var one := ApplyWindows(t, r, l.limitId, Windows(l));
    var w := if primary then limits[i].primary else limits[i].secondary;
    if i == 0 {
      LimitIsRead(t, r, l, primary);
      OtherLimitsLeave(one, r, limits[1..], k);
      SampledThenLeft(t, one, ApplyLimits(t, r, limits), r, k, w);
    } else {
      OtherLimitsLeave(t, r, [l], k);
      assert ApplyLimits(one, r, []) == one;
      BothWindows(t, r, l);
      LimitsAreRead(one, r, limits[1..], i - 1, primary);
      LeftThenSampled(t, one, ApplyLimits(t, r, limits), r, k, w);
    }
  }

  /** A response that is not overtaken is read into the segments window by window: the used percentage, reset
      time and length of each window of a limit that it lists once, with its own plan, times and observer; settled
      exactly when the account is idle and logged nothing from 30 seconds before it on.  A window without a
      number from 0 to 100 is passed over. */
  lemma {:induction false} ResponseIsRead(t: Tables, q: Quota, startedAt: int, finishedAt: int, idle: bool, observer: int,
                                          i: nat, primary: bool)
    requires !Overtaken(t, q.account, startedAt)
    requires i < |q.limits| && forall j :: 0 <= j < |q.limits| && j != i ==> q.limits[j].limitId != q.limits[i].limitId
    ensures var l := q.limits[i];
            var settled := idle && !exists row :: row in t.logs && row.account == Some(q.account) && row.createdAt >= startedAt - 30 * SECOND;
            var r := Response(q.account, q.plan, startedAt, finishedAt, observer, settled);
            Sampled(t, Recorded(t, q, startedAt, finishedAt, idle, observer), r,
                    Key(q.account, l.limitId, if primary then "primary" else "secondary"), if primary then l.primary else l.secondary)
  {
    LateMeans(t.samples, q.account, Ms(startedAt));
    var inserted := t.(samples := t.samples + [SampleRow(q.account, Ms(startedAt), Ms(finishedAt))]);
    LimitsAreRead(inserted, ResponseOf(t, q, startedAt, finishedAt, idle, observer), q.limits, i, primary);
  }
}
