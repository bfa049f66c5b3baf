/** Whole runs of the quota observer: recorded responses and completed request logs in any order. */
module QuotaLedger {
  import opened Wrappers
  import opened QuotaCapacity
  import opened QuotaTables

  /** `archived` keeps every completed segment, the ones pruned from `tables.history` included. */
  datatype Ledger = Ledger(tables: Tables, archived: seq<HistoryRow>)

  datatype Op =
    | Record(quota: Quota, startedAt: int, finishedAt: int, idle: bool, observer: int)
    | Log(row: LogRow)

  const EMPTY := Ledger(Tables([], map[], [], []), [])

  /** A response starts before it finishes; a log row completes after every sample its account's
      segments have accepted. */
  ghost predicate Enabled(l: Ledger, op: Op) {
    match op
    case Record(_, startedAt, finishedAt, _, _) => startedAt <= finishedAt
    case Log(row) =>
      forall k :: k in l.tables.states && row.account == Some(k.account) ==>
                    row.createdAt > l.tables.states[k].latest.startedAt
  }

  function Unpruned(l: Ledger): Tables {
    l.tables.(history := l.archived)
  }

  function Step(l: Ledger, op: Op): Ledger {
    match op
    case Log(row) => l.(tables := l.tables.(logs := l.tables.logs + [row]))
    case Record(q, startedAt, finishedAt, idle, observer) =>
      Ledger(Recorded(l.tables, q, startedAt, finishedAt, idle, observer),
             if Late(l.tables, q.account, startedAt) then l.archived
             else Ingest(Unpruned(l), q, startedAt, finishedAt, idle, observer).history)
  }

  // ---------- One segment inside a transaction ----------

  /** The incremental flag against the rows: without it every row of the window is good, with it some
      row completed after the baseline, no later than `bound` while a candidate is pending, is bad. */
  predicate MeteringAgrees(logs: seq<LogRow>, a: string, s: Seg, bound: int) {
    s.limitId == CODEX ==>
      BadRowIn(logs, a, s.baseline.finishedAt, s.baseline.finishedAt,
               if s.meteringIncomplete && s.pending.Some? then bound else s.latest.startedAt)
      == s.meteringIncomplete
  }

  predicate SegOk(logs: seq<LogRow>, k: Key, s: Seg, bound: int) {
    && Sound(s) && OneKind(s)
    && s.limitId == k.limitId && s.window == k.window
    && MeteringAgrees(logs, k.account, s, bound)
  }

  predicate Quiet(s: Seg) {
    s.pending.Some? || !s.meteringIncomplete
  }

  predicate FinishedBy(s: Seg, t: int) {
    s.latest.finishedAt <= t && (s.pending.Some? ==> s.pending.value.finishedAt <= t)
  }

  /** A segment while response `r` is being applied: not yet reached by it, or brought up to it. */
  predicate InFlight(logs: seq<LogRow>, k: Key, s: Seg, r: Response) {
    && SegOk(logs, k, s, r.startedAt)
    && FinishedBy(s, r.finishedAt)
    && (s.latest.finishedAt < r.startedAt || s.latest.startedAt == r.startedAt)
    && (r.settled && s.latest.startedAt == r.startedAt ==> Quiet(s))
  }

  lemma {:induction false} BadRowInWider(logs: seq<LogRow>, a: string, b: int, lo: int, hi: int, lo': int, hi': int)
    requires lo' <= lo && hi <= hi' && BadRowIn(logs, a, b, lo, hi)
    ensures BadRowIn(logs, a, b, lo', hi')
  {
    var r :| r in logs && InRange(r, a, lo, hi) && BadRow(r, b);
    assert InRange(r, a, lo', hi');
  }

  lemma {:induction false} BadRowInSplit(logs: seq<LogRow>, a: string, b: int, lo: int, mid: int, hi: int)
    requires lo <= mid <= hi
    ensures BadRowIn(logs, a, b, lo, hi) <==> BadRowIn(logs, a, b, lo, mid) || BadRowIn(logs, a, b, mid, hi)
  {
    if BadRowIn(logs, a, b, lo, hi) {
      var r :| r in logs && InRange(r, a, lo, hi) && BadRow(r, b);
      assert InRange(r, a, lo, mid) || InRange(r, a, mid, hi);
    }
    if BadRowIn(logs, a, b, lo, mid) {
      BadRowInWider(logs, a, b, lo, mid, lo, hi);
    }
    if BadRowIn(logs, a, b, mid, hi) {
      BadRowInWider(logs, a, b, mid, hi, lo, hi);
    }
  }

  function Scanned(logs: seq<LogRow>, a: string, s: Seg, until: int): Seg {
    s.(meteringIncomplete :=
         s.meteringIncomplete || (s.limitId == CODEX && IncompleteMetering(logs, a, s, until)))
  }

  /** The incremental scan brings the flag up to `until`: it is set exactly when some row between the
      baseline and `until` is bad. */
  lemma {:induction false} ScanReachesUntil(logs: seq<LogRow>, k: Key, s: Seg, until: int)
    requires SegOk(logs, k, s, until) && s.limitId == CODEX && s.latest.finishedAt < until
    ensures Scanned(logs, k.account, s, until).meteringIncomplete
            <==> BadRowIn(logs, k.account, s.baseline.finishedAt, s.baseline.finishedAt, until)
  {
    var b := s.baseline.finishedAt;
    var since := Max(s.latest.startedAt, b);
    if s.meteringIncomplete {
      BadRowInWider(logs, k.account, b, b, if s.pending.Some? then until else s.latest.startedAt, b, until);
    } else {
      BadRowInSplit(logs, k.account, b, b, since, until);
      if since == b {
        assert !BadRowIn(logs, k.account, b, b, b);
      }
    }
  }

  lemma {:induction false} ObservedAgrees(logs: seq<LogRow>, k: Key, s: Seg, r: Response, next: Sample)
    requires InFlight(logs, k, s, r) && WellTimed(next) && next.startedAt == r.startedAt
    ensures MeteringAgrees(logs, k.account, Observed(Scanned(logs, k.account, s, r.startedAt), next).0, r.startedAt)
  {
    var b := s.baseline.finishedAt;
    var live := Observed(Scanned(logs, k.account, s, r.startedAt), next).0;
    if s.limitId == CODEX {
      if s.latest.finishedAt < r.startedAt {
        ScanReachesUntil(logs, k, s, r.startedAt);
        if live.baseline == s.baseline && !live.meteringIncomplete && live.pending.Some?
           && BadRowIn(logs, k.account, b, b, s.latest.startedAt) {
          BadRowInWider(logs, k.account, b, b, s.latest.startedAt, b, r.startedAt);
        }
      } else {
        assert !IncompleteMetering(logs, k.account, s, r.startedAt);
      }
    }
  }

  lemma {:induction false} ObservedInFlight(logs: seq<LogRow>, k: Key, s: Seg, r: Response, next: Sample)
    requires InFlight(logs, k, s, r) && WellTimed(next)
    requires next.startedAt == r.startedAt && next.finishedAt == r.finishedAt && next.settled == r.settled
    ensures var (live, done) := Observed(Scanned(logs, k.account, s, r.startedAt), next);
            && InFlight(logs, k, live, r)
            && (r.settled ==> Quiet(live))
            && (done.None? ==> live.baseline == s.baseline)
            && (done.Some? ==>
                  && live.baseline == next
                  && done.value.baseline == s.baseline
                  && WellTimed(done.value.latest) && OneKind(done.value)
                  && done.value.limitId == k.limitId && done.value.window == k.window
                  && done.value.latest.startedAt <= live.baseline.finishedAt
                  && s.baseline.finishedAt <= live.baseline.finishedAt)
  {
    ObservedAgrees(logs, k, s, r, next);
    var s' := Scanned(logs, k.account, s, r.startedAt);
    assert Sound(s');
    ObservedKeepsSound(s', next);
    ObservedKeepsKind(s', next);
    if Observed(s', next).1.Some? {
      CompletedSegment(s', next);
    }
    if s.latest.finishedAt >= r.startedAt {
      assert !IncompleteMetering(logs, k.account, s, r.startedAt);
    }
  }

  // ---------- One transaction ----------

  function KeyOf(row: HistoryRow): Key {
    Key(row.account, row.segment.limitId, row.segment.window)
  }

  /** Completed segments of one key lie one after another, and before the live one. */
  ghost predicate Chained(h: seq<HistoryRow>, states: map<Key, Seg>) {
    && (forall i, j :: 0 <= i < j < |h| && KeyOf(h[i]) == KeyOf(h[j]) ==>
          h[i].segment.latest.startedAt <= h[j].segment.baseline.finishedAt)
    && (forall i :: 0 <= i < |h| ==>
          && KeyOf(h[i]) in states
          && h[i].segment.latest.startedAt <= states[KeyOf(h[i])].baseline.finishedAt
          && WellTimed(h[i].segment.baseline) && WellTimed(h[i].segment.latest) && OneKind(h[i].segment))
  }

  ghost predicate MidTransaction(t: Tables, r: Response) {
    && r.startedAt <= r.finishedAt
    && Chained(t.history, t.states)
    && forall k :: k in t.states && k.account == r.account ==> InFlight(t.logs, k, t.states[k], r)
  }

  /** What a part of the transaction leaves alone. */
  ghost predicate OnlyAccount(t: Tables, u: Tables, r: Response) {
    && u.logs == t.logs && u.samples == t.samples
    && t.states.Keys <= u.states.Keys
    && (forall k :: k in u.states && k.account != r.account ==> k in t.states && u.states[k] == t.states[k])
    && (forall k :: k in t.states && k.account == r.account && r.settled && Quiet(t.states[k]) ==> Quiet(u.states[k]))
  }

  lemma {:induction false} ChainExtends(h: seq<HistoryRow>, states: map<Key, Seg>, row: HistoryRow, live: Seg)
    requires Chained(h, states) && KeyOf(row) in states
    requires row.segment.baseline == states[KeyOf(row)].baseline
    requires WellTimed(row.segment.baseline) && WellTimed(row.segment.latest) && OneKind(row.segment)
    requires row.segment.latest.startedAt <= live.baseline.finishedAt
    requires states[KeyOf(row)].baseline.finishedAt <= live.baseline.finishedAt
    ensures Chained(h + [row], states[KeyOf(row) := live])
  {
  }

  lemma {:induction false} ObservedWindowKeeps(t: Tables, r: Response, limitId: string, window: string, w: Option<Window>)
    requires MidTransaction(t, r) && Usable(w) && Key(r.account, limitId, window) in t.states
    ensures var u, k := ApplyWindow(t, r, limitId, window, w), Key(r.account, limitId, window);
            MidTransaction(u, r) && OnlyAccount(t, u, r) && (r.settled ==> Quiet(u.states[k]))
  {
    var k := Key(r.account, limitId, window);
    var s, sample := t.states[k], SampleOf(r, w.value);
    ObservedInFlight(t.logs, k, s, r, sample);
    var (live, done) := Observed(Scanned(t.logs, r.account, s, r.startedAt), sample);
    assert live.(limitId := limitId) == live;
    if done.Some? {
      ChainExtends(t.history, t.states, HistoryRow(r.account, done.value), live);
    }
  }

  lemma {:induction false} ApplyWindowKeeps(t: Tables, r: Response, limitId: string, window: string, w: Option<Window>)
    requires MidTransaction(t, r)
    ensures var u := ApplyWindow(t, r, limitId, window, w);
            && MidTransaction(u, r) && OnlyAccount(t, u, r)
            && (Usable(w) && r.settled ==>
                  Key(r.account, limitId, window) in u.states && Quiet(u.states[Key(r.account, limitId, window)]))
  {
    if Usable(w) {
      if Key(r.account, limitId, window) in t.states {
        ObservedWindowKeeps(t, r, limitId, window, w);
      } else {
        var s := NewSegment(limitId, window, SampleOf(r, w.value), Baseline);
        assert !BadRowIn(t.logs, r.account, r.finishedAt, r.finishedAt, r.startedAt);
        assert InFlight(t.logs, Key(r.account, limitId, window), s, r);
      }
    }
  }

  lemma {:induction false} OnlyAccountChains(t: Tables, u: Tables, v: Tables, r: Response)
    requires OnlyAccount(t, u, r) && OnlyAccount(u, v, r)
    ensures OnlyAccount(t, v, r)
  {
  }

  /** The live segments a response gave a usable reading for. */
  predicate Read(q: seq<Limit>, limitId: string, window: string) {
    exists l :: l in q && l.limitId == limitId
                && exists w :: w in Windows(l) && w.0 == window && Usable(w.1)
  }

  predicate ReadIn(ws: seq<(string, Option<Window>)>, window: string) {
    exists w :: w in ws && w.0 == window && Usable(w.1)
  }

  lemma {:induction false} ApplyWindowsKeeps(t: Tables, r: Response, limitId: string, ws: seq<(string, Option<Window>)>)
    requires MidTransaction(t, r)
    ensures var u := ApplyWindows(t, r, limitId, ws);
            && MidTransaction(u, r) && OnlyAccount(t, u, r)
            && forall window :: ReadIn(ws, window) && r.settled ==>
                 Key(r.account, limitId, window) in u.states && Quiet(u.states[Key(r.account, limitId, window)])
    decreases |ws|
  {
    if ws != [] {
      var u := ApplyWindow(t, r, limitId, ws[0].0, ws[0].1);
      ApplyWindowKeeps(t, r, limitId, ws[0].0, ws[0].1);
      ApplyWindowsKeeps(u, r, limitId, ws[1..]);
      OnlyAccountChains(t, u, ApplyWindows(t, r, limitId, ws), r);
      forall window | ReadIn(ws, window)
        ensures ReadIn(ws[1..], window) || (window == ws[0].0 && Usable(ws[0].1))
      {
        var w :| w in ws && w.0 == window && Usable(w.1);
        assert w == ws[0] || w in ws[1..];
      }
    }
  }

  lemma {:induction false} ApplyLimitsKeeps(t: Tables, r: Response, limits: seq<Limit>)
    requires MidTransaction(t, r)
    ensures var u := ApplyLimits(t, r, limits);
            && MidTransaction(u, r) && OnlyAccount(t, u, r)
            && forall limitId, window :: Read(limits, limitId, window) && r.settled ==>
                 Key(r.account, limitId, window) in u.states && Quiet(u.states[Key(r.account, limitId, window)])
    decreases |limits|
  {
    if limits != [] {
      var id := limits[0].limitId;
      var u := ApplyWindows(t, r, id, Windows(limits[0]));
      ApplyWindowsKeeps(t, r, id, Windows(limits[0]));
      ApplyLimitsKeeps(u, r, limits[1..]);
      OnlyAccountChains(t, u, ApplyLimits(t, r, limits), r);
      forall limitId, window | Read(limits, limitId, window)
        ensures Read(limits[1..], limitId, window) || (limitId == id && ReadIn(Windows(limits[0]), window))
      {
        var l :| l in limits && l.limitId == limitId && ReadIn(Windows(l), window);
        assert l == limits[0] || l in limits[1..];
      }
    }
  }

  // ---------- Between transactions ----------

  /** The last instant whose millisecond is `m`. */
  function EndOf(m: int): int {
    (m + 1) * MILLI - 1
  }

  lemma {:induction false} MsOrder(t: int, m: int)
    ensures Ms(t) <= m <==> t <= EndOf(m)
  {
  }

  /** Every live segment agrees with the rows, and finished no later than the newest sample row. */
  ghost predicate KeyAgrees(t: Tables, k: Key) {
    k in t.states ==>
      var last := LastFinished(t.samples, k.account);
      && last.Some?
      && SegOk(t.logs, k, t.states[k], EndOf(last.value))
      && FinishedBy(t.states[k], EndOf(last.value))
  }

  predicate RowsTimed(samples: seq<SampleRow>) {
    forall row :: row in samples ==> row.startedMs <= row.finishedMs
  }

  ghost predicate Inv(l: Ledger) {
    && (forall k :: k in l.tables.states ==> KeyAgrees(l.tables, k))
    && Chained(l.archived, l.tables.states)
    && RowsTimed(l.tables.samples)
  }

  lemma {:induction false} LastFinishedIsMax(samples: seq<SampleRow>, a: string)
    ensures LastFinished(samples, a).Some? ==>
              exists row :: row in samples && row.account == a && row.finishedMs == LastFinished(samples, a).value
    ensures forall row :: row in samples && row.account == a ==>
              LastFinished(samples, a).Some? && row.finishedMs <= LastFinished(samples, a).value
  {
    if samples != [] {
      LastFinishedIsMax(samples[1..], a);
      assert forall row :: row in samples <==> row == samples[0] || row in samples[1..];
    }
  }

  /** After the 90-day deletion the newest row is still there, so the ordering guard forgets nothing:
      for the recorded account it now stands at this response's finish, for the others where it stood. */
  lemma {:induction false} GuardSurvivesPruning(samples: seq<SampleRow>, row: SampleRow, finishedAt: int, b: string)
    requires Ms(finishedAt) == row.finishedMs
    requires LastFinished(samples, row.account).Some? ==> LastFinished(samples, row.account).value < row.finishedMs
    ensures LastFinished(WithoutOld(samples + [row], row.account, Ms(finishedAt - SAMPLE_DAYS * 86400 * SECOND)), b)
            == if b == row.account then Some(row.finishedMs) else LastFinished(samples, b)
  {
    var before := Ms(finishedAt - SAMPLE_DAYS * 86400 * SECOND);
    var kept := WithoutOld(samples + [row], row.account, before);
    forall x ensures x in kept <==> (x in samples || x == row) && !(x.account == row.account && x.finishedMs < before) {
      KeptSamples(samples + [row], row.account, before, x);
    }
    LastFinishedIsMax(samples, b);
    LastFinishedIsMax(kept, b);
    if b == row.account {
      assert row in kept;
    } else if LastFinished(samples, b).Some? {
      var x :| x in samples && x.account == b && x.finishedMs == LastFinished(samples, b).value;
      assert x in kept;
    }
  }

  /** The transaction never looks at the history it appends to. */
  lemma {:induction false} WindowsIgnoreHistory(t: Tables, r: Response, limitId: string,
                                                ws: seq<(string, Option<Window>)>, h: seq<HistoryRow>)
    returns (added: seq<HistoryRow>)
    ensures var u := ApplyWindows(t, r, limitId, ws);
            && u.history == t.history + added
            && ApplyWindows(t.(history := h), r, limitId, ws) == u.(history := h + added)
            && forall row :: row in added ==> row.account == r.account
    decreases |ws|
  {
    if ws == [] {
      added := [];
    } else {
      var u := ApplyWindow(t, r, limitId, ws[0].0, ws[0].1);
      var first := u.history[|t.history|..];
      assert ApplyWindow(t.(history := h), r, limitId, ws[0].0, ws[0].1) == u.(history := h + first);
      var rest := WindowsIgnoreHistory(u, r, limitId, ws[1..], h + first);
      added := first + rest;
      assert h + first + rest == h + added && t.history + first + rest == t.history + added;
    }
  }

  lemma {:induction false} LimitsIgnoreHistory(t: Tables, r: Response, limits: seq<Limit>, h: seq<HistoryRow>)
    returns (added: seq<HistoryRow>)
    ensures var u := ApplyLimits(t, r, limits);
            && u.history == t.history + added
            && ApplyLimits(t.(history := h), r, limits) == u.(history := h + added)
            && forall row :: row in added ==> row.account == r.account
    decreases |limits|
  {
    if limits == [] {
      added := [];
    } else {
      var u := ApplyWindows(t, r, limits[0].limitId, Windows(limits[0]));
      var first := WindowsIgnoreHistory(t, r, limits[0].limitId, Windows(limits[0]), h);
      var rest := LimitsIgnoreHistory(u, r, limits[1..], h + first);
      added := first + rest;
      assert h + first + rest == h + added && t.history + first + rest == t.history + added;
    }
  }

  lemma {:induction false} IngestIgnoresHistory(t: Tables, op: Op, h: seq<HistoryRow>) returns (added: seq<HistoryRow>)
    requires op.Record?
    ensures var u := Ingest(t, op.quota, op.startedAt, op.finishedAt, op.idle, op.observer);
            && u.history == t.history + added
            && Ingest(t.(history := h), op.quota, op.startedAt, op.finishedAt, op.idle, op.observer)
               == u.(history := h + added)
            && forall row :: row in added ==> row.account == op.quota.account
  {
    var r := ResponseOf(t, op.quota, op.startedAt, op.finishedAt, op.idle, op.observer);
    var row := SampleRow(op.quota.account, Ms(op.startedAt), Ms(op.finishedAt));
    added := LimitsIgnoreHistory(t.(samples := t.samples + [row]), r, op.quota.limits, h);
  }

  lemma {:induction false} BoundGrows(logs: seq<LogRow>, k: Key, s: Seg, bound: int, bound': int)
    requires SegOk(logs, k, s, bound) && bound <= bound'
    ensures SegOk(logs, k, s, bound')
  {
    if s.limitId == CODEX && s.meteringIncomplete && s.pending.Some? {
      BadRowInWider(logs, k.account, s.baseline.finishedAt, s.baseline.finishedAt, bound, s.baseline.finishedAt, bound');
    }
  }

  ghost predicate OnTime(l: Ledger, op: Op) {
    op.Record? && op.startedAt <= op.finishedAt && !Late(l.tables, op.quota.account, op.startedAt)
  }

  function ResponseFor(l: Ledger, op: Op): Response
    requires op.Record?
  {
    ResponseOf(l.tables, op.quota, op.startedAt, op.finishedAt, op.idle, op.observer)
  }

  function Inserted(l: Ledger, op: Op): Tables
    requires op.Record?
  {
    Unpruned(l).(samples := l.tables.samples + [SampleRow(op.quota.account, Ms(op.startedAt), Ms(op.finishedAt))])
  }

  /** A response that passes the guard finds every segment of its account finished before it began. */
  lemma {:induction false} TransactionStarts(l: Ledger, op: Op)
    requires Inv(l) && OnTime(l, op)
    ensures MidTransaction(Inserted(l, op), ResponseFor(l, op))
    ensures forall k :: k in l.tables.states && k.account == op.quota.account ==>
              l.tables.states[k].latest.finishedAt < op.startedAt
  {
    var r := ResponseFor(l, op);
    forall k | k in l.tables.states && k.account == r.account
      ensures l.tables.states[k].latest.finishedAt < op.startedAt && InFlight(l.tables.logs, k, l.tables.states[k], r)
    {
      assert KeyAgrees(l.tables, k);
      var m := LastFinished(l.tables.samples, k.account).value;
      MsOrder(op.startedAt, m);
      BoundGrows(l.tables.logs, k, l.tables.states[k], EndOf(m), r.startedAt);
    }
  }

  /** What the transaction leaves, before and after its deletions. */
  lemma {:induction false} TransactionEnds(l: Ledger, op: Op) returns (u: Tables)
    requires Inv(l) && OnTime(l, op)
    ensures u == ApplyLimits(Inserted(l, op), ResponseFor(l, op), op.quota.limits)
    ensures MidTransaction(u, ResponseFor(l, op)) && OnlyAccount(Inserted(l, op), u, ResponseFor(l, op))
    ensures var t := Step(l, op);
            && t.tables.states == u.states && t.tables.logs == l.tables.logs && t.archived == u.history
            && t.tables.samples == WithoutOld(l.tables.samples + [SampleRow(op.quota.account, Ms(op.startedAt), Ms(op.finishedAt))],
                                              op.quota.account, Ms(op.finishedAt - SAMPLE_DAYS * 86400 * SECOND))
    ensures ResponseFor(l, op).settled ==>
              forall limitId, window :: Read(op.quota.limits, limitId, window) ==>
                Key(op.quota.account, limitId, window) in u.states && Quiet(u.states[Key(op.quota.account, limitId, window)])
  {
    TransactionStarts(l, op);
    var r := ResponseFor(l, op);
    u := ApplyLimits(Inserted(l, op), r, op.quota.limits);
    ApplyLimitsKeeps(Inserted(l, op), r, op.quota.limits);
    var added := IngestIgnoresHistory(l.tables, op, l.archived);
  }

  lemma {:induction false} RecordKeeps(l: Ledger, op: Op)
    requires Inv(l) && OnTime(l, op)
    ensures Inv(Step(l, op))
  {
    var u := TransactionEnds(l, op);
    var t := Step(l, op);
    var a := op.quota.account;
    var row := SampleRow(a, Ms(op.startedAt), Ms(op.finishedAt));
    forall k | k in t.tables.states ensures KeyAgrees(t.tables, k) {
      GuardSurvivesPruning(l.tables.samples, row, op.finishedAt, k.account);
      if k.account == a {
        MsOrder(op.finishedAt, row.finishedMs);
        BoundGrows(u.logs, k, u.states[k], op.startedAt, EndOf(row.finishedMs));
      } else {
        assert KeyAgrees(l.tables, k);
      }
    }
    forall x | x in t.tables.samples ensures x.startedMs <= x.finishedMs {
      KeptSamples(l.tables.samples + [row], a, Ms(op.finishedAt - SAMPLE_DAYS * 86400 * SECOND), x);
    }
  }

  lemma {:induction false} LogKeeps(l: Ledger, row: LogRow)
    requires Inv(l) && Enabled(l, Log(row))
    ensures Inv(Step(l, Log(row)))
  {
    var t := Step(l, Log(row));
    forall k | k in t.tables.states ensures KeyAgrees(t.tables, k) {
      assert KeyAgrees(l.tables, k);
      var s := t.tables.states[k];
      var m := LastFinished(l.tables.samples, k.account).value;
      var b := s.baseline.finishedAt;
      var hi := if s.meteringIncomplete && s.pending.Some? then EndOf(m) else s.latest.startedAt;
      if BadRowIn(l.tables.logs, k.account, b, b, hi) {
        var r :| r in l.tables.logs && InRange(r, k.account, b, hi) && BadRow(r, b);
        assert r in t.tables.logs;
      }
    }
  }

  lemma {:induction false} StepKeeps(l: Ledger, op: Op)
    requires Inv(l) && Enabled(l, op)
    ensures Inv(Step(l, op))
  {
    if op.Log? {
      LogKeeps(l, op.row);
    } else if OnTime(l, op) {
      RecordKeeps(l, op);
    }
  }

  // ---------- Whole runs ----------

  ghost predicate Run(l: Ledger, ops: seq<Op>, m: Ledger)
    decreases |ops|
  {
    if ops == [] then m == l else Enabled(l, ops[0]) && Run(Step(l, ops[0]), ops[1..], m)
  }

  ghost predicate Reachable(m: Ledger) {
    exists ops :: Run(EMPTY, ops, m)
  }

  lemma {:induction false} RunKeeps(l: Ledger, ops: seq<Op>, m: Ledger)
    requires Inv(l) && Run(l, ops, m)
    ensures Inv(m)
    decreases |ops|
  {
    if ops != [] {
      StepKeeps(l, ops[0]);
      RunKeeps(Step(l, ops[0]), ops[1..], m);
    }
  }

  lemma {:induction false} ReachableInv(m: Ledger)
    requires Reachable(m)
    ensures Inv(m)
  {
    var ops :| Run(EMPTY, ops, m);
    RunKeeps(EMPTY, ops, m);
  }

  /** The incremental metering check agrees with the full rescan.  Whenever a live codex segment's flag
      is down, the rescan of its window is clean; with no candidate pending the two say the same. */
  lemma {:induction false} IncrementalAgreesWithRescan(m: Ledger, k: Key)
    requires Reachable(m) && k in m.tables.states && k.limitId == CODEX
    ensures var s := m.tables.states[k];
            var rescan := TotalsOf(m.tables.logs, k.account, s);
            && (!s.meteringIncomplete ==> rescan.complete == rescan.attempts && rescan.boundaryComplete)
            && (s.pending.None? ==>
                  (s.meteringIncomplete <==> rescan.complete < rescan.attempts || !rescan.boundaryComplete))
  {
    ReachableInv(m);
    assert KeyAgrees(m.tables, k);
    RescanMeaning(m.tables.logs, k.account, m.tables.states[k]);
  }

  /** Right after a settled response is recorded, no window it read is reported as incomplete. */
  lemma {:induction false} SettledSampleNeverIncomplete(m: Ledger, op: Op, limitId: string, window: string, now: int)
    requires Reachable(m) && OnTime(m, op) && ResponseFor(m, op).settled
    requires Read(op.quota.limits, limitId, window)
    ensures var k := Key(op.quota.account, limitId, window);
            var t := Step(m, op).tables;
            && k in t.states
            && Summarized(t.logs, k.account, t.states[k], false, now).status != Incomplete
  {
    ReachableInv(m);
    var u := TransactionEnds(m, op);
    var k := Key(op.quota.account, limitId, window);
    StepKeeps(m, op);
    var t := Step(m, op).tables;
    assert KeyAgrees(t, k);
    if t.states[k].limitId == CODEX {
      RescanMeaning(t.logs, k.account, t.states[k]);
    }
  }

  /** A response that began before some live segment of its account last finished changes nothing at
      all; one that is recorded finds them all finished. */
  lemma {:induction false} LateResponsesChangeNothing(m: Ledger, op: Op, k: Key)
    requires Reachable(m) && Enabled(m, op) && op.Record?
    requires k in m.tables.states && k.account == op.quota.account
    requires op.startedAt <= m.tables.states[k].latest.finishedAt
    ensures Step(m, op) == m
  {
    ReachableInv(m);
    if OnTime(m, op) {
      TransactionStarts(m, op);
    }
  }

  /** The primary key of the sample table is never violated. */
  lemma {:induction false} SampleInsertNeverCollides(m: Ledger, op: Op)
    requires Reachable(m) && OnTime(m, op)
    ensures forall row :: row in m.tables.samples && row.account == op.quota.account ==>
              row.startedMs != Ms(op.startedAt)
  {
    ReachableInv(m);
    LastFinishedIsMax(m.tables.samples, op.quota.account);
  }

  predicate Counts(s: Seg, t: int) {
    s.baseline.finishedAt < t <= s.latest.startedAt
  }

  /** No double counting: over the whole run, of all segments ever completed for an account, limit and
      window, and the live one, at most one counts a given instant. */
  lemma {:induction false} NoDoubleCounting(m: Ledger, t: int, i: nat)
    requires Reachable(m) && i < |m.archived| && Counts(m.archived[i].segment, t)
    ensures forall j :: 0 <= j < |m.archived| && j != i && KeyOf(m.archived[j]) == KeyOf(m.archived[i]) ==>
              !Counts(m.archived[j].segment, t)
    ensures KeyOf(m.archived[i]) in m.tables.states
            && !Counts(m.tables.states[KeyOf(m.archived[i])], t)
  {
    ReachableInv(m);
  }

  /** Over the whole run every segment, live or completed, was measured by one observer on one plan and one
      length of the window, from its baseline to its latest sample; so no estimate spans a change of plan. */
  lemma {:induction false} SegmentsAreOfOneKind(m: Ledger)
    requires Reachable(m)
    ensures forall k :: k in m.tables.states ==> SameKind(m.tables.states[k].baseline, m.tables.states[k].latest)
    ensures forall row :: row in m.archived ==> SameKind(row.segment.baseline, row.segment.latest)
  {
    ReachableInv(m);
    forall k | k in m.tables.states ensures SameKind(m.tables.states[k].baseline, m.tables.states[k].latest) {
      assert KeyAgrees(m.tables, k);
    }
  }

  /** Every reachable report that carries an estimate, live or historical, is a bounded extrapolation. */
  lemma {:induction false} ReachableEstimates(m: Ledger, k: Key, i: nat, historical: bool, now: int)
    requires Reachable(m)
    requires if historical then i < |m.archived| else k in m.tables.states
    ensures var s := if historical then m.archived[i].segment else m.tables.states[k];
            var a := if historical then m.archived[i].account else k.account;
            var r := Summarized(m.tables.logs, a, s, historical, now);
            && (!historical && s.latest.settled ==> s.baseline.settled)
            && (r.estimate.Some? ==>
                  && MIN_ESTIMATE_POINTS <= r.consumedPoints <= 100.0
                  && r.completeAttempts == r.attempts > 0
                  && r.tokens.uncachedInput as real <= r.estimate.value.uncachedInput <= 10.0 * r.tokens.uncachedInput as real
                  && r.tokens.cachedInput as real <= r.estimate.value.cachedInput <= 10.0 * r.tokens.cachedInput as real
                  && r.tokens.output as real <= r.estimate.value.output <= 10.0 * r.tokens.output as real)
  {
    ReachableInv(m);
    if !historical {
      assert KeyAgrees(m.tables, k);
    }
    var s := if historical then m.archived[i].segment else m.tables.states[k];
    var a := if historical then m.archived[i].account else k.account;
    var t := TotalsOf(m.tables.logs, a, s);
    CleanMeansNoBadRow(NO_TOTALS, Metered(m.tables.logs, a, s), s.baseline.finishedAt);
    EstimateBounds(s, t.tokens, t.attempts, t.complete, t.boundaryComplete, t.workload, historical, now);
  }

  // ---------- The pruned history ----------

  function Newest(rows: seq<HistoryRow>): seq<HistoryRow> {
    if |rows| <= 40 then rows else rows[|rows| - 40..]
  }

  lemma {:induction false} RowsOfConcat(g: seq<HistoryRow>, h: seq<HistoryRow>, a: string)
    ensures RowsOf(g + h, a) == RowsOf(g, a) + RowsOf(h, a)
  {
    if g == [] {
      assert g + h == h;
    } else {
      RowsOfConcat(g[1..], h, a);
      assert (g + h)[0] == g[0] && (g + h)[1..] == g[1..] + h;
      var first := if g[0].account == a then [g[0]] else [];
      JoinedAgain(first, RowsOf(g[1..], a), RowsOf(h, a));
    }
  }

  lemma {:induction false} JoinedAgain(p: seq<HistoryRow>, q: seq<HistoryRow>, r: seq<HistoryRow>)
    ensures p + (q + r) == p + q + r
  {
  }

  lemma {:induction false} KeepNewestRows(h: seq<HistoryRow>, a: string, b: string)
    ensures RowsOf(KeepNewest(h, a), b) == if a == b then Newest(RowsOf(h, a)) else RowsOf(h, b)
  {
    if h != [] {
      KeepNewestRows(h[1..], a, b);
    }
  }

  lemma {:induction false} OtherAccountsAddNothing(rows: seq<HistoryRow>, a: string)
    requires forall row :: row in rows ==> row.account != a
    ensures RowsOf(rows, a) == []
  {
    if rows != [] {
      OtherAccountsAddNothing(rows[1..], a);
    }
  }

  lemma {:induction false} NewestOfAppended(rows: seq<HistoryRow>, added: seq<HistoryRow>)
    ensures Newest(Newest(rows) + added) == Newest(rows + added)
  {
  }

  /** One step keeps this: the stored history of each account is its 40 newest completed segments. */
  lemma {:induction false} StepKeepsNewest(l: Ledger, op: Op, a: string)
    requires RowsOf(l.tables.history, a) == Newest(RowsOf(l.archived, a))
    ensures RowsOf(Step(l, op).tables.history, a) == Newest(RowsOf(Step(l, op).archived, a))
  {
    if op.Record? && !Late(l.tables, op.quota.account, op.startedAt) {
      var added := IngestIgnoresHistory(l.tables, op, l.archived);
      RowsOfConcat(l.tables.history, added, a);
      RowsOfConcat(l.archived, added, a);
      KeepNewestRows(l.tables.history + added, op.quota.account, a);
      NewestOfAppended(RowsOf(l.archived, a), RowsOf(added, a));
      if a != op.quota.account {
        OtherAccountsAddNothing(added, a);
        assert RowsOf(l.archived, a) + [] == RowsOf(l.archived, a);
        assert RowsOf(l.tables.history, a) + [] == RowsOf(l.tables.history, a);
      }
    }
  }

  lemma {:induction false} RunKeepsNewest(l: Ledger, ops: seq<Op>, m: Ledger, a: string)
    requires Run(l, ops, m) && RowsOf(l.tables.history, a) == Newest(RowsOf(l.archived, a))
    ensures RowsOf(m.tables.history, a) == Newest(RowsOf(m.archived, a))
    decreases |ops|
  {
    if ops != [] {
      StepKeepsNewest(l, ops[0], a);
      RunKeepsNewest(Step(l, ops[0]), ops[1..], m, a);
    }
  }

  /** What is stored of an account's history is exactly the 40 newest segments it ever completed. */
  lemma {:induction false} HistoryIsNewest(m: Ledger, a: string)
    requires Reachable(m)
    ensures RowsOf(m.tables.history, a) == Newest(RowsOf(m.archived, a))
  {
    var ops :| Run(EMPTY, ops, m);
    RunKeepsNewest(EMPTY, ops, m, a);
  }
}
