/** The quota transaction and the segment rescan, run step by step over mutable tables. */
module QuotaCapacityDb {
  import opened Wrappers
  import opened QuotaCapacity
  import opened QuotaTables

  class CapacityDb {
    var samples: seq<SampleRow>
    var states: map<Key, Seg>
    var history: seq<HistoryRow>
    var logs: seq<LogRow>

    function State(): Tables
      reads this
    {
      Tables(samples, states, history, logs)
    }

    /** Scans the rows completed since the latest accepted sample, stopping at the first bad one. */
    method HasIncompleteMetering(a: string, s: Seg, until: int) returns (found: bool)
      ensures found == IncompleteMetering(logs, a, s, until)
    {
      var since := Max(s.latest.startedAt, s.baseline.finishedAt);
      var i := 0;
      while i < |logs|
        invariant 0 <= i <= |logs|
        invariant forall j :: 0 <= j < i ==>
                    !(InRange(logs[j], a, since, until) && BadRow(logs[j], s.baseline.finishedAt))
      {
        if InRange(logs[i], a, since, until) && BadRow(logs[i], s.baseline.finishedAt) {
          return true;
        }
        i := i + 1;
      }
      found := false;
    }

    method ObserveWindow(r: Response, limitId: string, window: string, w: Option<Window>)
      modifies `states, `history
      ensures State() == ApplyWindow(old(State()), r, limitId, window, w)
    {
      if !Usable(w) {
        return;
      }
      var sample := SampleOf(r, w.value);
      var k := Key(r.account, limitId, window);
      if k in states {
        var previous := new Segment.Decode(states[k]);
        if limitId == CODEX {
          var gap := HasIncompleteMetering(r.account, states[k], r.startedAt);
          previous.meteringIncomplete := previous.meteringIncomplete || gap;
        }
        var archived := previous.Observe(sample);
        if archived.Some? {
          history := history + [HistoryRow(r.account, archived.value)];
        }
        previous.limitId := limitId;
        states := states[k := previous.Value()];
      } else {
        states := states[k := NewSegment(limitId, window, sample, Baseline)];
      }
    }

    method RecordCapacitySample(q: Quota, startedAt: int, finishedAt: int, idle: bool, observer: int)
      modifies `samples, `states, `history
      ensures State() == Recorded(old(State()), q, startedAt, finishedAt, idle, observer)
    {
      var last := LastFinished(samples, q.account);
      if last.Some? && Ms(startedAt) <= last.value {
        return;
      }
      var recent := RecentLog(logs, q.account, startedAt - RECENT_SECONDS * SECOND);
      var r := Response(q.account, q.plan, startedAt, finishedAt, observer, idle && !recent);
      samples := samples + [SampleRow(q.account, Ms(startedAt), Ms(finishedAt))];
      ghost var inserted := State();
      var i := 0;
      while i < |q.limits|
        invariant 0 <= i <= |q.limits|
        invariant logs == old(logs)
        invariant ApplyLimits(State(), r, q.limits[i..]) == ApplyLimits(inserted, r, q.limits)
      {
        var limit := q.limits[i];
        var windows := Windows(limit);
        ghost var target := ApplyWindows(State(), r, limit.limitId, windows);
        var j := 0;
        while j < |windows|
          invariant 0 <= j <= |windows|
          invariant logs == old(logs)
          invariant ApplyWindows(State(), r, limit.limitId, windows[j..]) == target
        {
          ObserveWindow(r, limit.limitId, windows[j].0, windows[j].1);
          j := j + 1;
        }
        i := i + 1;
      }
      samples := WithoutOld(samples, q.account, Ms(finishedAt - SAMPLE_DAYS * 86400 * SECOND));
      history := KeepNewest(history, q.account);
    }

    /** The rescan: accumulates tokens, counters and workloads over the rows of the segment's window. */
    method Summarize(a: string, s: Seg, historical: bool, now: int) returns (report: Report)
      ensures report == Summarized(logs, a, s, historical, now)
    {
      var t := NO_TOTALS;
      if s.limitId == CODEX {
        var i := 0;
        while i < |logs|
          invariant 0 <= i <= |logs|
          invariant AddRows(t, Metered(logs[i..], a, s), s.baseline.finishedAt) == TotalsOf(logs, a, s)
        {
          var r := logs[i];
          ghost var rest := Metered(logs[i + 1..], a, s);
          assert logs[i..][1..] == logs[i + 1..];
          assert [] + rest == rest && ([r] + rest)[1..] == rest;
          if InRange(r, a, s.baseline.finishedAt, s.latest.startedAt) {
            t := AddRow(t, r, s.baseline.finishedAt);
          }
          i := i + 1;
        }
      }
      report := MakeReport(s, t.tokens, t.attempts, t.complete, t.boundaryComplete, t.workload, historical, now);
    }
  }
}
