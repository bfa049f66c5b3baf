/** Observation segments of an account's quota window.  Instants are integer nanoseconds,
    percentages are exact reals. */
module QuotaCapacity {
  import opened Wrappers

  const SECOND: int := 1_000_000_000
  const MAX_GAP_SECONDS: int := 300
  const RESET_TOLERANCE_SECONDS: int := 120
  const RECOVERY_POINTS: real := 1.0
  const MIN_ESTIMATE_POINTS: real := 10.0
  const SETTLE_SECONDS: int := 30

  datatype Sample = Sample(
    observerStartedAt: int,
    startedAt: int,
    finishedAt: int,
    used: real,
    resetAt: Option<int>,
    duration: Option<int>,
    plan: Option<string>,
    settled: bool)

  datatype Event =
    | Baseline
    | ObserverRestart
    | SamplingGap
    | PlanChanged
    | PeriodReset
    | BoundaryChanged
    | QuotaRecovery
    | QuotaCorrection
    | MeteringGap
    | SettledBaseline

  datatype Seg = Seg(
    limitId: string,
    window: string,
    baseline: Sample,
    latest: Sample,
    pending: Option<Sample>,
    event: Event,
    meteringIncomplete: bool)

  /** `Duration::num_seconds`: whole seconds, truncated toward zero. */
  function NumSeconds(d: int): int {
    if d >= 0 then d / SECOND else -((-d) / SECOND)
  }

  function Abs(n: int): nat {
    if n >= 0 then n else -n
  }

  function NewSegment(limitId: string, window: string, sample: Sample, event: Event): Seg {
    Seg(limitId, window, sample, sample, None, event, false)
  }

  predicate PeriodWasReset(latest: Sample, next: Sample) {
    && latest.resetAt.Some? && next.resetAt.Some?
    && next.startedAt >= latest.resetAt.value
    && NumSeconds(next.resetAt.value - latest.resetAt.value) > RESET_TOLERANCE_SECONDS
  }

  predicate UnknownBoundary(latest: Sample, next: Sample) {
    match (latest.resetAt, next.resetAt)
    case (Some(old_), Some(new_)) =>
      Abs(NumSeconds(new_ - old_)) > RESET_TOLERANCE_SECONDS && !PeriodWasReset(latest, next)
    case (None, None) => false
    case _ => true
  }

  /** The event, if any, that makes `next` the start of a new observation. */
  function BoundaryEvent(latest: Sample, next: Sample): Option<Event> {
    if next.observerStartedAt != latest.observerStartedAt then Some(ObserverRestart)
    else if NumSeconds(next.startedAt - latest.finishedAt) > MAX_GAP_SECONDS then Some(SamplingGap)
    else if next.plan != latest.plan || next.duration != latest.duration then Some(PlanChanged)
    else if PeriodWasReset(latest, next) then Some(PeriodReset)
    else if UnknownBoundary(latest, next) then Some(BoundaryChanged)
    else None
  }

  function Restarted(s: Seg, next: Sample, event: Event): (Seg, Option<Seg>) {
    (NewSegment(s.limitId, s.window, next, event), Some(s))
  }

  function Accept(s: Seg, next: Sample): (Seg, Option<Seg>) {
    if s.meteringIncomplete && next.settled then Restarted(s.(latest := next), next, MeteringGap)
    else if !s.baseline.settled && next.settled then Restarted(s, next, SettledBaseline)
    else (s.(latest := next), None)
  }

  /** One observation: the live segment afterwards and the segment it completed, if any. */
  function Observed(s: Seg, next: Sample): (Seg, Option<Seg>) {
    var drop := s.latest.used - next.used;
    var boundary := BoundaryEvent(s.latest, next);
    if next.startedAt <= s.latest.finishedAt then (s, None)
    else if boundary.Some? then Restarted(s, next, boundary.value)
    else if s.pending.Some? then
      if next.startedAt - s.pending.value.finishedAt < SETTLE_SECONDS * SECOND then (s, None)
      else if drop >= RECOVERY_POINTS then Restarted(s.(pending := None), next, QuotaRecovery)
      else Accept(s.(pending := None), next)
    else if drop >= RECOVERY_POINTS then (s.(pending := Some(next)), None)
    else if drop > 0.0 then Restarted(s, next, QuotaCorrection)
    else Accept(s, next)
  }

  class Segment {
    var limitId: string
    var window: string
    var baseline: Sample
    var latest: Sample
    var pending: Option<Sample>
    var event: Event
    var meteringIncomplete: bool

    constructor (limitId: string, window: string, sample: Sample, event: Event)
      ensures Value() == NewSegment(limitId, window, sample, event)
    {
      this.limitId, this.window, baseline, latest := limitId, window, sample, sample;
      pending, this.event, meteringIncomplete := None, event, false;
    }

    constructor Decode(value: Seg)
      ensures Value() == value
    {
      limitId, window, baseline, latest := value.limitId, value.window, value.baseline, value.latest;
      pending, event, meteringIncomplete := value.pending, value.event, value.meteringIncomplete;
    }

    function Value(): Seg
      reads this
    {
      Seg(limitId, window, baseline, latest, pending, event, meteringIncomplete)
    }

    method Restart(next: Sample, event: Event) returns (completed: Seg)
      modifies this
      ensures (Value(), Some(completed)) == Restarted(old(Value()), next, event)
    {
      completed := Value();
      baseline, latest, pending := next, next, None;
      this.event, meteringIncomplete := event, false;
    }

    method Observe(next: Sample) returns (archived: Option<Seg>)
      modifies this
      ensures (Value(), archived) == Observed(old(Value()), next)
    {
      if next.startedAt <= latest.finishedAt {
        return None;
      }
      var gap := NumSeconds(next.startedAt - latest.finishedAt) > MAX_GAP_SECONDS;
      var changedPlan := next.plan != latest.plan || next.duration != latest.duration;
      var reset := PeriodWasReset(latest, next);
      var unknownBoundary := UnknownBoundary(latest, next);
      var boundary :=
        if next.observerStartedAt != latest.observerStartedAt then Some(ObserverRestart)
        else if gap then Some(SamplingGap)
        else if changedPlan then Some(PlanChanged)
        else if reset then Some(PeriodReset)
        else if unknownBoundary then Some(BoundaryChanged)
        else None;
      if boundary.Some? {
        var completed := Restart(next, boundary.value);
        return Some(completed);
      }
      if pending.Some? {
        var candidate := pending.value;
        if next.startedAt - candidate.finishedAt < SETTLE_SECONDS * SECOND {
          return None;
        }
        pending := None;
        if latest.used - next.used >= RECOVERY_POINTS {
          var completed := Restart(next, QuotaRecovery);
          return Some(completed);
        }
      } else if latest.used - next.used >= RECOVERY_POINTS {
        pending := Some(next);
        return None;
      } else if next.used < latest.used {
        var completed := Restart(next, QuotaCorrection);
        return Some(completed);
      }
      if meteringIncomplete && next.settled {
        latest := next;
        var completed := Restart(next, MeteringGap);
        return Some(completed);
      }
      if !baseline.settled && next.settled {
        var completed := Restart(next, SettledBaseline);
        return Some(completed);
      }
      latest := next;
      archived := None;
    }
  }

  // ---------- What every observation keeps ----------

  predicate WellTimed(s: Sample) {
    s.startedAt <= s.finishedAt && 0.0 <= s.used <= 100.0
  }

  predicate WindowOrdered(s: Seg) {
    s.baseline == s.latest || s.baseline.finishedAt < s.latest.startedAt
  }

  /** A recovery candidate lies at least a point below the frozen latest sample and after it. */
  predicate PendingBelow(s: Seg) {
    s.pending.Some? ==>
      && WellTimed(s.pending.value)
      && s.pending.value.startedAt > s.latest.finishedAt
      && s.latest.used - s.pending.value.used >= RECOVERY_POINTS
  }

  predicate Sound(s: Seg) {
    && WellTimed(s.baseline) && WellTimed(s.latest)
    && WindowOrdered(s)
    && (s.latest.settled ==> s.baseline.settled)
    && PendingBelow(s)
  }

  lemma {:induction false} ObservedKeepsSound(s: Seg, next: Sample)
    requires Sound(s) && WellTimed(next)
    ensures Sound(Observed(s, next).0)
    ensures Observed(s, next).0.limitId == s.limitId && Observed(s, next).0.window == s.window
  {
    var live := Observed(s, next).0;
    if live != s && live != s.(pending := Some(next)) {
      if s.pending.Some? {
        AcceptKeepsSound(s.(pending := None), next);
      } else {
        AcceptKeepsSound(s, next);
      }
    }
  }

  lemma {:induction false} AcceptKeepsSound(s: Seg, next: Sample)
    requires Sound(s) && WellTimed(next) && s.pending.None?
    ensures s.latest.finishedAt < next.startedAt ==> Sound(Accept(s, next).0)
  {
  }

  /** What a completed segment looks like: only a metering gap moves its end, and the segment that
      follows it starts, empty, at the observation that completed it. */
  lemma {:induction false} CompletedSegment(s: Seg, next: Sample)
    requires Sound(s) && WellTimed(next) && Observed(s, next).1.Some?
    ensures var (live, done) := Observed(s, next);
            && live == NewSegment(s.limitId, s.window, next, live.event)
            && done.value.baseline == s.baseline
            && done.value.latest == (if live.event == MeteringGap then next else s.latest)
            && done.value.meteringIncomplete == s.meteringIncomplete
            && s.latest.finishedAt < next.startedAt
            && WindowOrdered(done.value)
  {
  }

  /** The observation completes the segment and the next one starts with this event. */
  predicate Ends(s: Seg, next: Sample, event: Event) {
    Observed(s, next).1.Some? && Observed(s, next).0.event == event
  }

  /** Nothing about the observation itself changed: one observer, no gap above 300 whole seconds, the same
      plan and length of the window. */
  predicate SameConditions(latest: Sample, next: Sample) {
    && next.observerStartedAt == latest.observerStartedAt
    && next.startedAt - latest.finishedAt < 301 * SECOND
    && next.plan == latest.plan && next.duration == latest.duration
  }

  /** Both reset times are known and the new one is later by more than 120 whole seconds, and the old one has passed. */
  predicate ResetPassed(latest: Sample, next: Sample) {
    && latest.resetAt.Some? && next.resetAt.Some?
    && latest.resetAt.value <= next.startedAt && next.resetAt.value - latest.resetAt.value >= 121 * SECOND
  }

  /** The reset time stays where it was, within 120 whole seconds, or unknown. */
  predicate SameReset(latest: Sample, next: Sample) {
    || (latest.resetAt.None? && next.resetAt.None?)
    || (latest.resetAt.Some? && next.resetAt.Some?
        && -121 * SECOND < next.resetAt.value - latest.resetAt.value < 121 * SECOND)
  }

  /** Which changes end a segment, each of the five exactly when it is the first of its kind to hold. */
  lemma {:induction false} BoundariesExactly(s: Seg, next: Sample)
    requires next.startedAt > s.latest.finishedAt
    ensures var l := s.latest;
            && (Ends(s, next, ObserverRestart) <==> next.observerStartedAt != l.observerStartedAt)
            && (Ends(s, next, SamplingGap) <==>
                  next.observerStartedAt == l.observerStartedAt && next.startedAt - l.finishedAt >= 301 * SECOND)
            && (Ends(s, next, PlanChanged) <==>
                  && next.observerStartedAt == l.observerStartedAt && next.startedAt - l.finishedAt < 301 * SECOND
                  && (next.plan != l.plan || next.duration != l.duration))
            && (Ends(s, next, PeriodReset) <==> SameConditions(l, next) && ResetPassed(l, next))
            && (Ends(s, next, BoundaryChanged) <==> SameConditions(l, next) && !ResetPassed(l, next) && !SameReset(l, next))
  {
  }

  /** What one observation within the old conditions does, by the usage and the candidate: exactly when it
      is ignored, becomes the candidate, ends the segment, or is accepted. */
  lemma {:induction false} ObservationExactly(s: Seg, next: Sample)
    ensures var (live, done) := Observed(s, next);
            var steady := SameConditions(s.latest, next) && SameReset(s.latest, next);
            var drop := s.latest.used - next.used;
            var settled := s.pending.Some? && next.startedAt - s.pending.value.finishedAt >= 30 * SECOND;
            var close := if s.pending.Some? then settled && drop < 1.0 else drop <= 0.0;
            && (next.startedAt <= s.latest.finishedAt ==> (live, done) == (s, None))
            && (next.startedAt > s.latest.finishedAt ==>
                  && (steady && s.pending.Some? && !settled ==> (live, done) == (s, None))
                  && (steady && s.pending.None? && drop >= 1.0 ==> (live, done) == (s.(pending := Some(next)), None))
                  && (Ends(s, next, QuotaRecovery) <==> steady && settled && drop >= 1.0)
                  && (Ends(s, next, QuotaCorrection) <==> steady && s.pending.None? && 0.0 < drop < 1.0)
                  && (Ends(s, next, MeteringGap) <==> steady && close && s.meteringIncomplete && next.settled)
                  && (Ends(s, next, SettledBaseline) <==>
                        steady && close && !s.meteringIncomplete && !s.baseline.settled && next.settled)
                  && (steady && close && !(next.settled && (s.meteringIncomplete || !s.baseline.settled)) ==>
                        (live, done) == (s.(latest := next, pending := None), None)))
  {
  }

  predicate SameKind(x: Sample, y: Sample) {
    x.observerStartedAt == y.observerStartedAt && x.plan == y.plan && x.duration == y.duration
  }

  /** One observer, plan and length of the window all through the segment. */
  predicate OneKind(s: Seg) {
    SameKind(s.baseline, s.latest)
  }

  lemma {:induction false} ObservedKeepsKind(s: Seg, next: Sample)
    requires OneKind(s)
    ensures OneKind(Observed(s, next).0)
    ensures Observed(s, next).1.Some? ==> OneKind(Observed(s, next).1.value)
  {
  }

  /** An accepted sample that starts no new segment lowers usage by less than a point, and lowers it
      at all only when it resolves a candidate as transient. */
  lemma {:induction false} AcceptedDropIsSmall(s: Seg, next: Sample)
    requires var (live, done) := Observed(s, next);
             done.None? && live.latest != s.latest
    ensures Observed(s, next).0.latest == next && Observed(s, next).0.baseline == s.baseline
    ensures s.latest.used - next.used < 1.0
    ensures next.used < s.latest.used ==> s.pending.Some?
  {
  }

  /** The sample is accepted into the live segment. */
  predicate Accepted(s: Seg, next: Sample) {
    WellTimed(next) && Observed(s, next).1.None? && Observed(s, next).0.latest == next && next != s.latest
  }

  /** The first instant at which the pending candidate may be resolved comes before the sampling gap. */
  predicate CandidateCanSettle(s: Seg) {
    s.pending.Some? && NumSeconds(s.pending.value.finishedAt + SETTLE_SECONDS * SECOND - s.latest.finishedAt) <= MAX_GAP_SECONDS
  }

  /** A sample of lower usage can be accepted exactly while a candidate is pending that can settle
      before the sampling gap; so usage inside a segment is not monotone. */
  lemma {:induction false} UsageFallsExactly(s: Seg)
    requires Sound(s)
    ensures (exists next: Sample :: Accepted(s, next) && next.used < s.latest.used) <==> CandidateCanSettle(s)
  {
    if CandidateCanSettle(s) {
      SettlingSample(s, s.latest.used - 0.5);
    }
    forall next: Sample | Accepted(s, next) && next.used < s.latest.used ensures CandidateCanSettle(s) {
      AcceptedLowerSettles(s, next);
    }
  }

  /** It can even fall below the baseline, exactly when besides that the latest sample lies less than a
      point above the baseline. */
  lemma {:induction false} UsageFallsBelowBaselineExactly(s: Seg)
    requires Sound(s)
    ensures (exists next: Sample :: Accepted(s, next) && next.used < s.latest.used && next.used < s.baseline.used)
            <==> CandidateCanSettle(s) && s.latest.used - s.baseline.used < RECOVERY_POINTS
  {
    if CandidateCanSettle(s) && s.latest.used - s.baseline.used < RECOVERY_POINTS {
      var low := if s.baseline.used < s.latest.used then s.baseline.used else s.latest.used;
      SettlingSample(s, (s.latest.used - 1.0 + low) / 2.0);
    }
    forall next: Sample | Accepted(s, next) && next.used < s.latest.used && next.used < s.baseline.used
      ensures CandidateCanSettle(s) && s.latest.used - s.baseline.used < RECOVERY_POINTS
    {
      AcceptedLowerSettles(s, next);
      AcceptedDropIsSmall(s, next);
    }
  }

  lemma {:induction false} AcceptedLowerSettles(s: Seg, next: Sample)
    requires Sound(s) && Accepted(s, next) && next.used < s.latest.used
    ensures CandidateCanSettle(s)
  {
    AcceptedDropIsSmall(s, next);
    assert next.startedAt - s.latest.finishedAt >= s.pending.value.finishedAt + SETTLE_SECONDS * SECOND - s.latest.finishedAt;
  }

  lemma {:induction false} SettlingSample(s: Seg, used: real)
    requires Sound(s) && CandidateCanSettle(s)
    requires s.latest.used - RECOVERY_POINTS < used < s.latest.used
    ensures exists next: Sample :: Accepted(s, next) && next.used == used
  {
    var at := s.pending.value.finishedAt + SETTLE_SECONDS * SECOND;
    var next := s.latest.(startedAt := at, finishedAt := at, used := used, settled := false);
    assert BoundaryEvent(s.latest, next) == None;
    assert Accepted(s, next) && next.used == used;
  }

  /** A run from a fresh segment in which it does: 50 per cent used, then a candidate at 40, then 49.5
      accepted. */
  lemma {:induction false} UsageCanFallBelowBaseline()
    ensures exists first: Sample, candidate: Sample, next: Sample ::
              && WellTimed(first) && WellTimed(candidate) && WellTimed(next)
              && var (s, none) := Observed(NewSegment("codex", "primary", first, Baseline), candidate);
                 var (t, done) := Observed(s, next);
                 none.None? && done.None? && t.baseline == first && t.latest == next && next.used < first.used
  {
    var b := Sample(0, 0, 0, 50.0, None, None, None, true);
    var c := b.(startedAt := SECOND, finishedAt := SECOND, used := 40.0);
    var blank := NewSegment("codex", "primary", b, Baseline);
    var n := b.(startedAt := 40 * SECOND, finishedAt := 40 * SECOND, used := 49.5);
    assert Observed(blank, c) == (blank.(pending := Some(c)), None);
    assert Observed(blank.(pending := Some(c)), n) == (blank.(latest := n), None);
    assert WellTimed(b) && WellTimed(c) && WellTimed(n);
  }

  // ---------- Two-phase recovery over whole runs ----------

  /** One recorded observation: what the metering scan found first, then the sample. */
  datatype Input = Input(meteringGap: bool, sample: Sample)

  function ApplyInput(s: Seg, i: Input): (Seg, Option<Seg>) {
    Observed(s.(meteringIncomplete := s.meteringIncomplete || i.meteringGap), i.sample)
  }

  function After(s: Seg, inputs: seq<Input>): Seg
    decreases |inputs|
  {
    if inputs == [] then s
    else ApplyInput(After(s, inputs[..|inputs| - 1]), inputs[|inputs| - 1]).0
  }

  /** Input j of the run became the candidate that is still pending after n inputs, with the latest
      sample and the baseline frozen since. */
  ghost predicate CandidateSince(s: Seg, inputs: seq<Input>, j: nat, n: nat) {
    && j < n <= |inputs|
    && After(s, inputs[..j]).pending.None?
    && (forall m :: j < m <= n ==>
          && After(s, inputs[..m]).pending == Some(inputs[j].sample)
          && After(s, inputs[..m]).latest == After(s, inputs[..j]).latest
          && After(s, inputs[..m]).baseline == After(s, inputs[..j]).baseline)
    && inputs[j].sample.startedAt > After(s, inputs[..j]).latest.finishedAt
    && After(s, inputs[..j]).latest.used - inputs[j].sample.used >= RECOVERY_POINTS
  }

  lemma {:induction false} AfterNext(s: Seg, inputs: seq<Input>, m: nat)
    requires m < |inputs|
    ensures After(s, inputs[..m + 1]) == ApplyInput(After(s, inputs[..m]), inputs[m]).0
  {
    assert inputs[..m + 1][..m] == inputs[..m];
  }

  /** A candidate pending after an observation is either that observation or the one before. */
  lemma {:induction false} PendingStep(s: Seg, i: Input)
    requires ApplyInput(s, i).0.pending.Some?
    ensures var t := ApplyInput(s, i).0;
            && t.latest == s.latest && t.baseline == s.baseline
            && (s.pending.Some? ==> t.pending == s.pending)
            && (s.pending.None? ==>
                  && t.pending == Some(i.sample)
                  && i.sample.startedAt > s.latest.finishedAt
                  && s.latest.used - i.sample.used >= RECOVERY_POINTS)
  {
  }

  lemma {:induction false} PendingHasOrigin(s: Seg, inputs: seq<Input>, n: nat) returns (j: nat)
    requires s.pending.None? && n <= |inputs| && After(s, inputs[..n]).pending.Some?
    ensures CandidateSince(s, inputs, j, n)
    decreases n
  {
    var m := n - 1;
    AfterNext(s, inputs, m);
    PendingStep(After(s, inputs[..m]), inputs[m]);
    if After(s, inputs[..m]).pending.None? {
      j := m;
    } else {
      j := PendingHasOrigin(s, inputs, m);
    }
  }

  /** A recovery is announced only on a second look: some earlier input, at least a point below the
      latest sample and after it, became the candidate; nothing was accepted in between; and the
      confirming sample starts 30 seconds or more after the candidate finished and is itself still at
      least a point below.  The new baseline is the confirming sample, never the candidate. */
  lemma {:induction false} RecoveryIsConfirmed(s: Seg, inputs: seq<Input>, n: nat)
    requires s.pending.None? && n < |inputs|
    requires var (live, done) := ApplyInput(After(s, inputs[..n]), inputs[n]);
             done.Some? && live.event == QuotaRecovery
    ensures exists j: nat ::
              && CandidateSince(s, inputs, j, n)
              && var old_ := After(s, inputs[..n]);
              && var next := inputs[n].sample;
              && next.startedAt - inputs[j].sample.finishedAt >= 30 * SECOND
              && old_.latest.used - next.used >= 1.0
              && ApplyInput(old_, inputs[n]).0.baseline == next
              && ApplyInput(old_, inputs[n]).1.value.latest == old_.latest
              && ApplyInput(old_, inputs[n]).1.value.pending == None
  {
    var j := PendingHasOrigin(s, inputs, n);
    assert After(s, inputs[..n]).pending == Some(inputs[j].sample);
  }

  // ---------- Reports ----------

  datatype Tokens = Tokens(uncachedInput: nat, cachedInput: nat, output: nat)
  datatype Estimate = Estimate(uncachedInput: real, cachedInput: real, output: real)
  datatype Status = UnassignedPool | PendingRecovery | Stale | Incomplete | Settling | Collecting | Ready

  datatype Report = Report(
    limitId: string,
    window: string,
    startedAt: int,
    observedAt: int,
    remainingStart: real,
    remainingEnd: real,
    consumedPoints: real,
    windowSeconds: Option<int>,
    resetAt: Option<int>,
    status: Status,
    event: Event,
    historical: bool,
    attempts: nat,
    completeAttempts: nat,
    tokens: Tokens,
    estimate: Option<Estimate>,
    workload: map<(string, string), nat>)

  function Points(s: Seg): real {
    if s.latest.used - s.baseline.used > 0.0 then s.latest.used - s.baseline.used else 0.0
  }

  function StatusOf(s: Seg, attempts: nat, complete: nat, boundaryComplete: bool, historical: bool, now: int): Status {
    if s.limitId != "codex" then UnassignedPool
    else if s.pending.Some? then PendingRecovery
    else if !historical && NumSeconds(now - s.latest.finishedAt) > MAX_GAP_SECONDS then Stale
    else if complete < attempts || !boundaryComplete then Incomplete
    else if !s.baseline.settled || !s.latest.settled then Settling
    else if Points(s) < MIN_ESTIMATE_POINTS || attempts == 0 then Collecting
    else Ready
  }

  function Extrapolate(tokens: nat, points: real): real
    requires points > 0.0
  {
    tokens as real * 100.0 / points
  }

  function MakeReport(s: Seg, tokens: Tokens, attempts: nat, complete: nat, boundaryComplete: bool,
                      workload: map<(string, string), nat>, historical: bool, now: int): Report
  {
    var points := Points(s);
    var status := StatusOf(s, attempts, complete, boundaryComplete, historical, now);
    var estimate :=
      if status == Ready
      then Some(Estimate(Extrapolate(tokens.uncachedInput, points),
                         Extrapolate(tokens.cachedInput, points),
                         Extrapolate(tokens.output, points)))
      else None;
    Report(s.limitId, s.window, s.baseline.finishedAt, s.latest.finishedAt,
           100.0 - s.baseline.used, 100.0 - s.latest.used, points, s.latest.duration, s.latest.resetAt,
           status, s.event, historical, attempts, complete, tokens, estimate, workload)
  }

  lemma {:induction false} ExtrapolateBounds(tokens: nat, points: real)
    requires MIN_ESTIMATE_POINTS <= points <= 100.0
    ensures tokens as real <= Extrapolate(tokens, points) <= 10.0 * tokens as real
  {
    var t := tokens as real;
    assert t * points <= t * 100.0;
    assert t * 100.0 <= (10.0 * t) * points by {
      assert t * 10.0 <= t * points;
    }
    DivideBounds(t, t * 100.0, 10.0 * t, points);
  }

  lemma {:induction false} DivideBounds(low: real, x: real, high: real, d: real)
    requires d > 0.0 && low * d <= x <= high * d
    ensures low <= x / d <= high
  {
    var q := x / d;
    assert q * d == x;
  }

  /** For each status exactly when a report has it; an estimate is published exactly when none of the
      obstacles holds, and then a point of usage is worth the same number of tokens throughout: what was
      measured over the points consumed, extended to a hundred. */
  lemma {:induction false} ReportExactly(s: Seg, tokens: Tokens, attempts: nat, complete: nat, boundaryComplete: bool,
                                         workload: map<(string, string), nat>, historical: bool, now: int)
    requires complete <= attempts
    ensures var r := MakeReport(s, tokens, attempts, complete, boundaryComplete, workload, historical, now);
            var rise := s.latest.used - s.baseline.used;
            var sighted := s.limitId == "codex" && s.pending.None?;
            var live := sighted && (historical || now - s.latest.finishedAt < 301 * SECOND);
            var whole := live && complete == attempts && boundaryComplete;
            && (r.status == UnassignedPool <==> s.limitId != "codex")
            && (r.status == PendingRecovery <==> s.limitId == "codex" && s.pending.Some?)
            && (r.status == Stale <==> sighted && !live)
            && (r.status == Incomplete <==> live && !whole)
            && (r.status == Settling <==> whole && !(s.baseline.settled && s.latest.settled))
            && (r.status == Collecting <==> whole && s.baseline.settled && s.latest.settled && (rise < 10.0 || attempts == 0))
            && (r.estimate.Some? <==> whole && s.baseline.settled && s.latest.settled && rise >= 10.0 && attempts > 0)
            && r.limitId == s.limitId && r.window == s.window && r.event == s.event && r.historical == historical
            && r.startedAt == s.baseline.finishedAt && r.observedAt == s.latest.finishedAt
            && r.remainingStart == 100.0 - s.baseline.used && r.remainingEnd == 100.0 - s.latest.used
            && r.windowSeconds == s.latest.duration && r.resetAt == s.latest.resetAt
            && r.consumedPoints == (if rise > 0.0 then rise else 0.0)
            && (r.estimate.Some? ==>
                  && r.estimate.value.uncachedInput * rise == tokens.uncachedInput as real * 100.0
                  && r.estimate.value.cachedInput * rise == tokens.cachedInput as real * 100.0
                  && r.estimate.value.output * rise == tokens.output as real * 100.0)
  {
  }

  /** An estimate is published only for a codex segment with settled ends, no candidate pending and
      complete, bounded metering, whose ends lie 10 to 100 points apart; it then lies between one and
      ten times the tokens measured, for each class of token. */
  lemma {:induction false} EstimateBounds(s: Seg, tokens: Tokens, attempts: nat, complete: nat, boundaryComplete: bool,
                                          workload: map<(string, string), nat>, historical: bool, now: int)
    requires WellTimed(s.baseline) && WellTimed(s.latest)
    requires complete <= attempts
    ensures var r := MakeReport(s, tokens, attempts, complete, boundaryComplete, workload, historical, now);
            r.estimate.Some? ==>
              && s.limitId == "codex" && s.pending.None? && s.baseline.settled && s.latest.settled
              && complete == attempts > 0 && boundaryComplete
              && MIN_ESTIMATE_POINTS <= r.consumedPoints <= 100.0
              && r.consumedPoints == r.remainingStart - r.remainingEnd
              && tokens.uncachedInput as real <= r.estimate.value.uncachedInput <= 10.0 * tokens.uncachedInput as real
              && tokens.cachedInput as real <= r.estimate.value.cachedInput <= 10.0 * tokens.cachedInput as real
              && tokens.output as real <= r.estimate.value.output <= 10.0 * tokens.output as real
  {
    var points := Points(s);
    if points >= MIN_ESTIMATE_POINTS {
      ExtrapolateBounds(tokens.uncachedInput, points);
      ExtrapolateBounds(tokens.cachedInput, points);
      ExtrapolateBounds(tokens.output, points);
    }
  }
}
