/** What holds of every run of the attempt loop, from the rules that its log follows. */
module RetryBounds {
  import opened Wrappers
  import opened RelayRetry
  import opened RetryController

  /** Turn k of a log follows the rules from the head that turns 0..k left. */
  lemma {:induction false} TurnAt(cfg: Config, w: World, start: int, log: seq<Turn>, k: nat)
    requires Trace(cfg, w, start, log) && k < |log|
    ensures Trace(cfg, w, start, log[..k]) && GoesOn(log[..k])
    ensures log[k].head == HeadAfter(start, log[..k]) && TurnOk(cfg, w, k, log[k])
    decreases |log|
  {
    var n := |log| - 1;
    if k < n {
      TurnAt(cfg, w, start, log[..n], k);
      assert log[..n][..k] == log[..k];
    }
  }

  lemma {:induction false} TurnGoesOn(cfg: Config, w: World, start: int, log: seq<Turn>, k: nat)
    requires Trace(cfg, w, start, log) && k < |log|
    ensures log[k].end.Stopped? ==> k == |log| - 1
  {
    if k + 1 < |log| {
      TurnAt(cfg, w, start, log, k + 1);
      assert log[..k + 1][k] == log[k];
    }
  }

  // ------------------------------------------------------------------ bounds

  /** At most eleven requests are sent upstream, and the eleventh ends the loop: it never runs out. */
  lemma {:induction false} SendsAreBounded(cfg: Config, w: World, start: int, log: seq<Turn>)
    requires Trace(cfg, w, start, log)
    ensures |log| <= MAX_RETRIES + 1
    ensures GoesOn(log) ==> |log| <= MAX_RETRIES
  {
    if |log| > MAX_RETRIES {
      TurnGoesOn(cfg, w, start, log, MAX_RETRIES);
      TurnAt(cfg, w, start, log, MAX_RETRIES);
    }
  }

  /** A request that is not replay-safe is sent at most once. */
  lemma {:induction false} UnsafeRequestIsSentOnce(cfg: Config, w: World, start: int, log: seq<Turn>)
    requires Trace(cfg, w, start, log) && !cfg.replaySafe
    ensures |log| <= 1 && (GoesOn(log) ==> log == [])
  {
    FirstTurns(cfg, w, start, log);
  }

  function Failovers(log: seq<Turn>): nat {
    if log == [] then 0 else Failovers(log[..|log| - 1]) + (if log[|log| - 1].end.FailedOver? then 1 else 0)
  }

  lemma {:induction false} LateTurnDoesNotFailOver(cfg: Config, w: World, start: int, log: seq<Turn>, k: nat)
    requires Trace(cfg, w, start, log) && k < |log|
    ensures log[k].end.FailedOver? ==> k < 2
  {
    TurnAt(cfg, w, start, log, k);
  }

  lemma {:induction false} EarlyFailovers(log: seq<Turn>)
    requires forall k :: 0 <= k < |log| && log[k].end.FailedOver? ==> k < 2
    ensures Failovers(log) <= if |log| < 2 then |log| else 2
  {
    if log != [] {
      EarlyFailovers(log[..|log| - 1]);
    }
  }

  /** At most two failovers, and only by the first two attempts. */
  lemma {:induction false} FailoversAreBounded(cfg: Config, w: World, start: int, log: seq<Turn>)
    requires Trace(cfg, w, start, log)
    ensures Failovers(log) <= 2
    ensures forall k :: 0 <= k < |log| && log[k].end.FailedOver? ==> k < 2
  {
    forall k: nat | k < |log| ensures log[k].end.FailedOver? ==> k < 2 {
      LateTurnDoesNotFailOver(cfg, w, start, log, k);
    }
    EarlyFailovers(log);
  }

  // ------------------------------------------------------------------ time

  /** No sleep ends after the deadline, each lasts at least two seconds, and the loop's clock never
      goes back: so `retries` retries take at least twice as many seconds. */
  lemma {:induction false} RetriesFitTheDeadline(cfg: Config, w: World, start: int, log: seq<Turn>)
    requires Trace(cfg, w, start, log)
    ensures var h := HeadAfter(start, log);
            GoesOn(log) ==>
              && start + h.retries * 2 * SECOND <= h.now
              && (log != [] && log[|log| - 1].end.Retried? ==> h.now == log[|log| - 1].end.woke <= cfg.retryDeadline)
              && (log != [] && log[|log| - 1].end.FailedOver? ==> h.now == log[|log| - 1].times.failover)
    decreases |log|
  {
    if log != [] && GoesOn(log) {
      var n := |log| - 1;
      RetriesFitTheDeadline(cfg, w, start, log[..n]);
      TurnTakesTime(cfg, w, n, log[n]);
    }
  }

  lemma {:induction false} TurnTakesTime(cfg: Config, w: World, k: nat, turn: Turn)
    requires TurnOk(cfg, w, k, turn)
    ensures turn.end.FailedOver? ==> turn.head.now <= turn.times.failover
    ensures turn.end.Retried? ==> turn.head.now + 2 * SECOND <= turn.end.woke <= cfg.retryDeadline
  {
    var c := ChanceOf(cfg, turn.upstream, turn.times.limit <= turn.failoverDeadline);
    if c.RetryAfter? {
      MaximumDelayIsTheLeast(k + 1, c.after, w.jitter(k));
    }
  }

  /** A retry that passes the guard finds time for its sleep, whatever jitter is drawn, exactly when the
      greatest delay still fits at the wait. */
  lemma {:induction false} GuardLeavesTime(cfg: Config, index: nat, codex: bool, after: Option<nat>, t: Times)
    requires GuardHolds(cfg, index, codex, after, t)
    ensures (forall w: World :: w.jitter(index) <= BaseSeconds(index + 1) ==> WaitFits(cfg, w, index, after, t.wait))
            <==> t.wait + Delay(index + 1, after, BaseSeconds(index + 1)) <= cfg.retryDeadline
  {
    var base := BaseSeconds(index + 1);
    var worst := LimitAfterRetry().(jitter := (i: nat) => base);
    MaximumDelayIsTheLeast(index + 1, after, base);
    if forall w: World :: w.jitter(index) <= base ==> WaitFits(cfg, w, index, after, t.wait) {
      assert worst.jitter(index) == base;
      assert WaitFits(cfg, worst, index, after, t.wait);
    }
    if t.wait + Delay(index + 1, after, base) <= cfg.retryDeadline {
      forall w: World | w.jitter(index) <= base ensures WaitFits(cfg, w, index, after, t.wait) {
        GreatestDelay(index + 1, after, w.jitter(index));
      }
    }
  }

  /** With two seconds left the guard passes, and a jitter of one second leaves no time to sleep. */
  lemma {:induction false} GuardWithoutTime(w: World)
    requires w.jitter(0) == 1
    ensures var cfg, t := Config(false, true, 2 * SECOND), Times(0, 0, 0, 0, 0, 0);
            GuardHolds(cfg, 0, true, None, t) && !WaitFits(cfg, w, 0, None, t.wait)
  {
  }

  /** With a quarter of an hour left, a retryable failure of a subscription account is always
      retried while retries remain. */
  lemma {:induction false} RetryIsCertain(cfg: Config, w: World, k: nat, turn: Turn)
    requires TurnOk(cfg, w, k, turn)
    requires turn.codex && cfg.replaySafe && k < MAX_RETRIES && w.records(k) && !w.shutsDown(k)
    requires turn.times.wait + RETRY_AFTER_MAX <= cfg.retryDeadline
    ensures turn.end.Retried? <==> CallsForRetry(cfg, turn.upstream, turn.times.limit <= turn.failoverDeadline)
  {
    EndIsExact(cfg, w, k, turn);
    MaximumDelayIsTheLeast(k + 1, AskedWait(turn.upstream), w.jitter(k));
  }

  /** Every attempt of a run ends as the conditions on its outcome, the clock and the record say. */
  lemma {:induction false} TurnsEndExactly(cfg: Config, w: World, start: int, log: seq<Turn>, k: nat)
    requires Trace(cfg, w, start, log) && k < |log|
    ensures log[k].upstream == w.upstream(k) && EndsExactly(cfg, w, k, log[k], log[k].end)
  {
    TurnAt(cfg, w, start, log, k);
    EndIsExact(cfg, w, k, log[k]);
  }

  /** How long the attempts after the first one queued for a slot. */
  function Queued(w: World, log: seq<Turn>): nat {
    if |log| <= 1 then 0
    else
      var n := |log| - 1;
      var s := w.select(n, log[n].head.retry, log[n].head.excluded);
      Queued(w, log[..n]) + if s.Selected? then s.queueWait else 0
  }

  /** The failover budget runs from the first selection for thirty seconds plus the time that later
      attempts spent queued, and nothing else moves it. */
  lemma {:induction false} FailoverBudget(cfg: Config, w: World, start: int, log: seq<Turn>)
    requires Trace(cfg, w, start, log) && log != []
    ensures log[|log| - 1].failoverDeadline == log[0].times.selected + 30 * SECOND + Queued(w, log)
    decreases |log|
  {
    var n := |log| - 1;
    if n > 0 {
      FailoverBudget(cfg, w, start, log[..n]);
      assert log[n].head == NextHead(n - 1, log[n - 1]);
    }
  }

  // ------------------------------------------------------------------ accounts

  /** A selection that is given no account answers with one that is not excluded. */
  ghost predicate RespectsExclusion(w: World) {
    forall i, ex :: w.select(i, None, ex).Selected? ==> w.select(i, None, ex).account !in ex
  }

  /** A selection that is given an account answers with it. */
  ghost predicate KeepsAccount(w: World) {
    forall i, a, ex :: w.select(i, Some(a), ex).Selected? ==> w.select(i, Some(a), ex).account == a
  }

  lemma {:induction false} FirstTurns(cfg: Config, w: World, start: int, log: seq<Turn>)
    requires Trace(cfg, w, start, log)
    ensures |log| > 0 ==> TurnOk(cfg, w, 0, log[0]) && log[0].head == FirstHead(start)
    ensures |log| > 1 ==> TurnOk(cfg, w, 1, log[1]) && log[1].head == NextHead(0, log[0]) && !log[0].end.Stopped?
  {
    if |log| > 0 {
      TurnAt(cfg, w, start, log, 0);
    }
    if |log| > 1 {
      TurnAt(cfg, w, start, log, 1);
      TurnGoesOn(cfg, w, start, log, 0);
    }
  }

  /** A failover excludes an account that was not excluded. */
  lemma {:induction false} FailoverIsFresh(cfg: Config, w: World, start: int, log: seq<Turn>, k: nat)
    requires Trace(cfg, w, start, log) && RespectsExclusion(w)
    requires k < |log| && log[k].end.FailedOver?
    ensures log[k].account !in log[k].head.excluded
  {
    LateTurnDoesNotFailOver(cfg, w, start, log, k);
    FirstTurns(cfg, w, start, log);
  }

  lemma {:induction false} NextAddsUp(index: nat, turn: Turn, failovers: nat)
    requires turn.head.retries + |turn.head.excluded| == index && |turn.head.excluded| == failovers
    requires !turn.end.Stopped?
    requires turn.end.FailedOver? ==> turn.account !in turn.head.excluded
    ensures var h := NextHead(index, turn);
            && h.retries + |h.excluded| == index + 1
            && |h.excluded| == failovers + if turn.end.FailedOver? then 1 else 0
  {
  }

  /** At every head of the loop each attempt made so far was either a retry or a failover of a new
      account: the count of retries and the excluded accounts add up to the attempt's index. */
  lemma {:induction false} AttemptsAddUp(cfg: Config, w: World, start: int, log: seq<Turn>)
    requires Trace(cfg, w, start, log) && GoesOn(log) && RespectsExclusion(w)
    ensures var h := HeadAfter(start, log);
            h.retries + |h.excluded| == |log| && |h.excluded| == Failovers(log)
    decreases |log|
  {
    if log != [] {
      var n := |log| - 1;
      TurnAt(cfg, w, start, log, n);
      AttemptsAddUp(cfg, w, start, log[..n]);
      if log[n].end.FailedOver? {
        FailoverIsFresh(cfg, w, start, log, n);
      }
      NextAddsUp(n, log[n], Failovers(log[..n]));
    }
  }

  /** The list changed under the retry: selection for the retry account answered with an account
      that had been excluded. */
  predicate Strays(turn: Turn) {
    turn.head.retry.Some? && turn.account != turn.head.retry.value && turn.account in turn.head.excluded
  }

  /** Turn s makes an excluded account the retry account: it strays onto one and is retried there, or
      it is the second attempt, on the account retried by the first, and meets a limit in the stream,
      which excludes the account but keeps it for the next attempt. */
  ghost predicate Origin(log: seq<Turn>, s: nat) {
    && s < |log|
    && ((log[s].end.Retried? && Strays(log[s]))
        || (s == 1 && StreamLimitAfterRetry(log) && log[0].account == log[1].account))
  }

  ghost predicate StreamLimitAfterRetry(log: seq<Turn>) {
    |log| >= 2 && log[0].end.Retried? && log[1].end == FailedOver(true)
  }

  /** Every turn after s retries the account of turn s. */
  ghost predicate StaysOn(log: seq<Turn>, s: nat)
    requires s < |log|
  {
    forall j :: s < j < |log| ==> log[j].end.Retried? && log[j].account == log[s].account
  }

  ghost predicate RetriesExcluded(h: Head) {
    h.retry.Some? && h.retry.value in h.excluded
  }

  /** What the account rules need of one turn of a log that goes on. */
  ghost predicate LinkedTurn(w: World, start: int, log: seq<Turn>, k: nat)
    requires k < |log|
  {
    var h := log[k].head;
    && h == HeadAfter(start, log[..k])
    && w.select(k, h.retry, h.excluded).Selected?
    && log[k].account == w.select(k, h.retry, h.excluded).account
    && !log[k].end.Stopped?
    && (log[k].end.FailedOver? ==> k < 2)
  }

  ghost predicate Linked(w: World, start: int, log: seq<Turn>) {
    forall k: nat :: k < |log| ==> LinkedTurn(w, start, log, k)
  }

  lemma {:induction false} TraceIsLinked(cfg: Config, w: World, start: int, log: seq<Turn>)
    requires Trace(cfg, w, start, log) && GoesOn(log)
    ensures Linked(w, start, log)
  {
    forall k: nat | k < |log| ensures LinkedTurn(w, start, log, k) {
      TurnAt(cfg, w, start, log, k);
      TurnGoesOn(cfg, w, start, log, k);
      LateTurnDoesNotFailOver(cfg, w, start, log, k);
    }
  }

  lemma {:induction false} LinkedPrefix(w: World, start: int, log: seq<Turn>, n: nat)
    requires Linked(w, start, log) && n <= |log|
    ensures Linked(w, start, log[..n])
  {
    forall k: nat | k < n ensures LinkedTurn(w, start, log[..n], k) {
      assert LinkedTurn(w, start, log, k);
      assert log[..n][..k] == log[..k];
    }
  }

  lemma {:induction false} OriginKeepsAccount(w: World, start: int, log: seq<Turn>, s: nat)
    requires Linked(w, start, log) && Origin(log, s) && StaysOn(log, s)
    ensures HeadAfter(start, log).retry == Some(log[s].account)
  {
    if |log| == 2 {
      assert LinkedTurn(w, start, log, 0) && LinkedTurn(w, start, log, 1);
    }
  }

  /** The first two turns, in which alone accounts are excluded. */
  lemma {:induction false} EarlyExcluded(w: World, start: int, log: seq<Turn>)
    requires Linked(w, start, log) && 0 < |log| <= 2 && log[|log| - 1].end.FailedOver? && RespectsExclusion(w)
    ensures RetriesExcluded(HeadAfter(start, log)) <==> exists s: nat :: Origin(log, s) && StaysOn(log, s)
  {
    assert LinkedTurn(w, start, log, 0);
    if |log| == 2 {
      assert LinkedTurn(w, start, log, 1);
      assert log[..1][0] == log[0];
      if Origin(log, 1) {
        assert StaysOn(log, 1);
      }
    }
    assert forall s: nat :: Origin(log, s) && StaysOn(log, s) ==> s == |log| - 1;
  }

  lemma {:induction false} ExcludedHasOrigin(w: World, start: int, log: seq<Turn>)
    requires Linked(w, start, log) && log != [] && log[|log| - 1].end.Retried? && RespectsExclusion(w)
    requires var init := log[..|log| - 1];
             RetriesExcluded(HeadAfter(start, init)) ==> exists s: nat :: Origin(init, s) && StaysOn(init, s)
    requires RetriesExcluded(HeadAfter(start, log))
    ensures exists s: nat :: Origin(log, s) && StaysOn(log, s)
  {
    var n := |log| - 1;
    var init := log[..n];
    assert LinkedTurn(w, start, log, n);
    if Strays(log[n]) {
      assert Origin(log, n) && StaysOn(log, n);
    } else {
      assert RetriesExcluded(log[n].head);
      var s: nat :| Origin(init, s) && StaysOn(init, s);
      LinkedPrefix(w, start, log, n);
      OriginKeepsAccount(w, start, init, s);
      assert Origin(log, s) && StaysOn(log, s);
    }
  }

  lemma {:induction false} OriginExcludes(w: World, start: int, log: seq<Turn>, s: nat)
    requires Linked(w, start, log) && log != [] && log[|log| - 1].end.Retried?
    requires var init := log[..|log| - 1];
             (exists r: nat :: Origin(init, r) && StaysOn(init, r)) ==> RetriesExcluded(HeadAfter(start, init))
    requires Origin(log, s) && StaysOn(log, s)
    ensures RetriesExcluded(HeadAfter(start, log))
  {
    var n := |log| - 1;
    var init := log[..n];
    assert LinkedTurn(w, start, log, n);
    if s < n {
      assert Origin(init, s) && StaysOn(init, s);
      LinkedPrefix(w, start, log, n);
      OriginKeepsAccount(w, start, init, s);
    }
  }

  lemma {:induction false} LinkedExcluded(w: World, start: int, log: seq<Turn>)
    requires Linked(w, start, log) && RespectsExclusion(w)
    ensures RetriesExcluded(HeadAfter(start, log)) <==> exists s: nat :: Origin(log, s) && StaysOn(log, s)
    decreases |log|
  {
    if log != [] {
      var n := |log| - 1;
      assert LinkedTurn(w, start, log, n);
      if log[n].end.Retried? {
        LinkedPrefix(w, start, log, n);
        LinkedExcluded(w, start, log[..n]);
        if RetriesExcluded(HeadAfter(start, log)) {
          ExcludedHasOrigin(w, start, log);
        }
        if s: nat :| Origin(log, s) && StaysOn(log, s) {
          OriginExcludes(w, start, log, s);
        }
      } else {
        EarlyExcluded(w, start, log);
      }
    }
  }

  /** The retry account at a head is an excluded one exactly when some turn made it so and every turn
      since has retried that account. */
  lemma {:induction false} RetryAccountExcluded(cfg: Config, w: World, start: int, log: seq<Turn>)
    requires Trace(cfg, w, start, log) && GoesOn(log) && RespectsExclusion(w)
    ensures RetriesExcluded(HeadAfter(start, log)) <==> exists s: nat :: Origin(log, s) && StaysOn(log, s)
  {
    TraceIsLinked(cfg, w, start, log);
    LinkedExcluded(w, start, log);
  }

  /** While selection for an account answers with it, only the streamed limit after a retry does so. */
  lemma {:induction false} SteadyRetryAccountExcluded(cfg: Config, w: World, start: int, log: seq<Turn>)
    requires Trace(cfg, w, start, log) && GoesOn(log) && RespectsExclusion(w) && KeepsAccount(w)
    ensures RetriesExcluded(HeadAfter(start, log)) <==> StreamLimitAfterRetry(log)
    decreases |log|
  {
    FirstTurns(cfg, w, start, log);
    if |log| > 2 {
      var n := |log| - 1;
      SteadyRetryAccountExcluded(cfg, w, start, log[..n]);
      FailoversAreBounded(cfg, w, start, log);
      assert log[n].end.Retried?;
      assert StreamLimitAfterRetry(log) <==> StreamLimitAfterRetry(log[..n]);
    }
  }

  /** One account; its first request gets no answer, its second a stream that opens with a limit. */
  function LimitAfterRetry(): World {
    World(
      (i: nat, retry: Option<string>, excluded: set<string>) =>
        if retry.Some? then Selected(retry.value, true, 0)
        else if "a" in excluded then NotSelected
        else Selected("a", true, 0),
      (i: nat) => true,
      (i: nat) => if i == 0 then NoResponse
                  else Succeeded(Opened(false, Some(AppFailure(Some("usage_limit_reached"), false, None))), false),
      (i: nat) => true,
      (i: nat) => 0,
      (i: nat) => false,
      (i: nat, reading: nat) => 0)
  }

  lemma {:induction false} ExcludedAccountIsKept() returns (log: seq<Turn>)
    ensures var cfg, w := Config(true, true, 900 * SECOND), LimitAfterRetry();
            && RespectsExclusion(w) && KeepsAccount(w)
            && |log| == 2 && Trace(cfg, w, 0, log) && GoesOn(log)
            && HeadAfter(0, log).retry == Some("a") && HeadAfter(0, log).excluded == {"a"}
  {
    var cfg, w := Config(true, true, 900 * SECOND), LimitAfterRetry();
    var t0 := Clock(w, 0, 0);
    var first := Turn(FirstHead(0), "a", true, 30 * SECOND, t0, w.upstream(0), Retried(2 * SECOND));
    TraceGrows(cfg, w, 0, [], first);
    assert [] + [first] == [first];
    var head := HeadAfter(0, [first]);
    var second := Turn(head, "a", true, 30 * SECOND, Clock(w, 1, head.now), w.upstream(1), FailedOver(true));
    TraceGrows(cfg, w, 0, [first], second);
    log := [first] + [second];
  }

  /** Such a run exists: a streamed request whose third and last attempt is sent for the account that the
      second one excluded. */
  lemma {:induction false} ExcludedAccountIsRetried() returns (log: seq<Turn>)
    ensures var cfg, w := Config(true, true, 900 * SECOND), LimitAfterRetry();
            && RespectsExclusion(w) && KeepsAccount(w)
            && |log| == 3 && Finished(cfg, w, 0, log)
            && log[2].head.retry == Some("a") && log[2].account == "a" && log[2].head.excluded == {"a"}
  {
    var cfg, w := Config(true, true, 900 * SECOND), LimitAfterRetry();
    var two := ExcludedAccountIsKept();
    var head := HeadAfter(0, two);
    var t := Clock(w, 2, head.now);
    var deadline := FailoverDeadline(head, 0, t.selected);
    var third := Turn(head, "a", true, deadline, t, w.upstream(2), Stopped);
    TraceGrows(cfg, w, 0, two, third);
    log := two + [third];
  }

  /** A request that is not streamed retries an excluded account exactly when selection strayed onto
      one and every attempt since was retried there; so never while selection for an account answers
      with it. */
  lemma {:induction false} PlainRequestRetriesOpenAccount(cfg: Config, w: World, start: int, log: seq<Turn>)
    requires Trace(cfg, w, start, log) && GoesOn(log) && RespectsExclusion(w)
    requires !cfg.stream
    ensures RetriesExcluded(HeadAfter(start, log))
            <==> exists s: nat :: s < |log| && log[s].end.Retried? && Strays(log[s]) && StaysOn(log, s)
    ensures KeepsAccount(w) ==> !RetriesExcluded(HeadAfter(start, log))
  {
    RetryAccountExcluded(cfg, w, start, log);
    FirstTurns(cfg, w, start, log);
    forall s: nat | s < |log| && log[s].end.Retried? && Strays(log[s]) && StaysOn(log, s) ensures Origin(log, s) {
    }
    if KeepsAccount(w) {
      SteadyRetryAccountExcluded(cfg, w, start, log);
    }
  }

  /** Account e is limited, account a is tried and retried, and by then e is back: the third selection,
      for a, answers with e. */
  function LimitedThenBack(): World {
    World(
      (i: nat, retry: Option<string>, excluded: set<string>) =>
        if retry.Some? then Selected(if i == 2 then "e" else retry.value, true, 0)
        else if "e" !in excluded then Selected("e", true, 0)
        else if "a" !in excluded then Selected("a", true, 0)
        else NotSelected,
      (i: nat) => true,
      (i: nat) => if i == 0 then Refused(429, None, None, false) else NoResponse,
      (i: nat) => true,
      (i: nat) => 0,
      (i: nat) => false,
      (i: nat, reading: nat) => 0)
  }

  /** Such a run exists for a plain request: after three attempts it goes on with the excluded account. */
  lemma {:induction false} PlainRequestStrays() returns (log: seq<Turn>)
    ensures var cfg, w := Config(false, true, 900 * SECOND), LimitedThenBack();
            && RespectsExclusion(w)
            && Trace(cfg, w, 0, log) && GoesOn(log)
            && HeadAfter(0, log).retry == Some("e") && HeadAfter(0, log).excluded == {"e"}
  {
    var cfg, w := Config(false, true, 900 * SECOND), LimitedThenBack();
    var first := Turn(FirstHead(0), "e", true, 30 * SECOND, Clock(w, 0, 0), w.upstream(0), FailedOver(false));
    TraceGrows(cfg, w, 0, [], first);
    assert [] + [first] == [first];
    var h1 := HeadAfter(0, [first]);
    var second := Turn(h1, "a", true, 30 * SECOND, Clock(w, 1, h1.now), w.upstream(1), Retried(4 * SECOND));
    TraceGrows(cfg, w, 0, [first], second);
    var h2 := HeadAfter(0, [first] + [second]);
    var third := Turn(h2, "e", true, 30 * SECOND, Clock(w, 2, h2.now), w.upstream(2), Retried(12 * SECOND));
    TraceGrows(cfg, w, 0, [first] + [second], third);
    log := [first] + [second] + [third];
  }

  // ------------------------------------------------------------------ the answer

  predicate Started(u: Upstream) {
    u.Succeeded? && u.preflight.started
  }

  /** A finished run has another attempt after each one that goes on, as long as selection finds an
      account for it and its request can be built. */
  lemma {:induction false} AnotherAttemptFollows(cfg: Config, w: World, start: int, log: seq<Turn>, k: nat)
    requires Finished(cfg, w, start, log) && k < |log|
    ensures !log[k].end.Stopped? && CanSend(w, k + 1, NextHead(k, log[k])) ==> k + 1 < |log|
  {
    SendsAreBounded(cfg, w, start, log);
  }

  /** The rules determine the run: one environment, one log. */
  lemma {:induction false} RunIsDetermined(cfg: Config, w: World, start: int, log: seq<Turn>, other: seq<Turn>)
    requires Finished(cfg, w, start, log) && Finished(cfg, w, start, other)
    ensures log == other
  {
    NoLonger(cfg, w, start, log, other);
    NoLonger(cfg, w, start, other, log);
    SamePrefix(cfg, w, start, log, other, |log|);
    assert log[..|log|] == log && other[..|other|] == other;
  }

  lemma {:induction false} NoLonger(cfg: Config, w: World, start: int, log: seq<Turn>, other: seq<Turn>)
    requires Finished(cfg, w, start, log) && Trace(cfg, w, start, other)
    ensures |other| <= |log|
  {
    SendsAreBounded(cfg, w, start, log);
    if |log| < |other| {
      SamePrefix(cfg, w, start, log, other, |log|);
      assert log[..|log|] == log;
      TurnAt(cfg, w, start, other, |log|);
    }
  }

  ghost predicate TurnFits(cfg: Config, w: World, start: int, log: seq<Turn>, k: nat)
    requires k < |log|
  {
    log[k].head == HeadAfter(start, log[..k]) && TurnOk(cfg, w, k, log[k])
  }

  lemma {:induction false} SamePrefix(cfg: Config, w: World, start: int, log: seq<Turn>, other: seq<Turn>, n: nat)
    requires Trace(cfg, w, start, log) && Trace(cfg, w, start, other) && n <= |log| && n <= |other|
    ensures log[..n] == other[..n]
  {
    forall k: nat | k < n ensures TurnFits(cfg, w, start, log, k) && TurnFits(cfg, w, start, other, k) {
      TurnAt(cfg, w, start, log, k);
      TurnAt(cfg, w, start, other, k);
    }
    FittingPrefix(cfg, w, start, log, other, n);
  }

  lemma {:induction false} SameTurn(cfg: Config, w: World, k: nat, turn: Turn, other: Turn)
    requires TurnOk(cfg, w, k, turn) && TurnOk(cfg, w, k, other) && turn.head == other.head
    ensures turn == other
  {
  }

  lemma {:induction false} FittingPrefix(cfg: Config, w: World, start: int, log: seq<Turn>, other: seq<Turn>, n: nat)
    requires n <= |log| && n <= |other|
    requires forall k: nat :: k < n ==> TurnFits(cfg, w, start, log, k) && TurnFits(cfg, w, start, other, k)
    ensures log[..n] == other[..n]
  {
    if n > 0 {
      FittingPrefix(cfg, w, start, log, other, n - 1);
      assert TurnFits(cfg, w, start, log, n - 1) && TurnFits(cfg, w, start, other, n - 1);
      SameTurn(cfg, w, n - 1, log[n - 1], other[n - 1]);
      assert log[..n] == log[..n - 1] + [log[n - 1]];
      assert other[..n] == other[..n - 1] + [other[n - 1]];
    }
  }

  /** Attempt k ended in a failover, and no later attempt did. */
  ghost predicate LastFailover(log: seq<Turn>, k: nat, streamed: bool) {
    k < |log| && log[k].end == FailedOver(streamed) && forall j :: k < j < |log| ==> !log[j].end.FailedOver?
  }

  /** What the kept rate-limit response says about the log. */
  ghost predicate Keeps(log: seq<Turn>, last: Option<Limit>) {
    match last
    case None => Failovers(log) == 0
    case Some(Upstream429(k)) => LastFailover(log, k, false) && log[k].upstream.Refused? && log[k].upstream.status == 429
    case Some(Synthetic429) => exists k :: LastFailover(log, k, true)
  }

  lemma {:induction false} KeepsOverRetry(log: seq<Turn>, last: Option<Limit>, turn: Turn)
    requires Keeps(log, last) && turn.end.Retried?
    ensures Keeps(log + [turn], last)
  {
    assert (log + [turn])[..|log|] == log;
    if last == Some(Synthetic429) {
      var k :| LastFailover(log, k, true);
      assert LastFailover(log + [turn], k, true);
    }
  }

  lemma {:induction false} KeptLimit(cfg: Config, w: World, start: int, log: seq<Turn>)
    requires Trace(cfg, w, start, log) && GoesOn(log)
    ensures Keeps(log, HeadAfter(start, log).last)
    decreases |log|
  {
    if log != [] {
      var n := |log| - 1;
      TurnAt(cfg, w, start, log, n);
      assert log == log[..n] + [log[n]];
      match log[n].end
      case Retried(_) =>
        KeptLimit(cfg, w, start, log[..n]);
        KeepsOverRetry(log[..n], HeadAfter(start, log[..n]).last, log[n]);
      case FailedOver(streamed) =>
        assert LastFailover(log, n, streamed);
    }
  }

  /** The client is answered with the bytes of at most one attempt: the last one sent, or the 429
      kept from the latest failover, when after it no account could be selected. */
  lemma {:induction false} OneAttemptAnswers(cfg: Config, w: World, start: int, log: seq<Turn>)
    requires Finished(cfg, w, start, log)
    ensures var reply := AnswerOf(cfg, w, start, log);
            && (reply.Answer? ==> !GoesOn(log) && reply.index == |log| - 1)
            && (reply.Stored? ==> GoesOn(log) && Keeps(log, Some(reply.limit)))
            && (reply == Failed(RequestError) ==> GoesOn(log) && !w.builds(|log|))
  {
    SendsAreBounded(cfg, w, start, log);
    if GoesOn(log) {
      KeptLimit(cfg, w, start, log);
    }
  }

  lemma {:induction false} FailoverCounts(log: seq<Turn>, k: nat)
    requires k < |log| && log[k].end.FailedOver?
    ensures Failovers(log) > 0
  {
    if k < |log| - 1 {
      FailoverCounts(log[..|log| - 1], k);
    }
  }

  /** What a request is answered with, for every run: after an attempt that ends it, by that attempt's outcome;
      otherwise, and then after ten attempts at most, because selection or building the next request failed,
      where a selection that fails after a failover is answered with the limit kept from the latest one. */
  lemma {:induction false} AnswersExactly(cfg: Config, w: World, start: int, log: seq<Turn>)
    requires Finished(cfg, w, start, log)
    ensures var reply := AnswerOf(cfg, w, start, log);
            if !GoesOn(log) then RepliesExactly(cfg, w, |log| - 1, log[|log| - 1], reply)
            else
              var head := HeadAfter(start, log);
              var s := w.select(|log|, head.retry, head.excluded);
              && |log| <= MAX_RETRIES
              && (reply == Failed(ServiceUnavailable) <==> s == Unavailable)
              && (reply.Stored? <==> s == NotSelected && Failovers(log) > 0)
              && (reply.Stored? ==> Keeps(log, Some(reply.limit)))
              && (reply == Failed(SelectionError) <==> s == NotSelected && Failovers(log) == 0)
              && (reply == Failed(RequestError) <==> s.Selected?)
              && (s.Selected? ==> !w.builds(|log|))
  {
    SendsAreBounded(cfg, w, start, log);
    if GoesOn(log) {
      KeptLimit(cfg, w, start, log);
      KeptMeansFailedOver(log, HeadAfter(start, log).last);
    } else {
      ReplyIsExact(cfg, w, |log| - 1, log[|log| - 1]);
    }
  }

  lemma {:induction false} KeptMeansFailedOver(log: seq<Turn>, last: Option<Limit>)
    requires Keeps(log, last)
    ensures last.Some? <==> Failovers(log) > 0
  {
    match last
    case None =>
    case Some(Upstream429(k)) => FailoverCounts(log, k);
    case Some(Synthetic429) =>
      var k :| LastFailover(log, k, true);
      FailoverCounts(log, k);
  }

  /** An attempt whose stream had started its output is never retried; before the last attempt it
      can only be one that a limit event failed over, whose stream is dropped unsent. */
  lemma {:induction false} StartedOutputIsNotReplayed(cfg: Config, w: World, start: int, log: seq<Turn>, k: nat)
    requires Trace(cfg, w, start, log) && k < |log| && cfg.stream
    ensures Started(log[k].upstream) ==> log[k].end == FailedOver(true) || (log[k].end.Stopped? && k == |log| - 1)
  {
    TurnAt(cfg, w, start, log, k);
    TurnGoesOn(cfg, w, start, log, k);
  }
}
