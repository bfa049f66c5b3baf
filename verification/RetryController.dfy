/** The attempt loop of a relayed request: retries on the same account, failovers to other accounts,
    and when it gives up. */
module RetryController {
  import opened Wrappers
  import opened RelayRetry

  const FAILOVER_START_BUDGET := 30 * SECOND

  // ------------------------------------------------------------------ what an attempt meets

  datatype AppFailure = AppFailure(code: Option<string>, retryable: bool, retryAfter: Option<nat>)

  /** How the look at the start of a stream ends: the transport breaks, or the stream is open, with
      the failure event that came before any output, if one did. */
  datatype Preflight =
    | Broke(started: bool)
    | Opened(started: bool, failure: Option<AppFailure>)

  /** `lost`: the body of a response could not be read. */
  datatype Upstream =
    | NoResponse
    | Refused(status: nat, code: Option<string>, retryAfter: Option<nat>, lost: bool)
    | Succeeded(preflight: Preflight, lost: bool)

  /** `Unavailable` is the ServiceUnavailable error, `NotSelected` any other error. */
  datatype Selection = Selected(account: string, codex: bool, queueWait: nat) | Unavailable | NotSelected

  datatype Config = Config(stream: bool, replaySafe: bool, retryDeadline: int)

  /** Everything the loop does not decide: what selection answers to the retry account and the
      excluded accounts, whether the request can be built and the attempt recorded, what the
      upstream does, the random jitter, whether the server shuts down during the wait, and how
      much time passes between readings of the clock. */
  datatype World = World(
    select: (nat, Option<string>, set<string>) -> Selection,
    builds: nat -> bool,
    upstream: nat -> Upstream,
    records: nat -> bool,
    jitter: nat -> nat,
    shutsDown: nat -> bool,
    passes: (nat, nat) -> nat)

  /** The readings of the clock in one attempt, in their order. */
  datatype Times = Times(selected: int, guard: int, fits: int, limit: int, failover: int, wait: int)

  function Clock(w: World, index: nat, now: int): Times {
    var t0 := now + w.passes(index, 0);
    var t1 := t0 + w.passes(index, 1);
    var t2 := t1 + w.passes(index, 2);
    var t3 := t2 + w.passes(index, 3);
    var t4 := t3 + w.passes(index, 4);
    Times(t0, t1, t2, t3, t4, t4 + w.passes(index, 5))
  }

  // ------------------------------------------------------------------ what the loop does

  datatype Limit = Upstream429(index: nat) | Synthetic429

  /** The loop's variables at the head of the loop. */
  datatype Head = Head(retries: nat, excluded: set<string>, retry: Option<string>, last: Option<Limit>,
                       failoverDeadline: Option<int>, now: int)

  datatype End = Retried(woke: int) | FailedOver(streamed: bool) | Stopped

  /** One attempt that sent a request upstream. */
  datatype Turn = Turn(head: Head, account: string, codex: bool, failoverDeadline: int, times: Times, upstream: Upstream, end: End)

  datatype Error = ServiceUnavailable | SelectionError | RequestError | DatabaseError | UpstreamError | ShuttingDown | TooManyRequests

  /** `Answer(k)` carries the response of attempt k; `Stored` is the kept rate-limit response. */
  datatype Reply = Answer(index: nat) | Stored(limit: Limit) | Failed(error: Error)

  predicate ServerError(status: nat) {
    500 <= status < 600
  }

  /** `wait_for_codex_transient_retry` sleeps: the random delay still fits before the deadline. */
  predicate WaitFits(cfg: Config, w: World, index: nat, retryAfter: Option<nat>, now: int) {
    Max(cfg.retryDeadline - now, 0) >= Delay(index + 1, retryAfter, w.jitter(index))
  }

  /** The checks made before a retry. */
  predicate GuardHolds(cfg: Config, index: nat, codex: bool, retryAfter: Option<nat>, t: Times) {
    && codex
    && cfg.replaySafe
    && index < MAX_RETRIES
    && t.guard <= cfg.retryDeadline
    && t.fits + MaximumDelay(index + 1, retryAfter) <= cfg.retryDeadline
  }

  /** Whether the outcome of an attempt calls for a retry, and the wait that the provider asks for. */
  datatype Chance = NoRetry | RetryAfter(after: Option<nat>)

  function ChanceOf(cfg: Config, u: Upstream, limitInTime: bool): Chance {
    match u
    case NoResponse => RetryAfter(None)
    case Refused(status, code, after, lost) =>
      if !lost && ServerError(status) && RetryableCode(code) then RetryAfter(after) else NoRetry
    case Succeeded(Broke(started), _) =>
      if cfg.stream && !started then RetryAfter(None) else NoRetry
    case Succeeded(Opened(started, failure), _) =>
      if cfg.stream && !started && failure.Some? && failure.value.retryable && (LimitCode(failure.value.code) ==> limitInTime)
      then RetryAfter(failure.value.retryAfter) else NoRetry
  }

  predicate MayRetry(cfg: Config, index: nat, codex: bool, deadline: int, t: Times, u: Upstream) {
    var c := ChanceOf(cfg, u, t.limit <= deadline);
    c.RetryAfter? && GuardHolds(cfg, index, codex, c.after, t)
  }

  /** The upstream reports a rate limit, by its status or by an event in the stream. */
  predicate LimitedBy(cfg: Config, u: Upstream, streamed: bool) {
    if streamed then cfg.stream && u.Succeeded? && u.preflight.Opened? && u.preflight.failure.Some? && LimitCode(u.preflight.failure.value.code)
    else u.Refused? && u.status == 429 && !u.lost
  }

  predicate MayFailOver(cfg: Config, index: nat, deadline: int, t: Times) {
    index < 2 && cfg.replaySafe && t.failover <= deadline
  }

  /** How an attempt ends, over all the places of the loop that decide it. */
  function EndOf(cfg: Config, w: World, index: nat, codex: bool, deadline: int, t: Times, u: Upstream): End {
    if MayRetry(cfg, index, codex, deadline, t, u) then
      var after := ChanceOf(cfg, u, t.limit <= deadline).after;
      if w.records(index) && WaitFits(cfg, w, index, after, t.wait) && !w.shutsDown(index)
      then Retried(t.wait + Delay(index + 1, after, w.jitter(index)))
      else Stopped
    else if MayFailOver(cfg, index, deadline, t) && w.records(index) then
      if LimitedBy(cfg, u, false) then FailedOver(false)
      else if LimitedBy(cfg, u, true) then FailedOver(true)
      else Stopped
    else Stopped
  }

  /** The answer to a request whose attempt was the last one. */
  function StopReply(cfg: Config, w: World, index: nat, turn: Turn): Reply {
    var u := turn.upstream;
    var after := ChanceOf(cfg, u, turn.times.limit <= turn.failoverDeadline);
    if MayRetry(cfg, index, turn.codex, turn.failoverDeadline, turn.times, u) then
      if !w.records(index) then Failed(DatabaseError)
      else if WaitFits(cfg, w, index, after.after, turn.times.wait) then Failed(ShuttingDown)
      else if u.Refused? then Answer(index)
      else if u.Succeeded? && u.preflight.Opened? then Failed(TooManyRequests)
      else Failed(UpstreamError)
    else if cfg.stream && u.Succeeded? && u.preflight.Opened? then
      if LimitedBy(cfg, u, true) && MayFailOver(cfg, index, turn.failoverDeadline, turn.times) && !w.records(index)
      then Failed(DatabaseError) else Answer(index)
    else if (u.Refused? && u.lost) || (u.Succeeded? && !cfg.stream && u.lost) then Failed(UpstreamError)
    else if !w.records(index) then Failed(DatabaseError)
    else if u.NoResponse? || (u.Succeeded? && cfg.stream) then Failed(UpstreamError)
    else Answer(index)
  }

  // ------------------------------------------------------------------ what a caller is promised

  /** The failure is one that another attempt may mend: no response; a refusal by an error of the server that
      the provider calls transient; a stream that broke, or reported such a failure, before any output.  A limit
      in the stream counts only while the failover budget lasts. */
  predicate CallsForRetry(cfg: Config, u: Upstream, budgetLasts: bool) {
    || u == NoResponse
    || (u.Refused? && !u.lost && 500 <= u.status < 600 && (u.code == None || u.code.value in SERVER_CODES + RATE_CODES))
    || (cfg.stream && u.Succeeded? && u.preflight.Broke? && !u.preflight.started)
    || (cfg.stream && u.Succeeded? && u.preflight.Opened? && !u.preflight.started && u.preflight.failure.Some?
        && var f := u.preflight.failure.value;
           f.retryable && (f.code.Some? && f.code.value in RATE_CODES + QUOTA_CODES ==> budgetLasts))
  }

  /** The wait that the provider asks for. */
  function AskedWait(u: Upstream): Option<nat> {
    if u.Refused? then u.retryAfter
    else if u.Succeeded? && u.preflight.Opened? && u.preflight.failure.Some? then u.preflight.failure.value.retryAfter
    else None
  }

  /** A retry is begun: for a subscription account and a replay-safe request, in one of the first ten attempts,
      with the least delay still fitting before the deadline. */
  predicate Retries(cfg: Config, index: nat, turn: Turn) {
    && CallsForRetry(cfg, turn.upstream, turn.times.limit <= turn.failoverDeadline)
    && turn.codex && cfg.replaySafe && index < 10 && turn.times.guard <= cfg.retryDeadline
    && turn.times.fits + MaximumDelay(index + 1, AskedWait(turn.upstream)) <= cfg.retryDeadline
  }

  /** The sleep of that retry, with its jitter, ends before the deadline. */
  predicate SleepFits(cfg: Config, w: World, index: nat, turn: Turn) {
    turn.times.wait + Delay(index + 1, AskedWait(turn.upstream), w.jitter(index)) <= cfg.retryDeadline
  }

  /** A response of 429 was read. */
  predicate StatusLimit(u: Upstream) {
    u.Refused? && u.status == 429 && !u.lost
  }

  /** The stream reported a limit before any output was seen. */
  predicate StreamLimit(cfg: Config, u: Upstream) {
    && cfg.stream && u.Succeeded? && u.preflight.Opened? && u.preflight.failure.Some?
    && u.preflight.failure.value.code.Some? && u.preflight.failure.value.code.value in RATE_CODES + QUOTA_CODES
  }

  /** No retry is begun, and a limit lets one of the first two attempts of a replay-safe request look for another
      account while the failover budget lasts. */
  predicate LooksElsewhere(cfg: Config, index: nat, turn: Turn) {
    && !Retries(cfg, index, turn) && (StatusLimit(turn.upstream) || StreamLimit(cfg, turn.upstream))
    && index < 2 && cfg.replaySafe && turn.times.failover <= turn.failoverDeadline
  }

  /** How an attempt ends: exactly when it is retried, and when the request wakes; exactly when it fails over. */
  predicate EndsExactly(cfg: Config, w: World, index: nat, turn: Turn, end: End) {
    && (end.Retried? <==> Retries(cfg, index, turn) && w.records(index) && SleepFits(cfg, w, index, turn) && !w.shutsDown(index))
    && (end.Retried? ==> end.woke == turn.times.wait + Delay(index + 1, AskedWait(turn.upstream), w.jitter(index)))
    && (end == FailedOver(false) <==> LooksElsewhere(cfg, index, turn) && StatusLimit(turn.upstream) && w.records(index))
    && (end == FailedOver(true) <==> LooksElsewhere(cfg, index, turn) && StreamLimit(cfg, turn.upstream) && w.records(index))
  }

  /** The attempt left a response to hand on: a refusal or a plain success whose body was read, or an open stream. */
  predicate HasResponse(cfg: Config, u: Upstream) {
    (u.Refused? && !u.lost) || (u.Succeeded? && (if cfg.stream then u.preflight.Opened? else !u.lost))
  }

  predicate OpenStream(cfg: Config, u: Upstream) {
    cfg.stream && u.Succeeded? && u.preflight.Opened?
  }

  predicate BodyLost(cfg: Config, u: Upstream) {
    (u.Refused? && u.lost) || (u.Succeeded? && !cfg.stream && u.lost)
  }

  /** What a request whose last attempt this is is answered with.  An attempt must be recorded before the answer,
      except that a lost body is not, and an open stream only when it is retried or given up for another account.
      The client gets the response, if there is one, unless the record fails or a retry was begun; of a retry that
      found no time only a refusal is still handed on. */
  predicate RepliesExactly(cfg: Config, w: World, index: nat, turn: Turn, reply: Reply) {
    var u, recorded := turn.upstream, w.records(index);
    var retried, fits := Retries(cfg, index, turn), SleepFits(cfg, w, index, turn);
    var mustRecord := !BodyLost(cfg, u) && (OpenStream(cfg, u) ==> retried || LooksElsewhere(cfg, index, turn));
    && (reply == Answer(index) <==> HasResponse(cfg, u) && (mustRecord ==> recorded) && (retried ==> !fits && !OpenStream(cfg, u)))
    && (reply == Failed(DatabaseError) <==> mustRecord && !recorded)
    && (reply == Failed(ShuttingDown) <==> retried && recorded && fits)
    && (reply == Failed(TooManyRequests) <==> retried && recorded && !fits && OpenStream(cfg, u))
    && (reply == Failed(UpstreamError) <==> !HasResponse(cfg, u) && (mustRecord ==> recorded) && (retried ==> !fits))
  }

  lemma {:induction false} EndIsExact(cfg: Config, w: World, index: nat, turn: Turn)
    ensures EndsExactly(cfg, w, index, turn,
                        EndOf(cfg, w, index, turn.codex, turn.failoverDeadline, turn.times, turn.upstream))
  {
    RetryIsExact(cfg, w, index, turn);
  }

  lemma {:induction false} RetryIsExact(cfg: Config, w: World, index: nat, turn: Turn)
    ensures Retries(cfg, index, turn) <==> MayRetry(cfg, index, turn.codex, turn.failoverDeadline, turn.times, turn.upstream)
    ensures var c := ChanceOf(cfg, turn.upstream, turn.times.limit <= turn.failoverDeadline);
            c.RetryAfter? ==>
              && c.after == AskedWait(turn.upstream)
              && (WaitFits(cfg, w, index, c.after, turn.times.wait) <==> SleepFits(cfg, w, index, turn))
  {
    MaximumDelayIsTheLeast(index + 1, AskedWait(turn.upstream), w.jitter(index));
  }

  lemma {:induction false} ReplyIsExact(cfg: Config, w: World, index: nat, turn: Turn)
    ensures RepliesExactly(cfg, w, index, turn, StopReply(cfg, w, index, turn))
  {
    RetryIsExact(cfg, w, index, turn);
  }

  /** The answer when no attempt is made at this head. */
  function UnsentReply(w: World, index: nat, head: Head): Reply {
    match w.select(index, head.retry, head.excluded)
    case Unavailable => Failed(ServiceUnavailable)
    case NotSelected => if head.last.Some? then Stored(head.last.value) else Failed(SelectionError)
    case Selected(_, _, _) => Failed(RequestError)
  }

  function FirstHead(start: int): Head {
    Head(0, {}, None, None, None, start)
  }

  /** The head after a turn that goes on: only a 429 status clears the retry account. */
  function NextHead(index: nat, turn: Turn): Head {
    var h := turn.head;
    match turn.end
    case Retried(woke) => h.(retries := h.retries + 1, retry := Some(turn.account), failoverDeadline := Some(turn.failoverDeadline), now := woke)
    case FailedOver(true) =>
      h.(excluded := h.excluded + {turn.account}, last := Some(Synthetic429),
         failoverDeadline := Some(turn.failoverDeadline), now := turn.times.failover)
    case FailedOver(false) =>
      h.(excluded := h.excluded + {turn.account}, retry := None, last := Some(Upstream429(index)),
         failoverDeadline := Some(turn.failoverDeadline), now := turn.times.failover)
    case Stopped => h
  }

  function HeadAfter(start: int, log: seq<Turn>): Head {
    if log == [] then FirstHead(start) else NextHead(|log| - 1, log[|log| - 1])
  }

  /** Queueing for a slot does not eat the failover budget. */
  function FailoverDeadline(head: Head, queueWait: nat, selected: int): int {
    if head.failoverDeadline.Some? then head.failoverDeadline.value + queueWait else selected + FAILOVER_START_BUDGET
  }

  ghost predicate TurnOk(cfg: Config, w: World, k: nat, turn: Turn) {
    var s := w.select(k, turn.head.retry, turn.head.excluded);
    && s.Selected?
    && w.builds(k)
    && turn.account == s.account
    && turn.codex == s.codex
    && turn.times == Clock(w, k, turn.head.now)
    && turn.failoverDeadline == FailoverDeadline(turn.head, s.queueWait, turn.times.selected)
    && turn.upstream == w.upstream(k)
    && turn.end == EndOf(cfg, w, k, turn.codex, turn.failoverDeadline, turn.times, turn.upstream)
  }

  ghost predicate GoesOn(log: seq<Turn>) {
    log == [] || !log[|log| - 1].end.Stopped?
  }

  /** The log of a run: every turn starts from the head that the turn before left, and ends as it
      should. */
  ghost predicate Trace(cfg: Config, w: World, start: int, log: seq<Turn>)
    decreases |log|
  {
    log == [] ||
    var n := |log| - 1;
    && Trace(cfg, w, start, log[..n])
    && GoesOn(log[..n])
    && log[n].head == HeadAfter(start, log[..n])
    && TurnOk(cfg, w, n, log[n])
  }

  /** The next attempt finds an account and its request can be built. */
  ghost predicate CanSend(w: World, index: nat, head: Head) {
    w.select(index, head.retry, head.excluded).Selected? && w.builds(index)
  }

  /** A whole run: it stops only at an attempt that ends it, or where nothing more can be sent. */
  ghost predicate Finished(cfg: Config, w: World, start: int, log: seq<Turn>) {
    && Trace(cfg, w, start, log)
    && |log| <= MAX_RETRIES + 1
    && (GoesOn(log) && |log| <= MAX_RETRIES ==> !CanSend(w, |log|, HeadAfter(start, log)))
  }

  lemma {:induction false} TraceGrows(cfg: Config, w: World, start: int, log: seq<Turn>, turn: Turn)
    requires Trace(cfg, w, start, log) && GoesOn(log)
    requires turn.head == HeadAfter(start, log) && TurnOk(cfg, w, |log|, turn)
    ensures Trace(cfg, w, start, log + [turn])
    ensures HeadAfter(start, log + [turn]) == NextHead(|log|, turn)
  {
    assert (log + [turn])[..|log|] == log;
  }

  /** An attempt made at the head of the loop adds its turn to the log. */
  lemma {:induction false} AttemptLogged(cfg: Config, w: World, start: int, log: seq<Turn>, turn: Turn, end: End)
    requires Trace(cfg, w, start, log) && GoesOn(log) && turn.head == HeadAfter(start, log)
    requires CanSend(w, |log|, turn.head)
    requires var s := w.select(|log|, turn.head.retry, turn.head.excluded);
             && turn.account == s.account
             && turn.codex == s.codex
             && turn.failoverDeadline == FailoverDeadline(turn.head, s.queueWait, turn.times.selected)
    requires turn.times == Clock(w, |log|, turn.head.now) && turn.upstream == w.upstream(|log|)
    requires end == EndOf(cfg, w, |log|, turn.codex, turn.failoverDeadline, turn.times, turn.upstream)
    ensures Trace(cfg, w, start, log + [turn.(end := end)])
    ensures HeadAfter(start, log + [turn.(end := end)]) == NextHead(|log|, turn.(end := end))
  {
    TraceGrows(cfg, w, start, log, turn.(end := end));
  }

  datatype Waited = Slept(woke: int) | NoTime | Interrupted

  /** `wait_for_codex_transient_retry`. */
  method WaitForRetry(cfg: Config, w: World, index: nat, after: Option<nat>, now: int) returns (r: Waited)
    ensures r == if !WaitFits(cfg, w, index, after, now) then NoTime
                 else if w.shutsDown(index) then Interrupted
                 else Slept(now + Delay(index + 1, after, w.jitter(index)))
    ensures r.Slept? ==> now + 2 * SECOND <= r.woke <= cfg.retryDeadline
  {
    var delay := Delay(index + 1, after, w.jitter(index));
    var remaining := Max(cfg.retryDeadline - now, 0);
    MaximumDelayIsTheLeast(index + 1, after, w.jitter(index));
    if remaining < delay {
      return NoTime;
    }
    if w.shutsDown(index) {
      return Interrupted;
    }
    return Slept(now + delay);
  }

  /** What the loop does with the outcome of a request that was sent: how the attempt ends, the
      answer if it is the last one, and the loop's variables for the next one. */
  method AfterSend(cfg: Config, w: World, index: nat, turn: Turn) returns (end: End, reply: Reply, next: Head)
    requires turn.end == Stopped
    requires turn.upstream == w.upstream(index)
    ensures end == EndOf(cfg, w, index, turn.codex, turn.failoverDeadline, turn.times, turn.upstream)
    ensures EndsExactly(cfg, w, index, turn, end)
    ensures end.Stopped? ==> reply == StopReply(cfg, w, index, turn) && RepliesExactly(cfg, w, index, turn, reply)
    ensures !end.Stopped? ==> next == NextHead(index, turn.(end := end))
  {
    EndIsExact(cfg, w, index, turn);
    ReplyIsExact(cfg, w, index, turn);
    var account, codex, deadline, t := turn.account, turn.codex, turn.failoverDeadline, turn.times;
    var retries, excluded, retry, last := turn.head.retries, turn.head.excluded, turn.head.retry, turn.head.last;
    end, reply, next := Stopped, Answer(index), turn.head;

    match turn.upstream {
      case NoResponse =>
        if GuardHolds(cfg, index, codex, None, t) {
          if !w.records(index) {
            reply := Failed(DatabaseError);
            return;
          }
          retries := retries + 1;
          retry := Some(account);
          var waited := WaitForRetry(cfg, w, index, None, t.wait);
          match waited {
            case NoTime => reply := Failed(UpstreamError);
            case Interrupted => reply := Failed(ShuttingDown);
            case Slept(woke) =>
              end, next := Retried(woke), Head(retries, excluded, retry, last, Some(deadline), woke);
          }
          return;
        }
        reply := if w.records(index) then Failed(UpstreamError) else Failed(DatabaseError);

      case Refused(status, code, retryAfter, lost) =>
        if lost {
          reply := Failed(UpstreamError);
          return;
        }
        var transient := codex && ServerError(status) && RetryableCode(code);
        if transient && GuardHolds(cfg, index, codex, retryAfter, t) {
          if !w.records(index) {
            reply := Failed(DatabaseError);
            return;
          }
          retries := retries + 1;
          retry := Some(account);
          var waited := WaitForRetry(cfg, w, index, retryAfter, t.wait);
          match waited {
            case NoTime => reply := Answer(index);
            case Interrupted => reply := Failed(ShuttingDown);
            case Slept(woke) =>
              end, next := Retried(woke), Head(retries, excluded, retry, last, Some(deadline), woke);
          }
          return;
        }
        if !w.records(index) {
          reply := Failed(DatabaseError);
          return;
        }
        if transient {
          return;
        }
        if status == 429 && index < 2 && cfg.replaySafe && t.failover <= deadline {
          excluded := excluded + {account};
          retry := None;
          last := Some(Upstream429(index));
          end, next := FailedOver(false), Head(retries, excluded, retry, last, Some(deadline), t.failover);
        }

      case Succeeded(preflight, lost) =>
        if !cfg.stream {
          if lost {
            reply := Failed(UpstreamError);
          } else if !w.records(index) {
            reply := Failed(DatabaseError);
          }
          return;
        }
        match preflight {
          case Broke(started) =>
            if !started && GuardHolds(cfg, index, codex, None, t) {
              if !w.records(index) {
                reply := Failed(DatabaseError);
                return;
              }
              retries := retries + 1;
              retry := Some(account);
              var waited := WaitForRetry(cfg, w, index, None, t.wait);
              match waited {
                case NoTime => reply := Failed(UpstreamError);
                case Interrupted => reply := Failed(ShuttingDown);
                case Slept(woke) =>
                  end, next := Retried(woke), Head(retries, excluded, retry, last, Some(deadline), woke);
              }
              return;
            }
            reply := if w.records(index) then Failed(UpstreamError) else Failed(DatabaseError);

          case Opened(started, found) =>
            if found.None? {
              return;
            }
            var failure := found.value;
            if && failure.retryable
               && !started
               && GuardHolds(cfg, index, codex, failure.retryAfter, t)
               && (!LimitCode(failure.code) || t.limit <= deadline) {
              if !w.records(index) {
                reply := Failed(DatabaseError);
                return;
              }
              retries := retries + 1;
              retry := Some(account);
              var waited := WaitForRetry(cfg, w, index, failure.retryAfter, t.wait);
              match waited {
                case NoTime => reply := Failed(TooManyRequests);
                case Interrupted => reply := Failed(ShuttingDown);
                case Slept(woke) =>
                  end, next := Retried(woke), Head(retries, excluded, retry, last, Some(deadline), woke);
              }
              return;
            }
            if LimitCode(failure.code) && index < 2 && cfg.replaySafe && t.failover <= deadline {
              if !w.records(index) {
                reply := Failed(DatabaseError);
                return;
              }
              excluded := excluded + {account};
              last := Some(Synthetic429);
              end, next := FailedOver(true), Head(retries, excluded, retry, last, Some(deadline), t.failover);
            }
        }
    }
  }

  /** The answer of a finished run. */
  ghost function AnswerOf(cfg: Config, w: World, start: int, log: seq<Turn>): Reply {
    if !GoesOn(log) then StopReply(cfg, w, |log| - 1, log[|log| - 1])
    else if |log| <= MAX_RETRIES then UnsentReply(w, |log|, HeadAfter(start, log))
    else Failed(TooManyRequests)
  }

  lemma {:induction false} StopsHere(cfg: Config, w: World, start: int, log: seq<Turn>, head: Head)
    requires Trace(cfg, w, start, log) && GoesOn(log) && |log| <= MAX_RETRIES && head == HeadAfter(start, log)
    requires !CanSend(w, |log|, head)
    ensures Finished(cfg, w, start, log) && AnswerOf(cfg, w, start, log) == UnsentReply(w, |log|, head)
  {
  }

  lemma {:induction false} EndsHere(cfg: Config, w: World, start: int, log: seq<Turn>, turn: Turn)
    requires Trace(cfg, w, start, log + [turn]) && |log| <= MAX_RETRIES && turn.end.Stopped?
    ensures Finished(cfg, w, start, log + [turn]) && AnswerOf(cfg, w, start, log + [turn]) == StopReply(cfg, w, |log|, turn)
    ensures RepliesExactly(cfg, w, |log|, turn, AnswerOf(cfg, w, start, log + [turn]))
  {
    ReplyIsExact(cfg, w, |log|, turn);
  }

  /** The loop, with the log of its attempts. */
  method Relay(cfg: Config, w: World, start: int) returns (reply: Reply, log: seq<Turn>)
    ensures Finished(cfg, w, start, log)
    ensures !GoesOn(log) ==> RepliesExactly(cfg, w, |log| - 1, log[|log| - 1], reply)
    ensures reply == AnswerOf(cfg, w, start, log)
  {
    var head := FirstHead(start);
    log := [];
    for index := 0 to MAX_RETRIES + 1
      invariant |log| == index
      invariant Trace(cfg, w, start, log)
      invariant GoesOn(log) && HeadAfter(start, log) == head
    {
      var selection := w.select(index, head.retry, head.excluded);
      if !selection.Selected? || !w.builds(index) {
        StopsHere(cfg, w, start, log, head);
      }
      if selection.Unavailable? {
        return Failed(ServiceUnavailable), log;
      }
      if selection.NotSelected? {
        if head.last.Some? {
          return Stored(head.last.value), log;
        }
        return Failed(SelectionError), log;
      }
      var t := Clock(w, index, head.now);
      var deadline := FailoverDeadline(head, selection.queueWait, t.selected);
      if !w.builds(index) {
        return Failed(RequestError), log;
      }
      var turn := Turn(head, selection.account, selection.codex, deadline, t, w.upstream(index), Stopped);
      var end, answer, next := AfterSend(cfg, w, index, turn);
      AttemptLogged(cfg, w, start, log, turn, end);
      if end.Stopped? {
        EndsHere(cfg, w, start, log, turn);
        return answer, log + [turn];
      }
      log := log + [turn.(end := end)];
      head := next;
    }
    return Failed(TooManyRequests), log;
  }
}
