/** The account and limit operations over mutable tables, and the availability invariant they keep. */
module ProviderLimits {
  import opened Wrappers
  import opened LimitTables

  // ---------- What a caller is promised ----------

  /** No account but `a` is touched, and `a` is neither added nor removed. */
  ghost predicate OthersSame(before: map<string, Account>, after: map<string, Account>, a: string) {
    before.Keys == after.Keys && forall b :: b in before && b != a ==> after[b] == before[b]
  }

  /** Exactly the limits that `gone` names are removed; every other row stays as it was. */
  ghost predicate Removes(before: map<nat, Limit>, after: map<nat, Limit>, gone: Limit -> bool) {
    && (forall id :: id in after <==> id in before && !gone(before[id]))
    && (forall id :: id in after ==> after[id] == before[id])
  }

  /** What a status says about an account's limits: none; one of quota for the whole account; one of
      quota, all for single models; some, none of quota. */
  ghost predicate StatusTells(limits: map<nat, Limit>, a: string, status: Status) {
    && (status == Healthy <==> forall id :: id in limits ==> limits[id].account != a)
    && (status == QuotaExhausted
        <==> exists id :: id in limits && limits[id].account == a && limits[id].kind == QuotaLimit && limits[id].scope == AccountScope)
    && (status == PartiallyLimited <==>
          && (exists id :: id in limits && limits[id].account == a && limits[id].kind == QuotaLimit)
          && (forall id :: id in limits && limits[id].account == a && limits[id].kind == QuotaLimit ==> limits[id].scope == ModelScope))
    && (status == RateLimited <==>
          && (exists id :: id in limits && limits[id].account == a)
          && (forall id :: id in limits && limits[id].account == a ==> limits[id].kind == RateLimit))
    && status != Blocked && !status.Other?
  }

  /** A refresh: a block is kept as it is; otherwise the status tells the limits, an account without
      limits has no error, and nothing else of the account changes. */
  ghost predicate TellsLimits(limits: map<nat, Limit>, a: string, before: Account, after: Account) {
    if before.status == Blocked then after == before
    else
      && StatusTells(limits, a, after.status)
      && after.lastError == (if after.status == Healthy then None else before.lastError)
      && after.name == before.name && after.lastUsedAt == before.lastUsedAt
  }

  /** The new limit stands alone in its scope, counted up from the one it replaces; the rows of every
      other scope stay as they were. */
  ghost predicate Replaces(before: map<nat, Limit>, after: map<nat, Limit>, a: string, scope: Scope, key: string, kind: Kind,
                           reason: string, resetAt: Option<int>, now: int)
  {
    && (exists id :: id in after && SameScope(after[id], a, scope, key))
    && (forall i, j :: i in after && j in after && SameScope(after[i], a, scope, key) && SameScope(after[j], a, scope, key) ==> i == j)
    && (forall id :: id in after && SameScope(after[id], a, scope, key) ==>
          && after[id].kind == kind && after[id].reason == reason && after[id].observedAt == now && after[id].resetAt == resetAt
          && after[id].revision == (if id in before then before[id].revision + 1 else 1)
          && (id in before ==> SameScope(before[id], a, scope, key)))
    && (forall id :: id in before && !SameScope(before[id], a, scope, key) ==> id in after && after[id] == before[id])
    && (forall id :: id in after && !SameScope(after[id], a, scope, key) ==> id in before)
  }

  /** When the limits of one scope are looked at again: a quota limit at its reset if that comes within two
      hours and else after two hours, a rate limit at its reset or else after a minute. */
  ghost predicate CheckedInTime(after: map<nat, Limit>, a: string, scope: Scope, key: string, now: int) {
    forall id :: id in after && SameScope(after[id], a, scope, key) ==>
      var l := after[id];
      && (l.resetAt.Some? && (l.kind == RateLimit || l.resetAt.value <= now + 7200 * SECOND) ==> l.nextCheckAt == l.resetAt.value)
      && (l.kind == QuotaLimit && (l.resetAt.None? || l.resetAt.value > now + 7200 * SECOND) ==> l.nextCheckAt == now + 7200 * SECOND)
      && (l.kind == RateLimit && l.resetAt.None? ==> l.nextCheckAt == now + 60 * SECOND)
  }

  /** What a success says of the limits that are left: none; a quota limit, and some limit for the whole account;
      a quota limit, and all for single models; some, none of quota. */
  ghost predicate SuccessTells(limits: map<nat, Limit>, a: string, status: Status) {
    var any := exists id :: id in limits && limits[id].account == a;
    var quota := exists id :: id in limits && limits[id].account == a && limits[id].kind == QuotaLimit;
    var whole := exists id :: id in limits && limits[id].account == a && limits[id].scope == AccountScope;
    && (status == Healthy <==> !any)
    && (status == QuotaExhausted <==> quota && whole)
    && (status == PartiallyLimited <==> quota && !whole)
    && (status == RateLimited <==> any && !quota)
  }

  /** The status a new limit gives: by its kind, and for a quota limit by its scope. */
  predicate LimitTells(kind: Kind, scope: Scope, status: Status) {
    && (kind == RateLimit ==> status == RateLimited)
    && (kind == QuotaLimit && scope == AccountScope ==> status == QuotaExhausted)
    && (kind == QuotaLimit && scope == ModelScope ==> status == PartiallyLimited)
  }

  lemma {:induction false} RefreshTells(t: Tables, a: string)
    ensures OthersSame(t.accounts, Refreshed(t, a).accounts, a)
    ensures a in t.accounts ==> TellsLimits(t.limits, a, t.accounts[a], Refreshed(t, a).accounts[a])
  {
  }

  lemma {:induction false} MarkTells(t: Tables, a: string, status: Status, error: Option<string>, now: int)
    ensures var u := Marked(t, a, status, error, now);
            && OthersSame(t.accounts, u.accounts, a)
            && (a in t.accounts ==> u.accounts[a].lastUsedAt == Some(now) && u.accounts[a].name == t.accounts[a].name)
            && (status == Healthy ==> Removes(t.limits, u.limits, (l: Limit) => l.account == a && l.kind == RateLimit && l.nextCheckAt <= now))
            && (status == Healthy && a in t.accounts ==>
                  && SuccessTells(u.limits, a, u.accounts[a].status)
                  && u.accounts[a].lastError == (if u.accounts[a].status == Healthy then None else t.accounts[a].lastError))
            && (status != Healthy ==>
                  u.limits == t.limits && (a in t.accounts ==> u.accounts[a].status == status && u.accounts[a].lastError == error))
  {
  }

  lemma {:induction false} RecordTells(t: Tables, a: string, upstreamModel: Option<string>, kind: Kind, reason: string,
                                       resetAt: Option<int>, now: int)
    ensures var u := Recorded(t, a, upstreamModel, kind, reason, resetAt, now);
            && OthersSame(t.accounts, u.accounts, a)
            && (a !in t.accounts ==> u.limits == t.limits)
            && (a in t.accounts && t.accounts[a].status == Blocked ==> u.accounts[a] == t.accounts[a])
            && (a in t.accounts && t.accounts[a].status != Blocked ==>
                  && LimitTells(kind, if upstreamModel.Some? then ModelScope else AccountScope, u.accounts[a].status)
                  && u.accounts[a].lastError == Some(reason) && u.accounts[a].lastUsedAt == Some(now)
                  && u.accounts[a].name == t.accounts[a].name)
  {
  }

  /** A new account is healthy, has no error and was never used. */
  lemma {:induction false} CreateTells(t: Tables, a: string, name: string)
    ensures var u := Created(t, a, name);
            && u.limits == t.limits && u.accounts.Keys == t.accounts.Keys + {a}
            && (forall b :: b in t.accounts && b != a ==> u.accounts[b] == t.accounts[b])
            && u.accounts[a].status == Healthy && u.accounts[a].name == name
            && u.accounts[a].lastError == None && u.accounts[a].lastUsedAt == None
  {
  }

  /** Rescheduling moves the next check of exactly the account's limits, and changes nothing else of any. */
  lemma {:induction false} RescheduleTells(t: Tables, a: string, at: int, id: nat)
    ensures var u := Rescheduled(t, a, at);
            && u.accounts == t.accounts && (id in u.limits <==> id in t.limits)
            && (id in t.limits ==>
                  && u.limits[id].(nextCheckAt := t.limits[id].nextCheckAt) == t.limits[id]
                  && u.limits[id].nextCheckAt == (if t.limits[id].account == a then at else t.limits[id].nextCheckAt))
  {
  }

  lemma {:induction false} RecordReplaces(t: Tables, a: string, upstreamModel: Option<string>, kind: Kind, reason: string,
                                          resetAt: Option<int>, now: int)
    requires Inv(t) && a in t.accounts
    ensures var scope := if upstreamModel.Some? then ModelScope else AccountScope;
            var key := if upstreamModel.Some? then upstreamModel.value else "";
            var u := Recorded(t, a, upstreamModel, kind, reason, resetAt, now);
            Replaces(t.limits, u.limits, a, scope, key, kind, reason, resetAt, now) && CheckedInTime(u.limits, a, scope, key, now)
  {
    var scope := if upstreamModel.Some? then ModelScope else AccountScope;
    var key := if upstreamModel.Some? then upstreamModel.value else "";
    var l := Limit(a, scope, key, kind, reason, now, resetAt, NextCheck(kind, resetAt, now), 1);
    UpsertReplaces(t.limits, t.nextLimit, l);
  }

  lemma {:induction false} UpsertReplaces(limits: map<nat, Limit>, next: nat, l: Limit)
    requires OneLimitPerScope(limits) && (forall id :: id in limits ==> id < next) && l.revision == 1
    ensures Replaces(limits, UpsertLimit(limits, next, l), l.account, l.scope, l.scopeKey, l.kind, l.reason, l.resetAt, l.observedAt)
    ensures forall id :: id in UpsertLimit(limits, next, l) && SameScope(UpsertLimit(limits, next, l)[id], l.account, l.scope, l.scopeKey) ==>
              UpsertLimit(limits, next, l)[id].nextCheckAt == l.nextCheckAt
  {
    LimitsAfterUpsert(limits, next, l);
    UpsertKeepsUnique(limits, next, l);
  }

  // ---------- The operations ----------

  class LimitStore {
    var accounts: map<string, Account>
    var limits: map<nat, Limit>
    var nextLimit: nat

    function State(): Tables
      reads this
    {
      Tables(accounts, limits, nextLimit)
    }

    method RefreshAvailability(a: string)
      modifies `accounts
      ensures OthersSame(old(accounts), accounts, a)
      ensures a in accounts ==> TellsLimits(limits, a, old(accounts)[a], accounts[a])
      ensures State() == LimitTables.Refreshed(old(State()), a)
    {
      RefreshTells(State(), a);
      if a in accounts && accounts[a].status != Blocked {
        var error := if HasLimit(limits, a) then accounts[a].lastError else None;
        accounts := accounts[a := accounts[a].(status := RefreshStatus(limits, a), lastError := error)];
      }
    }

    /** A success ends a block, forgets the rate limits that are due, and leaves the account healthy
        exactly when no limit is left. */
    method MarkProviderResult(a: string, status: Status, error: Option<string>, now: int)
      modifies `accounts, `limits
      ensures OthersSame(old(accounts), accounts, a)
      ensures a in accounts ==> accounts[a].lastUsedAt == Some(now) && accounts[a].name == old(accounts)[a].name
      ensures status == Healthy ==> Removes(old(limits), limits, (l: Limit) => l.account == a && l.kind == RateLimit && l.nextCheckAt <= now)
      ensures status == Healthy && a in accounts ==>
                && SuccessTells(limits, a, accounts[a].status)
                && accounts[a].lastError == (if accounts[a].status == Healthy then None else old(accounts)[a].lastError)
      ensures status != Healthy ==> limits == old(limits) && (a in accounts ==> accounts[a].status == status && accounts[a].lastError == error)
      ensures old(Inv(State())) && (status == Healthy || status == Blocked) ==> Inv(State())
      ensures State() == Marked(old(State()), a, status, error, now)
    {
      if status == Healthy || status == Blocked {
        KeepsIfKept(State(), Mark(a, status, error, now));
      }
      MarkTells(State(), a, status, error, now);
      if status == Healthy {
        limits := map id | id in limits && !DueRateLimit(limits[id], a, now) :: limits[id];
        if a in accounts {
          var kept := if HasLimit(limits, a) then accounts[a].lastError else None;
          accounts := accounts[a := accounts[a].(status := SuccessStatus(limits, a), lastError := kept,
                                                 lastUsedAt := Some(now))];
        }
      } else if a in accounts {
        accounts := accounts[a := accounts[a].(status := status, lastError := error, lastUsedAt := Some(now))];
      }
    }

    /** The limit of the scope is replaced and no other; a block withstands it; a limit for an unknown
        account changes nothing. */
    method RecordProviderLimit(a: string, upstreamModel: Option<string>, kind: Kind, reason: string,
                               resetAt: Option<int>, now: int)
      modifies this
      ensures OthersSame(old(accounts), accounts, a)
      ensures a !in accounts ==> limits == old(limits)
      ensures a in accounts && old(Inv(State())) ==>
                var scope := if upstreamModel.Some? then ModelScope else AccountScope;
                var key := if upstreamModel.Some? then upstreamModel.value else "";
                && Replaces(old(limits), limits, a, scope, key, kind, reason, resetAt, now)
                && CheckedInTime(limits, a, scope, key, now)
      ensures a in accounts && old(accounts)[a].status == Blocked ==> accounts[a] == old(accounts)[a]
      ensures a in accounts && old(accounts)[a].status != Blocked ==>
                && LimitTells(kind, if upstreamModel.Some? then ModelScope else AccountScope, accounts[a].status)
                && accounts[a].lastError == Some(reason) && accounts[a].lastUsedAt == Some(now)
                && accounts[a].name == old(accounts)[a].name
      ensures old(Inv(State())) ==> Inv(State())
      ensures State() == Recorded(old(State()), a, upstreamModel, kind, reason, resetAt, now)
    {
      KeepsIfKept(State(), Record(a, upstreamModel, kind, reason, resetAt, now));
      RecordTells(State(), a, upstreamModel, kind, reason, resetAt, now);
      if Inv(State()) && a in accounts {
        RecordReplaces(State(), a, upstreamModel, kind, reason, resetAt, now);
      }
      var scope := if upstreamModel.Some? then ModelScope else AccountScope;
      var key := if upstreamModel.Some? then upstreamModel.value else "";
      if a !in accounts {
        return;
      }
      var l := Limit(a, scope, key, kind, reason, now, resetAt, NextCheck(kind, resetAt, now), 1);
      limits := UpsertLimit(limits, nextLimit, l);
      nextLimit := nextLimit + 1;
      if accounts[a].status != Blocked {
        accounts := accounts[a := accounts[a].(status := LimitStatus(kind, scope), lastError := Some(reason),
                                               lastUsedAt := Some(now))];
      }
    }

    /** No limit of the account is left and no other row is touched; unless blocked it is healthy. */
    method ClearProviderLimits(a: string)
      modifies this
      ensures OthersSame(old(accounts), accounts, a)
      ensures Removes(old(limits), limits, (l: Limit) => l.account == a)
      ensures a in accounts ==> TellsLimits(limits, a, old(accounts)[a], accounts[a])
      ensures a in accounts && old(accounts)[a].status != Blocked ==> accounts[a].status == Healthy && accounts[a].lastError == None
      ensures old(Inv(State())) ==> Inv(State())
      ensures State() == Cleared(old(State()), a)
    {
      KeepsIfKept(State(), Clear(a));
      limits := map id | id in limits && limits[id].account != a :: limits[id];
      RefreshAvailability(a);
    }

    /** Only the quota limits of the account go; unless blocked it is healthy or rate limited. */
    method ClearProviderQuotaLimits(a: string)
      modifies this
      ensures OthersSame(old(accounts), accounts, a)
      ensures Removes(old(limits), limits, (l: Limit) => l.account == a && l.kind == QuotaLimit)
      ensures a in accounts ==> TellsLimits(limits, a, old(accounts)[a], accounts[a])
      ensures a in accounts && old(accounts)[a].status != Blocked ==> accounts[a].status in {Healthy, RateLimited}
      ensures old(Inv(State())) ==> Inv(State())
      ensures State() == QuotaCleared(old(State()), a)
    {
      KeepsIfKept(State(), ClearQuota(a));
      limits := map id | id in limits && !(limits[id].account == a && limits[id].kind == QuotaLimit) :: limits[id];
      RefreshAvailability(a);
    }

    /** Only the due limits of the account, for all of it or for the model, go. */
    method ClearDueProviderLimits(a: string, upstreamModel: string, now: int)
      modifies this
      ensures OthersSame(old(accounts), accounts, a)
      ensures Removes(old(limits), limits, (l: Limit) => l.account == a && l.nextCheckAt <= now && (l.scope == AccountScope || l.scopeKey == upstreamModel))
      ensures forall id :: id in limits && limits[id].account == a && limits[id].nextCheckAt <= now ==>
                limits[id].scope == ModelScope && limits[id].scopeKey != upstreamModel
      ensures a in accounts ==> TellsLimits(limits, a, old(accounts)[a], accounts[a])
      ensures old(Inv(State())) ==> Inv(State())
      ensures State() == DueCleared(old(State()), a, upstreamModel, now)
    {
      KeepsIfKept(State(), ClearDue(a, upstreamModel, now));
      limits := map id | id in limits && !Due(limits[id], a, upstreamModel, now) :: limits[id];
      RefreshAvailability(a);
    }

    /** An edit ends a block; the status then tells the limits, which stay, and the error is gone. */
    method UpdateProviderAccount(a: string, name: string)
      modifies this
      ensures OthersSame(old(accounts), accounts, a) && limits == old(limits)
      ensures a in accounts ==>
                && StatusTells(limits, a, accounts[a].status)
                && accounts[a].lastError == None && accounts[a].name == name && accounts[a].lastUsedAt == old(accounts)[a].lastUsedAt
      ensures old(Inv(State())) ==> Inv(State())
      ensures State() == Updated(old(State()), a, name)
    {
      KeepsIfKept(State(), Update(a, name));
      if a in accounts {
        accounts := accounts[a := accounts[a].(status := Healthy, lastError := None, name := name)];
        RefreshAvailability(a);
      }
    }
  }

  // ---------- Runs ----------

  datatype Op =
    | Create(a: string, name: string)
    | Mark(a: string, status: Status, error: Option<string>, now: int)
    | Record(a: string, upstreamModel: Option<string>, kind: Kind, reason: string, resetAt: Option<int>, now: int)
    | Clear(a: string)
    | ClearQuota(a: string)
    | ClearDue(a: string, model: string, now: int)
    | Update(a: string, name: string)
    | Reschedule(a: string, nextCheckAt: int)
    | Delete(a: string)

  /** A new account has a fresh id, and callers report no result but `healthy` or `blocked`. */
  predicate Enabled(t: Tables, op: Op) {
    match op
    case Create(a, _) => a !in t.accounts
    case Mark(_, status, _, _) => status == Healthy || status == Blocked
    case _ => true
  }

  function Step(t: Tables, op: Op): Tables {
    match op
    case Create(a, name) => Created(t, a, name)
    case Mark(a, status, error, now) => Marked(t, a, status, error, now)
    case Record(a, m, kind, reason, resetAt, now) => Recorded(t, a, m, kind, reason, resetAt, now)
    case Clear(a) => Cleared(t, a)
    case ClearQuota(a) => QuotaCleared(t, a)
    case ClearDue(a, m, now) => DueCleared(t, a, m, now)
    case Update(a, name) => Updated(t, a, name)
    case Reschedule(a, at) => Rescheduled(t, a, at)
    case Delete(a) => Deleted(t, a)
  }

  /** Healthy exactly when unlimited, unless blocked; and no stale error on a healthy account. */
  predicate Available(t: Tables, a: string) {
    a in t.accounts && t.accounts[a].status != Blocked ==>
      && (t.accounts[a].status == Healthy <==> !HasLimit(t.limits, a))
      && (t.accounts[a].status == Healthy ==> t.accounts[a].lastError == None)
  }

  ghost predicate OneLimitPerScope(limits: map<nat, Limit>) {
    forall i, j :: i in limits && j in limits && i != j ==>
                     !SameScope(limits[i], limits[j].account, limits[j].scope, limits[j].scopeKey)
  }

  ghost predicate Inv(t: Tables) {
    && (forall a :: Available(t, a))
    && OneLimitPerScope(t.limits)
    && (forall id :: id in t.limits ==> id < t.nextLimit && t.limits[id].account in t.accounts)
  }

  lemma {:induction false} RefreshRestores(t: Tables, a: string)
    requires forall b :: b != a ==> Available(t, b)
    ensures forall b :: Available(Refreshed(t, a), b)
  {
    forall b ensures Available(Refreshed(t, a), b) {
      assert b != a ==> Available(t, b);
    }
  }

  /** Limits of other accounts are the same rows before and after. */
  ghost predicate OthersKept(limits: map<nat, Limit>, left: map<nat, Limit>, a: string) {
    forall b :: b != a ==> (HasLimit(left, b) <==> HasLimit(limits, b))
  }

  lemma {:induction false} DroppingOwnKeepsOthers(limits: map<nat, Limit>, left: map<nat, Limit>, a: string)
    requires forall id :: id in left ==> id in limits && left[id] == limits[id]
    requires forall id :: id in limits && limits[id].account != a ==> id in left
    ensures OthersKept(limits, left, a)
  {
    forall b | b != a ensures HasLimit(left, b) <==> HasLimit(limits, b) {
      if HasLimit(limits, b) {
        var id :| id in limits && limits[id].account == b;
        assert left[id].account == b;
      }
      if HasLimit(left, b) {
        var id :| id in left && left[id].account == b;
        assert limits[id].account == b;
      }
    }
  }

  /** Dropping some of an account's limits and refreshing it. */
  lemma {:induction false} ClearingKeeps(t: Tables, left: map<nat, Limit>, a: string)
    requires Inv(t)
    requires forall id :: id in left ==> id in t.limits && left[id] == t.limits[id]
    requires forall id :: id in t.limits && t.limits[id].account != a ==> id in left
    ensures Inv(Refreshed(t.(limits := left), a))
  {
    var u := t.(limits := left);
    DroppingOwnKeepsOthers(t.limits, left, a);
    forall b | b != a ensures Available(u, b) {
      assert Available(t, b);
    }
    RefreshRestores(u, a);
  }

  lemma {:induction false} MarkKeeps(t: Tables, a: string, status: Status, error: Option<string>, now: int)
    requires Inv(t) && Enabled(t, Mark(a, status, error, now))
    ensures Inv(Marked(t, a, status, error, now))
  {
    var u := Marked(t, a, status, error, now);
    if status == Healthy {
      DroppingOwnKeepsOthers(t.limits, u.limits, a);
    }
    forall b ensures Available(u, b) {
      assert Available(t, b);
    }
  }

  lemma {:induction false} UpsertKeepsUnique(limits: map<nat, Limit>, next: nat, l: Limit)
    requires OneLimitPerScope(limits) && forall id :: id in limits ==> id < next
    ensures OneLimitPerScope(UpsertLimit(limits, next, l))
    ensures HasLimit(UpsertLimit(limits, next, l), l.account)
    ensures OthersKept(limits, UpsertLimit(limits, next, l), l.account)
  {
    var after := UpsertLimit(limits, next, l);
    if exists id :: id in limits && SameScope(limits[id], l.account, l.scope, l.scopeKey) {
      var id :| id in limits && SameScope(limits[id], l.account, l.scope, l.scopeKey);
      assert after[id].account == l.account;
    } else {
      assert after[next].account == l.account;
    }
    forall b | b != l.account ensures HasLimit(after, b) <==> HasLimit(limits, b) {
      if HasLimit(limits, b) {
        var id :| id in limits && limits[id].account == b;
        assert after[id].account == b;
      }
      if HasLimit(after, b) {
        var id :| id in after && after[id].account == b;
        assert limits[id].account == b;
      }
    }
  }

  lemma {:induction false} RecordKeeps(t: Tables, op: Op)
    requires Inv(t) && op.Record?
    ensures Inv(Step(t, op))
  {
    if op.a in t.accounts {
      var u := Step(t, op);
      var scope := if op.upstreamModel.Some? then ModelScope else AccountScope;
      var key := if op.upstreamModel.Some? then op.upstreamModel.value else "";
      UpsertKeepsUnique(t.limits, t.nextLimit,
                        Limit(op.a, scope, key, op.kind, op.reason, op.now, op.resetAt,
                              NextCheck(op.kind, op.resetAt, op.now), 1));
      forall b ensures Available(u, b) {
        assert Available(t, b);
      }
    }
  }

  lemma {:induction false} RescheduleKeeps(t: Tables, a: string, at: int)
    requires Inv(t)
    ensures Inv(Rescheduled(t, a, at))
  {
    var u := Rescheduled(t, a, at);
    forall b ensures Available(u, b) {
      assert Available(t, b);
      if HasLimit(t.limits, b) {
        var id :| id in t.limits && t.limits[id].account == b;
        assert u.limits[id].account == b;
      }
      if HasLimit(u.limits, b) {
        var id :| id in u.limits && u.limits[id].account == b;
        assert t.limits[id].account == b;
      }
    }
  }

  lemma {:induction false} UpdateKeeps(t: Tables, a: string, name: string)
    requires Inv(t)
    ensures Inv(Updated(t, a, name))
  {
    if a in t.accounts {
      var u := t.(accounts := t.accounts[a := t.accounts[a].(status := Healthy, lastError := None, name := name)]);
      forall b | b != a ensures Available(u, b) {
        assert Available(t, b);
      }
      RefreshRestores(u, a);
    }
  }

  lemma {:induction false} DeleteKeeps(t: Tables, a: string)
    requires Inv(t)
    ensures Inv(Deleted(t, a))
  {
    var u := Deleted(t, a);
    DroppingOwnKeepsOthers(t.limits, u.limits, a);
    forall b ensures Available(u, b) {
      assert Available(t, b);
    }
  }

  lemma {:induction false} CreateKeeps(t: Tables, a: string, name: string)
    requires Inv(t) && a !in t.accounts
    ensures Inv(Created(t, a, name))
  {
    forall b ensures Available(Created(t, a, name), b) {
      assert Available(t, b);
    }
  }

  lemma {:induction false} StepKeeps(t: Tables, op: Op)
    requires Inv(t) && Enabled(t, op)
    ensures Inv(Step(t, op))
  {
    match op
    case Create(a, name) => CreateKeeps(t, a, name);
    case Mark(a, status, error, now) => MarkKeeps(t, a, status, error, now);
    case Record(_, _, _, _, _, _) => RecordKeeps(t, op);
    case Clear(a) =>
      ClearingKeeps(t, map id | id in t.limits && t.limits[id].account != a :: t.limits[id], a);
    case ClearQuota(a) =>
      ClearingKeeps(t, map id | id in t.limits && !(t.limits[id].account == a && t.limits[id].kind == QuotaLimit)
                         :: t.limits[id], a);
    case ClearDue(a, m, now) =>
      ClearingKeeps(t, map id | id in t.limits && !Due(t.limits[id], a, m, now) :: t.limits[id], a);
    case Update(a, name) => UpdateKeeps(t, a, name);
    case Reschedule(a, at) => RescheduleKeeps(t, a, at);
    case Delete(a) => DeleteKeeps(t, a);
  }

  const EMPTY := Tables(map[], map[], 0)

  lemma {:induction false} KeepsIfKept(t: Tables, op: Op)
    requires Enabled(t, op)
    ensures Inv(t) ==> Inv(Step(t, op))
  {
    if Inv(t) {
      StepKeeps(t, op);
    }
  }

  function Run(t: Tables, ops: seq<Op>): Tables
    decreases |ops|
  {
    if ops == [] then t else Run(Step(t, ops[0]), ops[1..])
  }

  predicate Allowed(t: Tables, ops: seq<Op>)
    decreases |ops|
  {
    ops != [] ==> Enabled(t, ops[0]) && Allowed(Step(t, ops[0]), ops[1..])
  }

  lemma {:induction false} RunKeeps(t: Tables, ops: seq<Op>)
    requires Inv(t) && Allowed(t, ops)
    ensures Inv(Run(t, ops))
    decreases |ops|
  {
    if ops != [] {
      StepKeeps(t, ops[0]);
      RunKeeps(Step(t, ops[0]), ops[1..]);
    }
  }

  /** Over every sequence of operations: an account that is not blocked is healthy exactly when it has
      no limit rows, and there is at most one limit per account, scope and key. */
  lemma {:induction false} AvailabilityInvariant(ops: seq<Op>, a: string)
    requires Allowed(EMPTY, ops)
    ensures var t := Run(EMPTY, ops);
            && (a in t.accounts && t.accounts[a].status != Blocked ==>
                  (t.accounts[a].status == Healthy <==> !HasLimit(t.limits, a)))
            && OneLimitPerScope(t.limits)
  {
    RunKeeps(EMPTY, ops);
    assert Available(Run(EMPTY, ops), a);
  }

  /** Only a successful call, an edit of the account or its deletion ends a block; recording and
      clearing limits never do, and no operation blocks an account but a `blocked` result for it. */
  lemma {:induction false} WhoEndsABlock(t: Tables, op: Op, a: string)
    requires Enabled(t, op) && a in t.accounts && a in Step(t, op).accounts
    ensures t.accounts[a].status == Blocked && Step(t, op).accounts[a].status != Blocked ==>
              op.a == a && ((op.Mark? && op.status == Healthy) || op.Update?)
    ensures t.accounts[a].status != Blocked && Step(t, op).accounts[a].status == Blocked ==>
              op.a == a && op.Mark? && op.status == Blocked
  {
  }

  /** The invariant survives a result only because callers report nothing else: any other status for
      an account breaks it exactly when the account has no limits. */
  lemma {:induction false} OtherResultsNeedLimits(t: Tables, a: string, status: Status, error: Option<string>, now: int)
    requires Inv(t) && a in t.accounts && status != Healthy && status != Blocked
    ensures Inv(Marked(t, a, status, error, now)) <==> HasLimit(t.limits, a)
  {
    var u := Marked(t, a, status, error, now);
    if HasLimit(t.limits, a) {
      forall b ensures Available(u, b) {
        assert Available(t, b);
      }
    } else {
      assert !Available(u, a);
    }
  }

  /** The two status rules differ in one situation: a model-level quota limit beside an account-level
      rate limit and no account-level quota limit. */
  lemma {:induction false} StatusRulesAgree(limits: map<nat, Limit>, a: string)
    ensures SuccessStatus(limits, a) == RefreshStatus(limits, a)
            <==> !(HasQuotaLimit(limits, a) && HasAccountLimit(limits, a) && !HasAccountQuotaLimit(limits, a))
  {
    if HasAccountQuotaLimit(limits, a) {
      var id :| id in limits && limits[id].account == a && limits[id].kind == QuotaLimit
                && limits[id].scope == AccountScope;
      assert HasQuotaLimit(limits, a) && HasAccountLimit(limits, a);
    }
  }

  /** A quota limit of the account other than the one that a record for `scope` and `key` replaces. */
  predicate OtherQuotaLimit(limits: map<nat, Limit>, a: string, scope: Scope, key: string) {
    exists id :: id in limits && limits[id].account == a && limits[id].kind == QuotaLimit && !SameScope(limits[id], a, scope, key)
  }

  /** Recording a limit looks at the new limit only: the status it leaves is the one a refresh would
      compute exactly when no other limit of the account outranks the new one. */
  lemma {:induction false} RecordedStatusAgrees(t: Tables, a: string, upstreamModel: Option<string>, kind: Kind,
                                                reason: string, resetAt: Option<int>, now: int)
    requires Inv(t) && a in t.accounts && t.accounts[a].status != Blocked
    ensures var u := Recorded(t, a, upstreamModel, kind, reason, resetAt, now);
            var scope := if upstreamModel.Some? then ModelScope else AccountScope;
            var key := if upstreamModel.Some? then upstreamModel.value else "";
            u.accounts[a].status == RefreshStatus(u.limits, a)
            <==> if kind == RateLimit then !OtherQuotaLimit(t.limits, a, scope, key)
                 else scope == AccountScope || !HasAccountQuotaLimit(t.limits, a)
  {
    var scope := if upstreamModel.Some? then ModelScope else AccountScope;
    var key := if upstreamModel.Some? then upstreamModel.value else "";
    var l := Limit(a, scope, key, kind, reason, now, resetAt, NextCheck(kind, resetAt, now), 1);
    LimitsAfterUpsert(t.limits, t.nextLimit, l);
    StatusAfterUpsert(t.limits, UpsertLimit(t.limits, t.nextLimit, l), l);
  }

  /** The new limit, and the limits of other scopes as they were. */
  ghost predicate Upserts(limits: map<nat, Limit>, after: map<nat, Limit>, l: Limit) {
    && (exists id :: id in after && SameScope(after[id], l.account, l.scope, l.scopeKey))
    && (forall id :: id in after && SameScope(after[id], l.account, l.scope, l.scopeKey) ==> after[id].kind == l.kind)
    && (forall id :: id in limits && !SameScope(limits[id], l.account, l.scope, l.scopeKey) ==>
          id in after && after[id] == limits[id])
    && (forall id :: id in after && !SameScope(after[id], l.account, l.scope, l.scopeKey) ==>
          id in limits && after[id] == limits[id])
  }

  lemma {:induction false} LimitsAfterUpsert(limits: map<nat, Limit>, next: nat, l: Limit)
    requires forall id :: id in limits ==> id < next
    ensures Upserts(limits, UpsertLimit(limits, next, l), l)
  {
    var after := UpsertLimit(limits, next, l);
    if id :| id in limits && SameScope(limits[id], l.account, l.scope, l.scopeKey) {
      assert SameScope(after[id], l.account, l.scope, l.scopeKey);
    } else {
      assert SameScope(after[next], l.account, l.scope, l.scopeKey);
    }
  }

  lemma {:induction false} StatusAfterUpsert(limits: map<nat, Limit>, after: map<nat, Limit>, l: Limit)
    requires Upserts(limits, after, l)
    ensures LimitStatus(l.kind, l.scope) == RefreshStatus(after, l.account)
            <==> if l.kind == RateLimit then !OtherQuotaLimit(limits, l.account, l.scope, l.scopeKey)
                 else l.scope == AccountScope || !HasAccountQuotaLimit(limits, l.account)
  {
    var id :| id in after && SameScope(after[id], l.account, l.scope, l.scopeKey);
    if l.kind == RateLimit {
      assert HasQuotaLimit(after, l.account) <==> OtherQuotaLimit(limits, l.account, l.scope, l.scopeKey);
    } else if l.scope == ModelScope {
      assert HasAccountQuotaLimit(after, l.account) <==> HasAccountQuotaLimit(limits, l.account);
    }
  }

  /** The disagreement is real: after a quota limit for an account and then a rate limit for one model
      of it, the account reads as rate limited, and a refresh would call it exhausted. */
  lemma {:induction false} RecordedStatusCanDisagree()
    ensures var ops := [Create("a", ""), Record("a", None, QuotaLimit, "q", None, 0), Record("a", Some("m"), RateLimit, "r", None, 0)];
            var t := Run(EMPTY, ops);
            && Allowed(EMPTY, ops)
            && t.accounts["a"].status == RateLimited
            && RefreshStatus(t.limits, "a") == QuotaExhausted
  {
    var ops := [Create("a", ""), Record("a", None, QuotaLimit, "q", None, 0), Record("a", Some("m"), RateLimit, "r", None, 0)];
    var t := ThreeSteps(ops);
    assert t.limits[0].scope == AccountScope && t.limits[0].kind == QuotaLimit;
  }

  /** So is the other one: a quota limit for one model, a rate limit for the account that is not due, and
      a success reads as exhausted; a refresh would call it partially limited. */
  lemma {:induction false} SuccessStatusCanDisagree()
    ensures var ops := [Create("a", ""), Record("a", Some("m"), QuotaLimit, "q", None, 0), Record("a", None, RateLimit, "r", None, 0),
                        Mark("a", Healthy, None, 1)];
            var t := Run(EMPTY, ops);
            && Allowed(EMPTY, ops)
            && t.accounts["a"].status == QuotaExhausted
            && RefreshStatus(t.limits, "a") == PartiallyLimited
  {
    var ops := [Create("a", ""), Record("a", Some("m"), QuotaLimit, "q", None, 0), Record("a", None, RateLimit, "r", None, 0)];
    var mark := Mark("a", Healthy, None, 1);
    var t := ThreeSteps(ops);
    RunSnoc(EMPTY, ops, mark);
    assert ops + [mark] == [ops[0], ops[1], ops[2], mark];
    TwoLimits(t.limits);
    assert Step(t, mark).limits == t.limits;
  }

  lemma {:induction false} TwoLimits(limits: map<nat, Limit>)
    requires limits.Keys == {0, 1} && limits[0].account == limits[1].account == "a"
    requires limits[0].scope == ModelScope && limits[0].kind == QuotaLimit
    requires limits[1].scope == AccountScope && limits[1].kind == RateLimit
    ensures RefreshStatus(limits, "a") == PartiallyLimited && SuccessStatus(limits, "a") == QuotaExhausted
  {
  }

  lemma {:induction false} RunSnoc(t: Tables, ops: seq<Op>, op: Op)
    requires Allowed(t, ops) && Enabled(Run(t, ops), op)
    decreases |ops|
    ensures Run(t, ops + [op]) == Step(Run(t, ops), op) && Allowed(t, ops + [op])
  {
    if ops == [] {
      assert (ops + [op])[1..] == [];
    } else {
      assert (ops + [op])[1..] == ops[1..] + [op];
      RunSnoc(Step(t, ops[0]), ops[1..], op);
    }
  }

  lemma {:induction false} ThreeSteps(ops: seq<Op>) returns (t: Tables)
    requires |ops| == 3 && Enabled(EMPTY, ops[0]) && Enabled(Step(EMPTY, ops[0]), ops[1])
    requires Enabled(Step(Step(EMPTY, ops[0]), ops[1]), ops[2])
    ensures t == Step(Step(Step(EMPTY, ops[0]), ops[1]), ops[2])
    ensures Run(EMPTY, ops) == t && Allowed(EMPTY, ops)
  {
    t := Step(Step(Step(EMPTY, ops[0]), ops[1]), ops[2]);
    assert ops[1..][1..] == ops[2..] && ops[2..][1..] == [] && ops[1..][0] == ops[1] && ops[2..][0] == ops[2];
    assert Run(t, []) == t && Allowed(t, []);
    var t2 := Step(Step(EMPTY, ops[0]), ops[1]);
    assert Run(t2, ops[2..]) == t && Allowed(t2, ops[2..]);
    assert Run(Step(EMPTY, ops[0]), ops[1..]) == t && Allowed(Step(EMPTY, ops[0]), ops[1..]);
  }
}
