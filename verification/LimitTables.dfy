/** Provider accounts and their recorded limits, and what each operation makes of them. */
module LimitTables {
  import opened Wrappers

  const SECOND: int := 1_000_000_000
  const QUOTA_CHECK: int := 7200 * SECOND
  const RATE_CHECK: int := 60 * SECOND

  datatype Status = Healthy | RateLimited | QuotaExhausted | PartiallyLimited | Blocked | Other(text: string)

  datatype Kind = RateLimit | QuotaLimit

  datatype Scope = AccountScope | ModelScope

  datatype Account = Account(status: Status, lastError: Option<string>, lastUsedAt: Option<int>, name: string)

  datatype Limit = Limit(account: string, scope: Scope, scopeKey: string, kind: Kind, reason: string,
                         observedAt: int, resetAt: Option<int>, nextCheckAt: int, revision: nat)

  /** `limits` is keyed by row id; the unique triple is a constraint the upsert relies on. */
  datatype Tables = Tables(accounts: map<string, Account>, limits: map<nat, Limit>, nextLimit: nat)

  predicate SameScope(l: Limit, a: string, scope: Scope, scopeKey: string) {
    l.account == a && l.scope == scope && l.scopeKey == scopeKey
  }

  predicate HasLimit(limits: map<nat, Limit>, a: string) {
    exists id :: id in limits && limits[id].account == a
  }

  predicate HasQuotaLimit(limits: map<nat, Limit>, a: string) {
    exists id :: id in limits && limits[id].account == a && limits[id].kind == QuotaLimit
  }

  predicate HasAccountQuotaLimit(limits: map<nat, Limit>, a: string) {
    exists id :: id in limits && limits[id].account == a && limits[id].kind == QuotaLimit
                 && limits[id].scope == AccountScope
  }

  predicate HasAccountLimit(limits: map<nat, Limit>, a: string) {
    exists id :: id in limits && limits[id].account == a && limits[id].scope == AccountScope
  }

  /** The status `refresh_provider_availability` computes for an account that is not blocked. */
  function RefreshStatus(limits: map<nat, Limit>, a: string): Status {
    if HasAccountQuotaLimit(limits, a) then QuotaExhausted
    else if HasQuotaLimit(limits, a) then PartiallyLimited
    else if HasLimit(limits, a) then RateLimited
    else Healthy
  }

  /** The status a successful call computes. */
  function SuccessStatus(limits: map<nat, Limit>, a: string): Status {
    if HasQuotaLimit(limits, a) then (if HasAccountLimit(limits, a) then QuotaExhausted else PartiallyLimited)
    else if HasLimit(limits, a) then RateLimited
    else Healthy
  }

  function Refreshed(t: Tables, a: string): Tables {
    if a !in t.accounts || t.accounts[a].status == Blocked then t
    else
      var error := if HasLimit(t.limits, a) then t.accounts[a].lastError else None;
      t.(accounts := t.accounts[a := t.accounts[a].(status := RefreshStatus(t.limits, a), lastError := error)])
  }

  function Created(t: Tables, a: string, name: string): Tables {
    t.(accounts := t.accounts[a := Account(Healthy, None, None, name)])
  }

  predicate DueRateLimit(l: Limit, a: string, now: int) {
    l.account == a && l.kind == RateLimit && l.nextCheckAt <= now
  }

  function MarkedHealthy(t: Tables, a: string, now: int): Tables {
    var limits := map id | id in t.limits && !DueRateLimit(t.limits[id], a, now) :: t.limits[id];
    var u := t.(limits := limits);
    if a !in t.accounts then u
    else
      var error := if HasLimit(limits, a) then t.accounts[a].lastError else None;
      u.(accounts := t.accounts[a := t.accounts[a].(status := SuccessStatus(limits, a), lastError := error,
                                                    lastUsedAt := Some(now))])
  }

  function Marked(t: Tables, a: string, status: Status, error: Option<string>, now: int): Tables {
    if status == Healthy then MarkedHealthy(t, a, now)
    else if a !in t.accounts then t
    else t.(accounts := t.accounts[a := t.accounts[a].(status := status, lastError := error, lastUsedAt := Some(now))])
  }

  function NextCheck(kind: Kind, resetAt: Option<int>, now: int): int {
    match kind
    case QuotaLimit =>
      if resetAt.Some? && resetAt.value < now + QUOTA_CHECK then resetAt.value else now + QUOTA_CHECK
    case RateLimit => if resetAt.Some? then resetAt.value else now + RATE_CHECK
  }

  function LimitStatus(kind: Kind, scope: Scope): Status {
    if kind == QuotaLimit then (if scope == AccountScope then QuotaExhausted else PartiallyLimited) else RateLimited
  }

  /** `ON CONFLICT(account, scope, key) DO UPDATE`. */
  function UpsertLimit(limits: map<nat, Limit>, next: nat, l: Limit): map<nat, Limit> {
    if exists id :: id in limits && SameScope(limits[id], l.account, l.scope, l.scopeKey) then
      map id | id in limits ::
        if SameScope(limits[id], l.account, l.scope, l.scopeKey) then l.(revision := limits[id].revision + 1)
        else limits[id]
    else limits[next := l]
  }

  /** A limit for an unknown account breaks the foreign key and changes nothing. */
  function Recorded(t: Tables, a: string, upstreamModel: Option<string>, kind: Kind, reason: string,
                    resetAt: Option<int>, now: int): Tables
  {
    if a !in t.accounts then t
    else
      var scope := if upstreamModel.Some? then ModelScope else AccountScope;
      var key := if upstreamModel.Some? then upstreamModel.value else "";
      var l := Limit(a, scope, key, kind, reason, now, resetAt, NextCheck(kind, resetAt, now), 1);
      var u := t.(limits := UpsertLimit(t.limits, t.nextLimit, l), nextLimit := t.nextLimit + 1);
      if t.accounts[a].status == Blocked then u
      else u.(accounts := t.accounts[a := t.accounts[a].(status := LimitStatus(kind, scope), lastError := Some(reason),
                                                         lastUsedAt := Some(now))])
  }

  function Cleared(t: Tables, a: string): Tables {
    Refreshed(t.(limits := map id | id in t.limits && t.limits[id].account != a :: t.limits[id]), a)
  }

  function QuotaCleared(t: Tables, a: string): Tables {
    Refreshed(t.(limits := map id | id in t.limits && !(t.limits[id].account == a && t.limits[id].kind == QuotaLimit)
                             :: t.limits[id]), a)
  }

  predicate Due(l: Limit, a: string, upstreamModel: string, now: int) {
    && l.account == a && l.nextCheckAt <= now
    && (l.scope == AccountScope || (l.scope == ModelScope && l.scopeKey == upstreamModel))
  }

  function DueCleared(t: Tables, a: string, upstreamModel: string, now: int): Tables {
    Refreshed(t.(limits := map id | id in t.limits && !Due(t.limits[id], a, upstreamModel, now) :: t.limits[id]), a)
  }

  function Updated(t: Tables, a: string, name: string): Tables {
    if a !in t.accounts then t
    else Refreshed(t.(accounts := t.accounts[a := t.accounts[a].(status := Healthy, lastError := None, name := name)]), a)
  }

  function Rescheduled(t: Tables, a: string, nextCheckAt: int): Tables {
    t.(limits := map id | id in t.limits ::
         if t.limits[id].account == a then t.limits[id].(nextCheckAt := nextCheckAt) else t.limits[id])
  }

  /** Deleting an account cascades to its limits. */
  function Deleted(t: Tables, a: string): Tables {
    t.(accounts := t.accounts - {a},
       limits := map id | id in t.limits && t.limits[id].account != a :: t.limits[id])
  }
}
