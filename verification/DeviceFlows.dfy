/** The device login flows: the values behind the lock and what each lock section does to them,
    and the store that is updated in place. Instants and durations are in nanoseconds. */
module DeviceFlows {
  import opened Wrappers

  const SECOND := 1_000_000_000
  const FLOW_TTL := 15 * 60 * SECOND
  const CLEANUP_GRACE := 5 * 60 * SECOND
  const EXPIRED_TEXT := "Codex device login expired; start again"

  datatype Status = Pending | Succeeded | Failed | Expired

  datatype Flow = Flow(owner: string, name: string, interval: nat, expiresAt: int, nextPollAt: int, polling: bool,
                       status: Status, account: Option<string>, error: Option<string>)

  datatype Snapshot = Snapshot(expiresAt: int, nextPollAt: Option<int>, status: Status, account: Option<string>, error: Option<string>)

  type Flows = map<string, Flow>

  function Clamp(seconds: nat): nat {
    if seconds < 1 then 1 else if seconds > 60 then 60 else seconds
  }

  function NewFlow(owner: string, name: string, interval: nat, now: int): Flow {
    Flow(owner, name, Clamp(interval), now + FLOW_TTL, now, false, Pending, None, None)
  }

  /** `retain_flow`. */
  predicate Retained(f: Flow, now: int) {
    if f.polling then f.expiresAt + CLEANUP_GRACE > now else f.expiresAt > now && f.status.Pending?
  }

  /** `flows.retain(…)`. */
  function Pruned(flows: Flows, now: int): Flows {
    map k | k in flows && Retained(flows[k], now) :: flows[k]
  }

  /** `flow_snapshot`. */
  function SnapshotOf(f: Flow): Snapshot {
    Snapshot(f.expiresAt, if f.status.Pending? then Some(f.nextPollAt) else None, f.status, f.account, f.error)
  }

  function Lapse(f: Flow): Flow {
    f.(status := Expired, error := Some(EXPIRED_TEXT))
  }

  datatype Entered = NotFound | Shown(snapshot: Snapshot) | PollFrom(expiresAt: int)

  /** The flow after the first section of `status`, which reads the clock up to three times, and
      whether the caller polls. */
  function EnterFlow(f: Flow, t1: int, t2: int, t3: int): (Flow, bool) {
    var g := if f.status.Pending? && f.expiresAt <= t1 then Lapse(f) else f;
    if !g.status.Pending? || g.polling || g.nextPollAt > t2 then (g, false)
    else (g.(polling := true, nextPollAt := t3 + g.interval * SECOND), true)
  }

  function EnterStatus(flows: Flows, id: string, owner: string, t1: int, t2: int, t3: int): (Flows, Entered) {
    if id !in flows || flows[id].owner != owner then (flows, NotFound)
    else
      var (f, polls) := EnterFlow(flows[id], t1, t2, t3);
      (flows[id := f], if polls then PollFrom(f.expiresAt) else Shown(SnapshotOf(f)))
  }

  /** The section after a poll that found the login still pending. */
  function PendingFlow(f: Flow, now: int): Flow {
    if now >= f.expiresAt then Lapse(f.(polling := false))
    else f.(polling := false, nextPollAt := now + f.interval * SECOND)
  }

  function SucceededFlow(f: Flow, account: string): Flow {
    f.(polling := false, status := Succeeded, account := Some(account), error := None)
  }

  /** `finish_failed`. */
  function FailedFlow(f: Flow, error: string): Flow {
    f.(polling := false, status := Failed, error := Some(error))
  }

  function Update(flows: Flows, id: string, f: Flow -> Flow): Flows {
    if id in flows then flows[id := f(flows[id])] else flows
  }

  // ------------------------------------------------------------------ what a caller is promised

  /** What never changes in a login. */
  predicate SameLogin(before: Flow, after: Flow) {
    && after.owner == before.owner && after.name == before.name
    && after.interval == before.interval && after.expiresAt == before.expiresAt
  }

  /** Only the login `id` may differ, and none is added or removed. */
  ghost predicate OnlyTouches(before: Flows, after: Flows, id: string) {
    before.Keys == after.Keys && forall k :: k in before && k != id ==> after[k] == before[k]
  }

  /** A snapshot shows the login as it is, with the next poll only while it is pending. */
  predicate ShowsFlow(x: Snapshot, f: Flow) {
    && x.expiresAt == f.expiresAt && x.status == f.status && x.account == f.account && x.error == f.error
    && x.nextPollAt == (if f.status == Pending then Some(f.nextPollAt) else None)
  }

  predicate Owned(flows: Flows, id: string, owner: string) {
    id in flows && flows[id].owner == owner
  }

  /** The first section of `status`: nothing is shown to, or changed by, anyone but the owner; the owner polls
      exactly when the login is pending and unexpired, no poll is in flight and the next one is due, and is
      otherwise shown the login, which has expired if its time is over. */
  ghost predicate Entry(before: Flows, after: Flows, id: string, owner: string, t1: int, t2: int, t3: int, r: Entered) {
    && OnlyTouches(before, after, id)
    && (r == NotFound <==> !Owned(before, id, owner))
    && (r == NotFound ==> after == before)
    && (Owned(before, id, owner) ==>
          var f, g := before[id], after[id];
          var over := f.status == Pending && f.expiresAt <= t1;
          && SameLogin(f, g) && g.account == f.account
          && (r.PollFrom? <==> f.status == Pending && !over && !f.polling && f.nextPollAt <= t2)
          && (r.PollFrom? ==> r.expiresAt == f.expiresAt && g.polling && g.nextPollAt == t3 + f.interval * SECOND)
          && (r.Shown? ==> ShowsFlow(r.snapshot, g) && g.polling == f.polling && g.nextPollAt == f.nextPollAt)
          && g.status == (if over then Expired else f.status)
          && g.error == (if over then Some("Codex device login expired; start again") else f.error))
  }

  /** The answer of a section that ends a poll: the login is shown as it was left, if it is still there. */
  ghost predicate Ended(before: Flows, after: Flows, id: string, r: Option<Snapshot>) {
    && OnlyTouches(before, after, id)
    && (r.Some? <==> id in before)
    && (r.Some? ==> SameLogin(before[id], after[id]) && !after[id].polling && ShowsFlow(r.value, after[id]))
  }

  /** A poll that found the login still pending: it expires if its time is over, or else waits an interval. */
  predicate StillPending(f: Flow, g: Flow, now: int) {
    && g.account == f.account
    && (f.expiresAt <= now ==>
          g.status == Expired && g.error == Some("Codex device login expired; start again") && g.nextPollAt == f.nextPollAt)
    && (now < f.expiresAt ==> g.status == f.status && g.error == f.error && g.nextPollAt == now + f.interval * SECOND)
  }

  predicate HasSucceeded(f: Flow, g: Flow, account: string) {
    g.status == Succeeded && g.account == Some(account) && g.error == None && g.nextPollAt == f.nextPollAt
  }

  predicate HasFailed(f: Flow, g: Flow, error: string) {
    g.status == Failed && g.error == Some(error) && g.account == f.account && g.nextPollAt == f.nextPollAt
  }

  /** A new login belongs to its owner, waits 1 to 60 seconds between polls as near as can be to what the server
      asks, is first polled at once, and expires in 15 minutes. */
  predicate IsNew(f: Flow, owner: string, name: string, interval: nat, now: int) {
    && f.owner == owner && f.name == name && f.status == Pending && !f.polling
    && f.account == None && f.error == None && f.nextPollAt == now && f.expiresAt == now + 900 * SECOND
    && 1 <= f.interval <= 60 && (1 <= interval <= 60 ==> f.interval == interval)
    && (interval < 1 ==> f.interval == 1) && (interval > 60 ==> f.interval == 60)
  }

  // ------------------------------------------------------------------ the store

  class DeviceFlow {
    const owner: string
    const name: string
    const interval: nat
    const expiresAt: int
    var nextPollAt: int
    var polling: bool
    var status: Status
    var account: Option<string>
    var error: Option<string>

    constructor (owner: string, name: string, interval: nat, now: int)
      ensures Value() == NewFlow(owner, name, interval, now)
    {
      this.owner, this.name, this.interval, expiresAt := owner, name, Clamp(interval), now + FLOW_TTL;
      nextPollAt, polling, status, account, error := now, false, Pending, None, None;
    }

    function Value(): Flow
      reads this
    {
      Flow(owner, name, interval, expiresAt, nextPollAt, polling, status, account, error)
    }
  }

  class Store {
    var flows: map<string, DeviceFlow>

    /** No flow object stands under two ids. */
    ghost predicate Valid()
      reads this
    {
      forall a, b :: a in flows && b in flows && flows[a] == flows[b] ==> a == b
    }

    ghost function State(): Flows
      reads this, flows.Values
    {
      map id | id in flows :: flows[id].Value()
    }

    constructor ()
      ensures Valid() && State() == map[] && fresh(flows.Values)
    {
      flows := map[];
    }

    twostate lemma OneFlowWritten(id: string)
      requires old(Valid()) && flows == old(flows) && id in flows
      requires forall k :: k in flows && k != id ==> flows[k].Value() == old(flows[k].Value())
      ensures State() == old(State())[id := flows[id].Value()]
    {
    }

    /** `flows.insert(…)` of a new flow. */
    method Insert(id: string, flow: DeviceFlow)
      requires Valid() && flow !in flows.Values
      modifies this
      ensures Valid() && flows == old(flows)[id := flow]
      ensures State() == old(State())[id := flow.Value()]
    {
      assert forall k :: k in flows ==> flows[k] in flows.Values;
      flows := flows[id := flow];
    }

    method Prune(now: int)
      requires Valid()
      modifies this
      ensures Valid() && flows.Keys <= old(flows).Keys && flows.Values <= old(flows.Values)
      ensures State() == Pruned(old(State()), now)
    {
      flows := map k | k in flows && Retained(flows[k].Value(), now) :: flows[k];
    }

    method Begin(id: string, owner: string, name: string, interval: nat, now: int)
      requires Valid() && id !in flows
      modifies this
      ensures Valid()
      ensures State() == Pruned(old(State()), now)[id := NewFlow(owner, name, interval, now)]
      ensures id in State() && IsNew(State()[id], owner, name, interval, now)
    {
      var flow := new DeviceFlow(owner, name, interval, now);
      Prune(now);
      Insert(id, flow);
    }

    method Enter(id: string, owner: string, t1: int, t2: int, t3: int) returns (r: Entered)
      requires Valid()
      modifies flows.Values
      ensures Valid() && flows == old(flows)
      ensures (State(), r) == EnterStatus(old(State()), id, owner, t1, t2, t3)
      ensures Entry(old(State()), State(), id, owner, t1, t2, t3, r)
    {
      if id !in flows {
        return NotFound;
      }
      var flow := flows[id];
      if flow.owner != owner {
        return NotFound;
      }
      if flow.status == Pending && flow.expiresAt <= t1 {
        flow.status := Expired;
        flow.error := Some(EXPIRED_TEXT);
      }
      if flow.status != Pending || flow.polling || flow.nextPollAt > t2 {
        OneFlowWritten(id);
        return Shown(SnapshotOf(flow.Value()));
      }
      flow.polling := true;
      flow.nextPollAt := t3 + flow.interval * SECOND;
      OneFlowWritten(id);
      return PollFrom(flow.expiresAt);
    }

    method FinishPending(id: string, now: int) returns (r: Option<Snapshot>)
      requires Valid()
      modifies flows.Values
      ensures Valid() && flows == old(flows)
      ensures State() == Update(old(State()), id, f => PendingFlow(f, now))
      ensures Ended(old(State()), State(), id, r)
      ensures id in flows ==> StillPending(old(State())[id], State()[id], now)
    {
      if id !in flows {
        return None;
      }
      var flow := flows[id];
      flow.polling := false;
      if now >= flow.expiresAt {
        flow.status := Expired;
        flow.error := Some(EXPIRED_TEXT);
      } else {
        flow.nextPollAt := now + flow.interval * SECOND;
      }
      OneFlowWritten(id);
      return Some(SnapshotOf(flow.Value()));
    }

    method FinishSucceeded(id: string, account: string) returns (r: Option<Snapshot>)
      requires Valid()
      modifies flows.Values
      ensures Valid() && flows == old(flows)
      ensures State() == Update(old(State()), id, f => SucceededFlow(f, account))
      ensures Ended(old(State()), State(), id, r)
      ensures id in flows ==> HasSucceeded(old(State())[id], State()[id], account)
    {
      if id !in flows {
        return None;
      }
      var flow := flows[id];
      flow.polling := false;
      flow.status := Succeeded;
      flow.account := Some(account);
      flow.error := None;
      OneFlowWritten(id);
      return Some(SnapshotOf(flow.Value()));
    }

    method FinishFailed(id: string, error: string) returns (r: Option<Snapshot>)
      requires Valid()
      modifies flows.Values
      ensures Valid() && flows == old(flows)
      ensures State() == Update(old(State()), id, f => FailedFlow(f, error))
      ensures Ended(old(State()), State(), id, r)
      ensures id in flows ==> HasFailed(old(State())[id], State()[id], error)
    {
      if id !in flows {
        return None;
      }
      var flow := flows[id];
      flow.polling := false;
      flow.status := Failed;
      flow.error := Some(error);
      OneFlowWritten(id);
      return Some(SnapshotOf(flow.Value()));
    }
  }
}
