/** Every interleaving of the lock sections of `AccountConcurrency`, with the futures and permits
    that outlive them: a transition system over any number of accounts and requests. */
module SlotProtocol {
  import opened AccountSlots

  /** `permits`: live `AccountPermit`s; `waiting`: live `QueuedWaiter`s; `returning`: waiters inside
      `drop`, after the section that found their grant and before the one that releases it.
      `grants` logs every grant made by a dispatch loop, oldest first. */
  datatype System = System(
    shared: Shared,
    permits: map<nat, string>,
    nextPermit: nat,
    waiting: map<nat, string>,
    returning: map<nat, string>,
    grants: seq<(string, nat)>)

  /** One lock section each. */
  datatype Event =
    | TryTake(account: string, limit: nat)
    | Enter(account: string, limit: nat)
    | Resume(id: nat)
    | DropPermit(permit: nat)
    | CancelFirst(id: nat)
    | CancelSecond(id: nat)
    | ChangeLimit(account: string, limit: nat)
    | ForgetAccount(account: string)

  const INITIAL := System(Shared(map[], 0, {}, {}), map[], 0, map[], map[], [])

  ghost predicate Enabled(s: System, e: Event) {
    match e
    case Resume(id) => id in s.waiting && AwaitReturns(s.shared, id)
    case DropPermit(p) => p in s.permits
    case CancelFirst(id) => id in s.waiting
    case CancelSecond(id) => id in s.returning
    case _ => true
  }

  function NewPermit(s: System, a: string): System {
    s.(permits := s.permits[s.nextPermit := a], nextPermit := s.nextPermit + 1)
  }

  function Logged(a: string, granted: seq<nat>): seq<(string, nat)> {
    seq(|granted|, i requires 0 <= i < |granted| => (a, granted[i]))
  }

  /** The state after a section that ran the dispatch loop of account `a`. */
  function Dispatched(s: System, a: string, r: (Shared, seq<nat>)): System {
    s.(shared := r.0, grants := s.grants + Logged(a, r.1))
  }

  ghost function Step(s: System, e: Event): System
    requires Enabled(s, e)
  {
    match e
    case TryTake(a, limit) =>
      var (sh, got) := TryAcquire(s.shared, a, limit);
      var t := s.(shared := sh);
      if got then NewPermit(t, a) else t
    case Enter(a, limit) =>
      var (sh, entry) := AcquireEnter(s.shared, a, limit);
      var t := s.(shared := sh);
      (match entry
       case Immediate => NewPermit(t, a)
       case Enqueued(id) => t.(waiting := t.waiting[id := a]))
    case Resume(id) =>
      NewPermit(s.(shared := CloseReceiver(s.shared, id), waiting := s.waiting - {id}), s.waiting[id])
    case DropPermit(p) =>
      var a := s.permits[p];
      Dispatched(s.(permits := s.permits - {p}), a, Release(s.shared, a))
    case CancelFirst(id) =>
      var a := s.waiting[id];
      var (sh, decision) := CancelDecide(s.shared, a, id);
      var t := s.(shared := sh, waiting := s.waiting - {id});
      if decision == WasGranted then t.(returning := t.returning[id := a]) else t
    case CancelSecond(id) =>
      var a := s.returning[id];
      var t := Dispatched(s.(returning := s.returning - {id}), a, Release(s.shared, a));
      t.(shared := CloseReceiver(t.shared, id))
    case ChangeLimit(a, limit) => Dispatched(s, a, SetLimit(s.shared, a, limit))
    case ForgetAccount(a) => s.(shared := Forget(s.shared, a))
  }

  // ---------- What holds between lock sections ----------

  ghost function Granted(s: System): map<nat, string> {
    map id | id in s.waiting && id in s.shared.sent :: s.waiting[id]
  }

  function Holding(m: map<nat, string>, a: string): set<nat> {
    set k | k in m && m[k] == a
  }

  /** Permits, granted waiters that have not run yet, and slots on their way back. */
  ghost function Held(s: System, a: string): nat {
    |Holding(s.permits, a)| + |Holding(Granted(s), a)| + |Holding(s.returning, a)|
  }

  ghost predicate Conserved(s: System) {
    forall a :: if a in s.shared.accounts then s.shared.accounts[a].running == Held(s, a) else Held(s, a) == 0
  }

  ghost predicate QueueEntry(s: System, a: string, id: nat) {
    id in s.waiting && s.waiting[id] == a && id in s.shared.open && id !in s.shared.sent
  }

  ghost predicate QueuesMatchWaiters(s: System) {
    && (forall a :: a in s.shared.accounts ==> Increasing(s.shared.accounts[a].waiters))
    && (forall a, id :: a in s.shared.accounts && id in s.shared.accounts[a].waiters ==> QueueEntry(s, a, id))
    && (forall id :: id in s.waiting ==>
          && id < s.shared.nextId
          && id in s.shared.open
          && s.waiting[id] in s.shared.accounts
          && (id !in s.shared.sent ==> id in s.shared.accounts[s.waiting[id]].waiters))
  }

  ghost predicate IdsIssued(s: System) {
    && (forall p :: p in s.permits ==> p < s.nextPermit)
    && (forall id :: id in s.shared.sent ==> id < s.shared.nextId)
    && (forall id :: id in s.returning ==> id < s.shared.nextId && id in s.shared.sent && id !in s.waiting)
    && (forall g :: g in s.grants ==> g.1 < s.shared.nextId)
  }

  /** Per account, grants were made in increasing id order, and every queued id comes after them. */
  ghost predicate GrantsInOrder(s: System) {
    && (forall i, j :: 0 <= i < j < |s.grants| && s.grants[i].0 == s.grants[j].0 ==> s.grants[i].1 < s.grants[j].1)
    && (forall i, id ::
          0 <= i < |s.grants| && s.grants[i].0 in s.shared.accounts && id in s.shared.accounts[s.grants[i].0].waiters
          ==> s.grants[i].1 < id)
  }

  ghost predicate Saturated(x: Slot) {
    x.waiters == [] || !x.HasCapacity()
  }

  ghost predicate WorkConserving(s: System) {
    forall a :: a in s.shared.accounts ==> Saturated(s.shared.accounts[a])
  }

  /** Everything but work conservation: what holds inside a section, before its dispatch loop. */
  ghost predicate Consistent(s: System) {
    Conserved(s) && QueuesMatchWaiters(s) && IdsIssued(s) && GrantsInOrder(s)
  }

  ghost predicate Inv(s: System) {
    Consistent(s) && WorkConserving(s)
  }

  // ---------- Counting ----------

  lemma {:induction false} HoldingAdd(m: map<nat, string>, k: nat, a: string, b: string)
    requires k !in m
    ensures |Holding(m[k := a], b)| == |Holding(m, b)| + if a == b then 1 else 0
  {
    assert Holding(m[k := a], b) == if a == b then Holding(m, b) + {k} else Holding(m, b);
  }

  lemma {:induction false} HoldingRemove(m: map<nat, string>, k: nat, b: string)
    requires k in m
    ensures |Holding(m, b)| == |Holding(m - {k}, b)| + if m[k] == b then 1 else 0
  {
    HoldingAdd(m - {k}, k, m[k], b);
    assert (m - {k})[k := m[k]] == m;
  }

  lemma {:induction false} IncreasingIdsCount(ids: seq<nat>)
    requires Increasing(ids)
    ensures |Ids(ids)| == |ids|
  {
    if ids != [] {
      var n := |ids| - 1;
      IncreasingIdsCount(ids[..n]);
      assert ids == ids[..n] + [ids[n]];
      assert Ids(ids) == Ids(ids[..n]) + {ids[n]};
    }
  }

  // ---------- The dispatch loop ----------

  /** Slots of all accounts but `a` are saturated. */
  ghost predicate SaturatedElsewhere(s: System, a: string) {
    forall b :: b in s.shared.accounts && b != a ==> Saturated(s.shared.accounts[b])
  }

  ghost function DispatchStep(s: System, a: string): System
    requires a in s.shared.accounts
  {
    Dispatched(s, a, DispatchAt(s.shared, a, s.shared.accounts[a]))
  }

  /** In a consistent state no `send` fails, so the loop serves a prefix of the queue. */
  lemma {:induction false} DispatchShape(s: System, a: string)
    requires QueuesMatchWaiters(s) && a in s.shared.accounts
    ensures var x := s.shared.accounts[a];
            var n := Serves(x);
            && Ids(x.waiters) <= s.shared.open
            && n <= |x.waiters|
            && var t := DispatchStep(s, a);
            && t.shared.accounts == s.shared.accounts[a := Slot(x.limit, x.running + n, x.waiters[n..])]
            && t.shared.sent == s.shared.sent + Ids(x.waiters[..n])
            && t.grants == s.grants + Logged(a, x.waiters[..n])
            && Saturated(t.shared.accounts[a])
  {
    var x := s.shared.accounts[a];
    forall id | id in x.waiters ensures id in s.shared.open {
      assert QueueEntry(s, a, id);
    }
    DispatchServesPrefix(x, s.shared.open);
  }

  /** Delivering grants to queued waiters of `a` moves exactly that many into the granted count. */
  lemma {:induction false} GrantedGrows(s: System, a: string, ids: seq<nat>, t: System, b: string)
    requires Increasing(ids) && forall id :: id in ids ==> QueueEntry(s, a, id)
    requires t.waiting == s.waiting && t.shared.sent == s.shared.sent + Ids(ids)
    ensures |Holding(Granted(t), b)| == |Holding(Granted(s), b)| + if a == b then |ids| else 0
  {
    IncreasingIdsCount(ids);
    if a == b {
      assert Holding(Granted(t), b) == Holding(Granted(s), b) + Ids(ids);
      assert Holding(Granted(s), b) !! Ids(ids);
    } else {
      assert Holding(Granted(t), b) == Holding(Granted(s), b);
    }
  }

  lemma {:induction false} QueuePrefix(s: System, a: string, n: nat)
    requires QueuesMatchWaiters(s) && a in s.shared.accounts && n <= |s.shared.accounts[a].waiters|
    ensures var ids := s.shared.accounts[a].waiters[..n];
            Increasing(ids) && forall id :: id in ids ==> QueueEntry(s, a, id)
  {
    var ws := s.shared.accounts[a].waiters;
    forall id | id in ws[..n] ensures QueueEntry(s, a, id) {
      assert id in ws;
    }
  }

  lemma {:induction false} DispatchConserves(s: System, a: string)
    requires Conserved(s) && QueuesMatchWaiters(s) && a in s.shared.accounts
    ensures Conserved(DispatchStep(s, a))
  {
    DispatchShape(s, a);
    var x := s.shared.accounts[a];
    var served := x.waiters[..Serves(x)];
    var t := DispatchStep(s, a);
    QueuePrefix(s, a, Serves(x));
    forall b
      ensures if b in t.shared.accounts then t.shared.accounts[b].running == Held(t, b) else Held(t, b) == 0
    {
      GrantedGrows(s, a, served, t, b);
      assert if b in s.shared.accounts then s.shared.accounts[b].running == Held(s, b) else Held(s, b) == 0;
    }
  }

  lemma {:induction false} DispatchKeepsQueues(s: System, a: string)
    requires QueuesMatchWaiters(s) && a in s.shared.accounts
    ensures QueuesMatchWaiters(DispatchStep(s, a))
  {
    DispatchShape(s, a);
    var x := s.shared.accounts[a];
    var n := Serves(x);
    var t := DispatchStep(s, a);
    QueuePrefix(s, a, n);
    assert forall id :: id in x.waiters[n..] ==> id in x.waiters;
    forall b, id | b in t.shared.accounts && id in t.shared.accounts[b].waiters
      ensures QueueEntry(t, b, id)
    {
      assert QueueEntry(s, b, id);
      assert b == a ==> id !in x.waiters[..n];
    }
    forall id | id in t.waiting && id !in t.shared.sent
      ensures id in t.shared.accounts[t.waiting[id]].waiters
    {
      if t.waiting[id] == a {
        assert x.waiters == x.waiters[..n] + x.waiters[n..];
        assert id !in Ids(x.waiters[..n]);
      }
    }
  }

  lemma {:induction false} DispatchKeepsIds(s: System, a: string)
    requires QueuesMatchWaiters(s) && IdsIssued(s) && a in s.shared.accounts
    ensures IdsIssued(DispatchStep(s, a))
  {
    DispatchShape(s, a);
    var x := s.shared.accounts[a];
    QueuePrefix(s, a, Serves(x));
    ServedIds(s, DispatchStep(s, a), a, x.waiters[..Serves(x)]);
  }

  lemma {:induction false} ServedIds(s: System, t: System, a: string, served: seq<nat>)
    requires IdsIssued(s)
    requires forall id :: id in served ==> id < s.shared.nextId
    requires t.permits == s.permits && t.nextPermit == s.nextPermit && t.waiting == s.waiting && t.returning == s.returning
    requires t.shared.nextId == s.shared.nextId && t.shared.sent == s.shared.sent + Ids(served)
    requires t.grants == s.grants + Logged(a, served)
    ensures IdsIssued(t)
  {
    forall g | g in t.grants ensures g.1 < t.shared.nextId {
      if g !in s.grants {
        var i :| 0 <= i < |t.grants| && t.grants[i] == g;
        assert g == (a, served[i - |s.grants|]);
        assert g.1 in served;
      }
    }
  }

  lemma {:induction false} DispatchKeepsOrder(s: System, a: string)
    requires QueuesMatchWaiters(s) && GrantsInOrder(s) && a in s.shared.accounts
    ensures GrantsInOrder(DispatchStep(s, a))
  {
    DispatchShape(s, a);
    var x := s.shared.accounts[a];
    assert Increasing(x.waiters);
    ServedOrder(s, DispatchStep(s, a), a, Serves(x));
  }

  lemma {:induction false} ServedOrder(s: System, t: System, a: string, n: nat)
    requires GrantsInOrder(s) && a in s.shared.accounts
    requires var x := s.shared.accounts[a];
             && n <= |x.waiters|
             && Increasing(x.waiters)
             && a in t.shared.accounts
             && t.shared.accounts == s.shared.accounts[a := t.shared.accounts[a]]
             && t.shared.accounts[a].waiters == x.waiters[n..]
             && t.grants == s.grants + Logged(a, x.waiters[..n])
    ensures GrantsInOrder(t)
  {
    var x := s.shared.accounts[a];
    forall i, j | 0 <= i < j < |t.grants| && t.grants[i].0 == t.grants[j].0
      ensures t.grants[i].1 < t.grants[j].1
    {
      if j >= |s.grants| {
        assert t.grants[j] == (a, x.waiters[j - |s.grants|]);
        assert x.waiters[j - |s.grants|] in x.waiters;
        assert i >= |s.grants| ==> t.grants[i] == (a, x.waiters[i - |s.grants|]);
      }
    }
    forall i, id |
      0 <= i < |t.grants| && t.grants[i].0 in t.shared.accounts && id in t.shared.accounts[t.grants[i].0].waiters
      ensures t.grants[i].1 < id
    {
      if i >= |s.grants| {
        assert t.grants[i] == (a, x.waiters[i - |s.grants|]);
        var k :| 0 <= k < |x.waiters[n..]| && x.waiters[n..][k] == id;
        assert id == x.waiters[n + k];
      } else if t.grants[i].0 == a {
        assert id in x.waiters;
      }
    }
  }

  /** The dispatch loop turns a consistent state into one where every invariant holds. */
  lemma {:induction false} DispatchRestores(s: System, a: string)
    requires Consistent(s) && a in s.shared.accounts && SaturatedElsewhere(s, a)
    ensures Inv(DispatchStep(s, a))
  {
    DispatchShape(s, a);
    DispatchConserves(s, a);
    DispatchKeepsQueues(s, a);
    DispatchKeepsIds(s, a);
    DispatchKeepsOrder(s, a);
  }

  // ---------- Each section keeps the invariant ----------

  /** Sections that leave the queues and channels alone keep what is said about them. */
  lemma {:induction false} SameQueues(s: System, t: System)
    requires QueuesMatchWaiters(s) && GrantsInOrder(s)
    requires t.waiting == s.waiting && t.grants == s.grants
    requires t.shared.open == s.shared.open && t.shared.sent == s.shared.sent && t.shared.nextId >= s.shared.nextId
    requires s.shared.accounts.Keys <= t.shared.accounts.Keys
    requires forall b :: b in t.shared.accounts ==>
               t.shared.accounts[b].waiters == if b in s.shared.accounts then s.shared.accounts[b].waiters else []
    ensures QueuesMatchWaiters(t) && GrantsInOrder(t)
  {
    forall b, id | b in t.shared.accounts && id in t.shared.accounts[b].waiters ensures QueueEntry(t, b, id) {
      assert QueueEntry(s, b, id);
    }
  }

  /** The books balance again when each account's count moved exactly with its holders. */
  lemma {:induction false} BooksBalance(s: System, t: System)
    requires Conserved(s)
    requires forall b :: b in s.shared.accounts || b in t.shared.accounts || Held(s, b) == Held(t, b)
    requires forall b :: b in s.shared.accounts && b in t.shared.accounts ==>
               t.shared.accounts[b].running - s.shared.accounts[b].running == Held(t, b) - Held(s, b)
    requires forall b :: b in s.shared.accounts && b !in t.shared.accounts ==>
               s.shared.accounts[b].running == Held(s, b) - Held(t, b)
    requires forall b :: b !in s.shared.accounts && b in t.shared.accounts ==>
               t.shared.accounts[b].running == Held(t, b) - Held(s, b)
    ensures Conserved(t)
  {
    forall b
      ensures if b in t.shared.accounts then t.shared.accounts[b].running == Held(t, b) else Held(t, b) == 0
    {
      assert if b in s.shared.accounts then s.shared.accounts[b].running == Held(s, b) else Held(s, b) == 0;
    }
  }

  lemma {:induction false} BooksUnmoved(s: System, t: System)
    requires Conserved(s) && s.shared.accounts.Keys == t.shared.accounts.Keys
    requires forall b :: b in s.shared.accounts ==> t.shared.accounts[b].running == s.shared.accounts[b].running
    requires forall b :: Held(t, b) == Held(s, b)
    ensures Conserved(t)
  {
    forall b
      ensures if b in t.shared.accounts then t.shared.accounts[b].running == Held(t, b) else Held(t, b) == 0
    {
      assert if b in s.shared.accounts then s.shared.accounts[b].running == Held(s, b) else Held(s, b) == 0;
    }
  }

  lemma {:induction false} UngrantedDoNotCount(s: System, t: System)
    requires t.shared.sent == s.shared.sent && t.permits == s.permits && t.returning == s.returning
    requires forall id :: id in s.shared.sent ==> (id in t.waiting <==> id in s.waiting)
    requires forall id :: id in s.waiting && id in t.waiting ==> t.waiting[id] == s.waiting[id]
    ensures forall b :: Held(t, b) == Held(s, b)
  {
    assert Granted(t) == Granted(s);
  }

  lemma {:induction false} SlotValuesDoNotCount(s: System, t: System)
    requires t.shared.sent == s.shared.sent && t.permits == s.permits
    requires t.waiting == s.waiting && t.returning == s.returning
    ensures forall b :: Held(t, b) == Held(s, b)
  {
    assert Granted(t) == Granted(s);
  }

  lemma {:induction false} InsertBooks(s: System, a: string, limit: nat)
    requires Conserved(s)
    ensures Conserved(s.(shared := EntryOrInsert(s.shared, a, limit)))
  {
    var t := s.(shared := EntryOrInsert(s.shared, a, limit));
    SlotValuesDoNotCount(s, t);
    BooksBalance(s, t);
  }

  lemma {:induction false} InsertKeeps(s: System, a: string, limit: nat)
    requires Inv(s)
    ensures Inv(s.(shared := EntryOrInsert(s.shared, a, limit)))
  {
    InsertBooks(s, a, limit);
    SameQueues(s, s.(shared := EntryOrInsert(s.shared, a, limit)));
  }

  lemma {:induction false} FreshIdKeeps(s: System)
    requires Inv(s)
    ensures Inv(s.(shared := s.shared.(nextId := s.shared.nextId + 1)))
  {
    var t := s.(shared := s.shared.(nextId := s.shared.nextId + 1));
    SlotValuesDoNotCount(s, t);
    BooksBalance(s, t);
    SameQueues(s, t);
  }

  lemma {:induction false} TakeBooks(s: System, a: string)
    requires Conserved(s) && s.nextPermit !in s.permits && a in s.shared.accounts
    ensures Conserved(NewPermit(s.(shared := TakeSlot(s.shared, a)), a))
  {
    var t := NewPermit(s.(shared := TakeSlot(s.shared, a)), a);
    assert Granted(t) == Granted(s);
    forall b ensures Held(t, b) == Held(s, b) + if a == b then 1 else 0 {
      HoldingAdd(s.permits, s.nextPermit, a, b);
    }
    BooksBalance(s, t);
  }

  lemma {:induction false} TakeKeeps(s: System, a: string)
    requires Inv(s) && a in s.shared.accounts && FreeSlot(s.shared.accounts[a])
    ensures Inv(NewPermit(s.(shared := TakeSlot(s.shared, a)), a))
  {
    TakeBooks(s, a);
    SameQueues(s, NewPermit(s.(shared := TakeSlot(s.shared, a)), a));
  }

  lemma {:induction false} ReleaseBooks(s: System, t: System, a: string, u: System)
    requires Conserved(s) && t.shared == s.shared && t.waiting == s.waiting
    requires forall b :: Held(s, b) == Held(t, b) + if a == b then 1 else 0
    requires a in s.shared.accounts && s.shared.accounts[a].running > 0
    requires var x := s.shared.accounts[a];
             u == t.(shared := t.shared.(accounts := t.shared.accounts[a := x.(running := x.running - 1)]))
    ensures Conserved(u)
  {
    SlotValuesDoNotCount(t, u);
    BooksBalance(s, u);
  }

  /** Giving back one held slot, before the dispatch loop runs: the account exists, its count is
      positive, and everything but work conservation holds.  `t` is `s` with one claim on `a` given up. */
  lemma {:induction false} ReleaseStarts(s: System, t: System, a: string) returns (u: System)
    requires Inv(s) && t.shared == s.shared && t.waiting == s.waiting && t.grants == s.grants && IdsIssued(t)
    requires forall b :: Held(s, b) == Held(t, b) + if a == b then 1 else 0
    ensures a in s.shared.accounts && s.shared.accounts[a].running > 0
    ensures var x := s.shared.accounts[a];
            u == t.(shared := t.shared.(accounts := t.shared.accounts[a := x.(running := x.running - 1)]))
    ensures Consistent(u) && SaturatedElsewhere(u, a)
  {
    assert if a in s.shared.accounts then s.shared.accounts[a].running == Held(s, a) else Held(s, a) == 0;
    var x := s.shared.accounts[a];
    u := t.(shared := t.shared.(accounts := t.shared.accounts[a := x.(running := x.running - 1)]));
    ReleaseBooks(s, t, a, u);
    SameQueues(s, u);
  }

  /** Dispatching from a slot value equals dispatching after that value was written. */
  lemma {:induction false} DispatchFromWritten(t: System, a: string, x: Slot)
    ensures Dispatched(t, a, DispatchAt(t.shared, a, x))
            == DispatchStep(t.(shared := t.shared.(accounts := t.shared.accounts[a := x])), a)
  {
    var y := Dispatch(x, t.shared.open).0;
    assert t.shared.accounts[a := x][a := y] == t.shared.accounts[a := y];
  }

  lemma {:induction false} ReleaseKeeps(s: System, t: System, a: string)
    requires Inv(s) && t.shared == s.shared && t.waiting == s.waiting && t.grants == s.grants && IdsIssued(t)
    requires forall b :: Held(s, b) == Held(t, b) + if a == b then 1 else 0
    ensures a in s.shared.accounts && s.shared.accounts[a].running > 0
    ensures Inv(Dispatched(t, a, Release(t.shared, a)))
  {
    var u := ReleaseStarts(s, t, a);
    DispatchRestores(u, a);
    DispatchFromWritten(t, a, u.shared.accounts[a]);
  }

  lemma {:induction false} DropPermitKeeps(s: System, p: nat)
    requires Inv(s) && p in s.permits
    ensures s.permits[p] in s.shared.accounts && s.shared.accounts[s.permits[p]].running > 0
    ensures Inv(Step(s, DropPermit(p)))
  {
    var a := s.permits[p];
    var t := s.(permits := s.permits - {p});
    assert Granted(t) == Granted(s);
    forall b ensures Held(s, b) == Held(t, b) + if a == b then 1 else 0 {
      HoldingRemove(s.permits, p, b);
    }
    ReleaseKeeps(s, t, a);
  }

  lemma {:induction false} CloseKeeps(s: System, id: nat)
    requires Inv(s) && id !in s.waiting
    ensures Inv(s.(shared := CloseReceiver(s.shared, id)))
  {
    var t := s.(shared := CloseReceiver(s.shared, id));
    assert Granted(t) == Granted(s);
    BooksBalance(s, t);
    forall b, k | b in t.shared.accounts && k in t.shared.accounts[b].waiters ensures QueueEntry(t, b, k) {
      assert QueueEntry(s, b, k);
    }
  }

  lemma {:induction false} CancelSecondKeeps(s: System, id: nat)
    requires Inv(s) && id in s.returning
    ensures s.returning[id] in s.shared.accounts && s.shared.accounts[s.returning[id]].running > 0
    ensures Inv(Step(s, CancelSecond(id)))
  {
    var a := s.returning[id];
    var t := s.(returning := s.returning - {id});
    assert Granted(t) == Granted(s);
    forall b ensures Held(s, b) == Held(t, b) + if a == b then 1 else 0 {
      HoldingRemove(s.returning, id, b);
    }
    ReleaseKeeps(s, t, a);
    CloseKeeps(Dispatched(t, a, Release(t.shared, a)), id);
  }

  /** A waiter only ever resumes with a grant in its channel. */
  lemma {:induction false} ResumeMeansGranted(s: System, id: nat)
    requires Inv(s) && id in s.waiting && AwaitReturns(s.shared, id)
    ensures id in s.shared.sent
  {
  }

  /** A granted waiter is in no queue, so the queues do not notice when it goes. */
  lemma {:induction false} GrantedWaiterLeaves(s: System, t: System, id: nat)
    requires QueuesMatchWaiters(s) && GrantsInOrder(s) && id in s.waiting && id in s.shared.sent
    requires t.waiting == s.waiting - {id} && t.grants == s.grants && t.shared.accounts == s.shared.accounts
    requires t.shared.sent == s.shared.sent && t.shared.nextId == s.shared.nextId
    requires s.shared.open - {id} <= t.shared.open
    ensures QueuesMatchWaiters(t) && GrantsInOrder(t)
  {
    forall b, k | b in t.shared.accounts && k in t.shared.accounts[b].waiters ensures QueueEntry(t, b, k) {
      assert QueueEntry(s, b, k);
    }
  }

  /** A granted waiter that leaves `waiting` leaves the granted count by one. */
  lemma {:induction false} GrantedShrinks(s: System, t: System, id: nat, b: string)
    requires id in s.waiting && id in s.shared.sent
    requires t.waiting == s.waiting - {id} && t.shared.sent == s.shared.sent
    ensures |Holding(Granted(s), b)| == |Holding(Granted(t), b)| + if s.waiting[id] == b then 1 else 0
  {
    assert Granted(t) == Granted(s) - {id};
    HoldingRemove(Granted(s), id, b);
  }

  lemma {:induction false} ResumeKeeps(s: System, id: nat)
    requires Inv(s) && Enabled(s, Resume(id))
    ensures Inv(Step(s, Resume(id)))
  {
    ResumeMeansGranted(s, id);
    var t := Step(s, Resume(id));
    forall b ensures Held(t, b) == Held(s, b) {
      GrantedShrinks(s, t, id, b);
      HoldingAdd(s.permits, s.nextPermit, s.waiting[id], b);
    }
    BooksUnmoved(s, t);
    GrantedWaiterLeaves(s, t, id);
  }

  ghost function Enqueue(s: System, a: string): System
    requires a in s.shared.accounts
  {
    var id := s.shared.nextId;
    var x := s.shared.accounts[a];
    var sh := s.shared.(accounts := s.shared.accounts[a := x.(waiters := x.waiters + [id])],
                        open := s.shared.open + {id}, nextId := id + 1);
    s.(shared := sh, waiting := s.waiting[id := a])
  }

  lemma {:induction false} EnqueueQueues(s: System, a: string)
    requires QueuesMatchWaiters(s) && IdsIssued(s) && GrantsInOrder(s) && a in s.shared.accounts
    ensures QueuesMatchWaiters(Enqueue(s, a)) && GrantsInOrder(Enqueue(s, a))
  {
    var id := s.shared.nextId;
    var t := Enqueue(s, a);
    forall b, k | b in t.shared.accounts && k in t.shared.accounts[b].waiters ensures QueueEntry(t, b, k) {
      assert k == id || QueueEntry(s, b, k);
    }
    var ws := s.shared.accounts[a].waiters;
    forall i | 0 <= i < |ws| ensures ws[i] < id {
      assert QueueEntry(s, a, ws[i]);
    }
  }

  lemma {:induction false} EnqueueBooks(s: System, a: string)
    requires Conserved(s) && IdsIssued(s) && s.shared.nextId !in s.waiting && a in s.shared.accounts
    ensures Conserved(Enqueue(s, a))
  {
    UngrantedDoNotCount(s, Enqueue(s, a));
    BooksUnmoved(s, Enqueue(s, a));
  }

  lemma {:induction false} EnqueueKeeps(s: System, a: string)
    requires Inv(s) && a in s.shared.accounts && !FreeSlot(s.shared.accounts[a])
    ensures Inv(Enqueue(s, a))
  {
    EnqueueBooks(s, a);
    EnqueueQueues(s, a);
  }

  lemma {:induction false} EnterShape(s: System, a: string, limit: nat)
    ensures var e := s.(shared := EntryOrInsert(s.shared, a, limit));
            Step(s, Enter(a, limit)) ==
            if FreeSlot(e.shared.accounts[a])
            then var t := NewPermit(e.(shared := TakeSlot(e.shared, a)), a);
              t.(shared := t.shared.(nextId := t.shared.nextId + 1))
            else Enqueue(e, a)
  {
  }

  lemma {:induction false} EnterKeeps(s: System, a: string, limit: nat)
    requires Inv(s)
    ensures Inv(Step(s, Enter(a, limit)))
  {
    EnterShape(s, a, limit);
    InsertKeeps(s, a, limit);
    var e := s.(shared := EntryOrInsert(s.shared, a, limit));
    if FreeSlot(e.shared.accounts[a]) {
      TakeKeeps(e, a);
      FreshIdKeeps(NewPermit(e.(shared := TakeSlot(e.shared, a)), a));
    } else {
      EnqueueKeeps(e, a);
    }
  }

  lemma {:induction false} TryTakeKeeps(s: System, a: string, limit: nat)
    requires Inv(s)
    ensures Inv(Step(s, TryTake(a, limit)))
  {
    InsertKeeps(s, a, limit);
    var e := s.(shared := EntryOrInsert(s.shared, a, limit));
    if FreeSlot(e.shared.accounts[a]) {
      TakeKeeps(e, a);
    }
  }

  lemma {:induction false} ChangeLimitKeeps(s: System, a: string, limit: nat)
    requires Inv(s)
    ensures Inv(Step(s, ChangeLimit(a, limit)))
  {
    InsertKeeps(s, a, limit);
    var e := s.(shared := EntryOrInsert(s.shared, a, limit));
    var u := LimitWritten(e, a, limit);
    DispatchRestores(u, a);
    DispatchFromWritten(e, a, u.shared.accounts[a]);
  }

  lemma {:induction false} LimitWritten(e: System, a: string, limit: nat) returns (u: System)
    requires Inv(e) && a in e.shared.accounts
    ensures u == e.(shared := e.shared.(accounts := e.shared.accounts[a := e.shared.accounts[a].(limit := limit)]))
    ensures Consistent(u) && SaturatedElsewhere(u, a)
  {
    u := e.(shared := e.shared.(accounts := e.shared.accounts[a := e.shared.accounts[a].(limit := limit)]));
    assert Granted(u) == Granted(e);
    BooksBalance(e, u);
    SameQueues(e, u);
  }

  /** An idle account has no permit, no waiter and no slot on its way back. */
  lemma {:induction false} IdleHasNoClaims(s: System, a: string)
    requires Inv(s) && a in s.shared.accounts && s.shared.accounts[a].IsIdle()
    ensures Held(s, a) == 0 && Holding(s.waiting, a) == {}
  {
    assert Holding(Granted(s), a) == {};
    forall id | id in s.waiting && s.waiting[id] == a ensures id in Holding(Granted(s), a) {
    }
  }

  lemma {:induction false} ForgetQueues(s: System, a: string)
    requires QueuesMatchWaiters(s) && GrantsInOrder(s) && Holding(s.waiting, a) == {}
    ensures var t := s.(shared := s.shared.(accounts := s.shared.accounts - {a}));
            QueuesMatchWaiters(t) && GrantsInOrder(t)
  {
    var t := s.(shared := s.shared.(accounts := s.shared.accounts - {a}));
    forall b, k | b in t.shared.accounts && k in t.shared.accounts[b].waiters ensures QueueEntry(t, b, k) {
      assert QueueEntry(s, b, k);
    }
    forall id | id in t.waiting ensures t.waiting[id] in t.shared.accounts {
      assert id in Holding(s.waiting, t.waiting[id]);
    }
  }

  lemma {:induction false} ForgetKeeps(s: System, a: string)
    requires Inv(s)
    ensures Inv(Step(s, ForgetAccount(a)))
  {
    var t := Step(s, ForgetAccount(a));
    if t != s {
      IdleHasNoClaims(s, a);
      SlotValuesDoNotCount(s, t);
      BooksBalance(s, t);
      ForgetQueues(s, a);
    }
  }

  /** Somebody holds, awaits or is giving back a slot of the account. */
  ghost predicate Claimed(s: System, a: string) {
    || (exists p :: p in s.permits && s.permits[p] == a)
    || (exists id :: id in s.waiting && s.waiting[id] == a)
    || (exists id :: id in s.returning && s.returning[id] == a)
  }

  /** Forgetting an account removes it exactly when nobody has a claim on it, and changes nothing else. */
  lemma {:induction false} ForgetExactly(s: System, a: string)
    requires Inv(s)
    ensures Step(s, ForgetAccount(a))
            == if Claimed(s, a) then s else s.(shared := s.shared.(accounts := s.shared.accounts - {a}))
  {
    if a in s.shared.accounts {
      ClaimsMeanBusy(s, a);
    } else {
      assert s.shared.accounts - {a} == s.shared.accounts;
    }
  }

  lemma {:induction false} ClaimsMeanBusy(s: System, a: string)
    requires Inv(s) && a in s.shared.accounts
    ensures Claimed(s, a) <==> s.shared.accounts[a].running > 0 || s.shared.accounts[a].waiters != []
  {
    var x := s.shared.accounts[a];
    assert x.running == Held(s, a);
    assert x.waiters != [] ==> QueueEntry(s, a, x.waiters[0]);
    if Claimed(s, a) {
      if p :| p in s.permits && s.permits[p] == a {
        assert p in Holding(s.permits, a);
      } else if id :| id in s.waiting && s.waiting[id] == a {
        assert id in s.shared.sent ==> id in Holding(Granted(s), a);
      } else {
        var id :| id in s.returning && s.returning[id] == a;
        assert id in Holding(s.returning, a);
      }
    } else {
      assert Holding(s.permits, a) == {} && Holding(Granted(s), a) == {} && Holding(s.returning, a) == {};
    }
  }

  /** Cancelling finds the waiter either in its queue or granted; the two defensive exits are dead. */
  lemma {:induction false} CancelDecides(s: System, id: nat)
    requires QueuesMatchWaiters(s) && id in s.waiting
    ensures s.waiting[id] in s.shared.accounts
    ensures var d := CancelDecide(s.shared, s.waiting[id], id).1;
            d == if id in s.shared.sent then WasGranted else LeftQueue
  {
    var a := s.waiting[id];
    var ws := s.shared.accounts[a].waiters;
    forall k | k in ws ensures k !in s.shared.sent {
      assert QueueEntry(s, a, k);
    }
  }

  lemma {:induction false} GrantedCancelShape(s: System, id: nat)
    requires QueuesMatchWaiters(s) && id in s.waiting && id in s.shared.sent
    ensures Step(s, CancelFirst(id)) ==
            s.(waiting := s.waiting - {id}, returning := s.returning[id := s.waiting[id]])
  {
    CancelDecides(s, id);
  }

  lemma {:induction false} GrantedCancelBooks(s: System, id: nat)
    requires Conserved(s) && id !in s.returning && id in s.waiting && id in s.shared.sent
    ensures Conserved(s.(waiting := s.waiting - {id}, returning := s.returning[id := s.waiting[id]]))
  {
    var t := s.(waiting := s.waiting - {id}, returning := s.returning[id := s.waiting[id]]);
    forall b ensures Held(t, b) == Held(s, b) {
      GrantedShrinks(s, t, id, b);
      HoldingAdd(s.returning, id, s.waiting[id], b);
    }
    BooksUnmoved(s, t);
  }

  lemma {:induction false} GrantedCancelKeeps(s: System, id: nat)
    requires Inv(s) && id in s.waiting && id in s.shared.sent
    ensures Inv(Step(s, CancelFirst(id)))
  {
    GrantedCancelShape(s, id);
    GrantedCancelBooks(s, id);
    GrantedWaiterLeaves(s, Step(s, CancelFirst(id)), id);
  }

  lemma {:induction false} RemoveAtContents(ws: seq<nat>, p: nat, k: nat)
    requires Increasing(ws) && p < |ws|
    ensures Increasing(RemoveAt(ws, p))
    ensures k in RemoveAt(ws, p) <==> k in ws && k != ws[p]
  {
    assert ws == ws[..p] + [ws[p]] + ws[p + 1..];
  }

  lemma {:induction false} QueuedCancelShape(s: System, id: nat)
    requires QueuesMatchWaiters(s) && id in s.waiting && id !in s.shared.sent
    ensures s.waiting[id] in s.shared.accounts
    ensures var a := s.waiting[id];
            var x := s.shared.accounts[a];
            var p := Position(x.waiters, id);
            && p < |x.waiters|
            && Step(s, CancelFirst(id)) ==
               s.(shared := s.shared.(accounts := s.shared.accounts[a := x.(waiters := RemoveAt(x.waiters, p))],
                                      open := s.shared.open - {id}),
                  waiting := s.waiting - {id})
  {
    CancelDecides(s, id);
  }

  lemma {:induction false} QueuedCancelQueues(s: System, id: nat)
    requires QueuesMatchWaiters(s) && GrantsInOrder(s) && id in s.waiting && id !in s.shared.sent
    ensures var t := Step(s, CancelFirst(id));
            QueuesMatchWaiters(t) && GrantsInOrder(t)
  {
    QueuedCancelShape(s, id);
    var a := s.waiting[id];
    var ws := s.shared.accounts[a].waiters;
    var t := Step(s, CancelFirst(id));
    var left := t.shared.accounts[a].waiters;
    forall k ensures k in left <==> k in ws && k != id {
      RemoveAtContents(ws, Position(ws, id), k);
    }
    RemoveAtContents(ws, Position(ws, id), id);
    forall b, k | b in t.shared.accounts && k in t.shared.accounts[b].waiters ensures QueueEntry(t, b, k) {
      assert k in s.shared.accounts[b].waiters;
      assert QueueEntry(s, b, k);
    }
  }

  lemma {:induction false} QueuedCancelRest(s: System, id: nat)
    requires QueuesMatchWaiters(s) && IdsIssued(s) && WorkConserving(s) && id in s.waiting && id !in s.shared.sent
    ensures IdsIssued(Step(s, CancelFirst(id))) && WorkConserving(Step(s, CancelFirst(id)))
  {
    QueuedCancelShape(s, id);
  }

  lemma {:induction false} QueuedCancelBooks(s: System, id: nat)
    requires QueuesMatchWaiters(s) && Conserved(s) && id in s.waiting && id !in s.shared.sent
    ensures Conserved(Step(s, CancelFirst(id)))
  {
    QueuedCancelShape(s, id);
    var t := Step(s, CancelFirst(id));
    UngrantedDoNotCount(s, t);
    BooksUnmoved(s, t);
  }

  lemma {:induction false} CancelFirstKeeps(s: System, id: nat)
    requires Inv(s) && id in s.waiting
    ensures Inv(Step(s, CancelFirst(id)))
  {
    if id in s.shared.sent {
      GrantedCancelKeeps(s, id);
    } else {
      QueuedCancelBooks(s, id);
      QueuedCancelQueues(s, id);
      QueuedCancelRest(s, id);
    }
  }

  // ---------- Whole runs ----------

  lemma {:induction false} StepKeeps(s: System, e: Event)
    requires Inv(s) && Enabled(s, e)
    ensures Inv(Step(s, e))
  {
    match e
    case TryTake(a, limit) => TryTakeKeeps(s, a, limit);
    case Enter(a, limit) => EnterKeeps(s, a, limit);
    case Resume(id) => ResumeKeeps(s, id);
    case DropPermit(p) => DropPermitKeeps(s, p);
    case CancelFirst(id) => CancelFirstKeeps(s, id);
    case CancelSecond(id) => CancelSecondKeeps(s, id);
    case ChangeLimit(a, limit) => ChangeLimitKeeps(s, a, limit);
    case ForgetAccount(a) => ForgetKeeps(s, a);
  }

  ghost predicate Run(s: System, es: seq<Event>, t: System)
    decreases |es|
  {
    if es == [] then t == s else Enabled(s, es[0]) && Run(Step(s, es[0]), es[1..], t)
  }

  ghost predicate Reachable(t: System) {
    exists es :: Run(INITIAL, es, t)
  }

  lemma {:induction false} RunKeeps(s: System, es: seq<Event>, t: System)
    requires Inv(s) && Run(s, es, t)
    ensures Inv(t)
    decreases |es|
  {
    if es != [] {
      StepKeeps(s, es[0]);
      RunKeeps(Step(s, es[0]), es[1..], t);
    }
  }

  lemma {:induction false} ReachableInv(t: System)
    requires Reachable(t)
    ensures Inv(t)
  {
    var es :| Run(INITIAL, es, t);
    assert Granted(INITIAL) == map[];
    forall a ensures Held(INITIAL, a) == 0 {
      assert Holding(map[], a) == {};
    }
    RunKeeps(INITIAL, es, t);
  }

  /** Conservation: whatever the interleaving, an account's running count is the number of its live
      permits, granted waiters still to run, and slots on their way back; and no account with any
      claim on it, a queued waiter included, has been forgotten. */
  lemma {:induction false} PermitConservation(t: System, a: string)
    requires Reachable(t)
    ensures a in t.shared.accounts ==>
              t.shared.accounts[a].running ==
              |Holding(t.permits, a)| + |Holding(Granted(t), a)| + |Holding(t.returning, a)|
    ensures a !in t.shared.accounts ==>
              Holding(t.permits, a) == {} && Holding(t.waiting, a) == {} && Holding(t.returning, a) == {}
  {
    ReachableInv(t);
    assert if a in t.shared.accounts then t.shared.accounts[a].running == Held(t, a) else Held(t, a) == 0;
  }

  /** The defensive branches are dead: a release finds its account with a positive count, so the
      saturating subtraction never saturates; every queued receiver is open, so no `send` fails; a
      cancelled waiter is either still queued or was granted; and an await ends only with a grant. */
  lemma {:induction false} DefensiveBranchesDead(t: System)
    requires Reachable(t)
    ensures forall p :: p in t.permits ==>
              t.permits[p] in t.shared.accounts && t.shared.accounts[t.permits[p]].running > 0
    ensures forall id :: id in t.returning ==>
              t.returning[id] in t.shared.accounts && t.shared.accounts[t.returning[id]].running > 0
    ensures forall a :: a in t.shared.accounts ==> Ids(t.shared.accounts[a].waiters) <= t.shared.open
    ensures forall id :: id in t.waiting ==>
              CancelDecide(t.shared, t.waiting[id], id).1 == if id in t.shared.sent then WasGranted else LeftQueue
    ensures forall id :: id in t.waiting && AwaitReturns(t.shared, id) ==> id in t.shared.sent
  {
    ReachableInv(t);
    forall p | p in t.permits
      ensures t.permits[p] in t.shared.accounts && t.shared.accounts[t.permits[p]].running > 0
    {
      DropPermitKeeps(t, p);
    }
    forall id | id in t.returning
      ensures t.returning[id] in t.shared.accounts && t.shared.accounts[t.returning[id]].running > 0
    {
      CancelSecondKeeps(t, id);
    }
    forall a | a in t.shared.accounts ensures Ids(t.shared.accounts[a].waiters) <= t.shared.open {
      DispatchShape(t, a);
    }
    forall id | id in t.waiting
      ensures CancelDecide(t.shared, t.waiting[id], id).1 == if id in t.shared.sent then WasGranted else LeftQueue
    {
      CancelDecides(t, id);
    }
  }

  /** First come, first served: along any run each account's grants carry strictly increasing ids,
      every id still queued is later than all of them, and no slot is free while anyone queues. */
  lemma {:induction false} FifoAndWorkConserving(t: System, a: string)
    requires Reachable(t) && a in t.shared.accounts
    ensures forall i, j :: 0 <= i < j < |t.grants| && t.grants[i].0 == t.grants[j].0 == a ==>
                             t.grants[i].1 < t.grants[j].1
    ensures forall i, id :: 0 <= i < |t.grants| && t.grants[i].0 == a && id in t.shared.accounts[a].waiters ==>
                              t.grants[i].1 < id
    ensures Increasing(t.shared.accounts[a].waiters)
    ensures t.shared.accounts[a].waiters != [] ==> !t.shared.accounts[a].HasCapacity()
  {
    ReachableInv(t);
    assert Saturated(t.shared.accounts[a]);
  }

  // ---------- What single sections may do to an account ----------

  /** The account whose slot a section works on. */
  ghost function Target(s: System, e: Event): string
    requires Enabled(s, e)
  {
    match e
    case TryTake(a, _) => a
    case Enter(a, _) => a
    case Resume(id) => s.waiting[id]
    case DropPermit(p) => s.permits[p]
    case CancelFirst(id) => s.waiting[id]
    case CancelSecond(id) => s.returning[id]
    case ChangeLimit(a, _) => a
    case ForgetAccount(a) => a
  }

  /** The slot a section starts from; a request's limit counts only when the account has none. */
  ghost function Before(s: System, e: Event): Slot
    requires Enabled(s, e)
  {
    var a := Target(s, e);
    if a in s.shared.accounts then s.shared.accounts[a]
    else if e.TryTake? || e.Enter? || e.ChangeLimit? then Slot(e.limit, 0, [])
    else Slot(0, 0, [])
  }

  ghost function Served(x: Slot): Slot {
    var n := Serves(x);
    if n <= |x.waiters| then Slot(x.limit, x.running + n, x.waiters[n..]) else x
  }

  /** The slot a section leaves behind, in closed form. */
  ghost function After(s: System, e: Event): Slot
    requires Enabled(s, e)
  {
    var x := Before(s, e);
    match e
    case TryTake(_, _) => if FreeSlot(x) then x.(running := x.running + 1) else x
    case Enter(_, _) =>
      if FreeSlot(x) then x.(running := x.running + 1) else x.(waiters := x.waiters + [s.shared.nextId])
    case DropPermit(_) => Served(x.(running := SaturatingDecrement(x.running)))
    case CancelSecond(_) => Served(x.(running := SaturatingDecrement(x.running)))
    case CancelFirst(id) =>
      var p := Position(x.waiters, id);
      if p < |x.waiters| then x.(waiters := RemoveAt(x.waiters, p)) else x
    case ChangeLimit(_, limit) => Served(x.(limit := limit))
    case _ => x
  }

  lemma {:induction false} ServedIsDispatched(s: System, x: Slot, r: nat, l: nat)
    requires QueuesMatchWaiters(s)
    requires x.waiters == [] || exists a :: a in s.shared.accounts && s.shared.accounts[a].waiters == x.waiters
    ensures Dispatch(Slot(l, r, x.waiters), s.shared.open).0 == Served(Slot(l, r, x.waiters))
  {
    if x.waiters != [] {
      var a :| a in s.shared.accounts && s.shared.accounts[a].waiters == x.waiters;
      DispatchShape(s, a);
    }
    DispatchServesPrefix(Slot(l, r, x.waiters), s.shared.open);
  }

  lemma {:induction false} ReleaseEffect(s: System, a: string)
    requires QueuesMatchWaiters(s) && a in s.shared.accounts
    ensures var x := s.shared.accounts[a];
            Release(s.shared, a).0.accounts
            == s.shared.accounts[a := Served(x.(running := SaturatingDecrement(x.running)))]
  {
    var x := s.shared.accounts[a];
    ServedIsDispatched(s, x, SaturatingDecrement(x.running), x.limit);
  }

  lemma {:induction false} SetLimitEffect(s: System, a: string, limit: nat)
    requires QueuesMatchWaiters(s)
    ensures var x := EntryOrInsert(s.shared, a, limit).accounts[a];
            SetLimit(s.shared, a, limit).0.accounts == s.shared.accounts[a := Served(x.(limit := limit))]
  {
    var x := EntryOrInsert(s.shared, a, limit).accounts[a];
    ServedIsDispatched(s, x, x.running, limit);
    var m := s.shared.accounts;
    var y := Served(x.(limit := limit));
    assert m[a := x][a := y] == m[a := y];
  }

  /** A section rewrites exactly its target's slot, to the value `After` computes by arithmetic. */
  lemma {:induction false} SectionEffect(s: System, e: Event)
    requires Inv(s) && Enabled(s, e)
    requires !e.ForgetAccount?
    ensures Step(s, e).shared.accounts == s.shared.accounts[Target(s, e) := After(s, e)]
  {
    match e
    case ChangeLimit(a, limit) =>
      SetLimitEffect(s, a, limit);
    case CancelFirst(id) =>
      CancelSection(s, id);
    case Resume(id) =>
      ResumeSection(s, id);
    case TryTake(_, _) =>
      EntrySection(s, e);
    case Enter(_, _) =>
      EntrySection(s, e);
    case _ =>
      ReleaseSection(s, e);
  }

  lemma {:induction false} CancelSection(s: System, id: nat)
    requires QueuesMatchWaiters(s) && id in s.waiting
    ensures Step(s, CancelFirst(id)).shared.accounts
            == s.shared.accounts[Target(s, CancelFirst(id)) := After(s, CancelFirst(id))]
  {
    CancelDecides(s, id);
  }

  lemma {:induction false} ResumeSection(s: System, id: nat)
    requires QueuesMatchWaiters(s) && Enabled(s, Resume(id))
    ensures Step(s, Resume(id)).shared.accounts == s.shared.accounts[Target(s, Resume(id)) := After(s, Resume(id))]
  {
  }

  lemma {:induction false} ReleaseSection(s: System, e: Event)
    requires Inv(s) && Enabled(s, e) && (e.DropPermit? || e.CancelSecond?)
    ensures Target(s, e) in s.shared.accounts
    ensures Step(s, e).shared.accounts == s.shared.accounts[Target(s, e) := After(s, e)]
  {
    if e.DropPermit? {
      DropPermitKeeps(s, e.permit);
    } else {
      CancelSecondKeeps(s, e.id);
    }
    ReleaseEffect(s, Target(s, e));
  }

  lemma {:induction false} EntrySection(s: System, e: Event)
    requires e.TryTake? || e.Enter?
    ensures Step(s, e).shared.accounts == s.shared.accounts[e.account := After(s, e)]
  {
    var m := s.shared.accounts;
    var a := e.account;
    var x := Before(s, e);
    assert m[a := x][a := After(s, e)] == m[a := After(s, e)];
  }

  /** Nobody takes a slot past a queued waiter, in any state, and a request's own idea of the limit is ignored. */
  lemma {:induction false} NoBarging(s: System, a: string, stale: nat)
    requires a in s.shared.accounts && s.shared.accounts[a].waiters != []
    ensures Step(s, TryTake(a, stale)) == s
    ensures var t := Step(s, Enter(a, stale));
            && t.permits == s.permits
            && t.shared.accounts[a] ==
               s.shared.accounts[a].(waiters := s.shared.accounts[a].waiters + [s.shared.nextId])
  {
  }

  /** An existing slot's limit is changed by `set_limit` and by nothing else. */
  lemma {:induction false} LimitChangesOnlyBySetLimit(s: System, e: Event, a: string)
    requires Inv(s) && Enabled(s, e) && a in s.shared.accounts && a in Step(s, e).shared.accounts
    ensures Step(s, e).shared.accounts[a].limit ==
            if e.ChangeLimit? && e.account == a then e.limit else s.shared.accounts[a].limit
  {
    if !e.ForgetAccount? {
      SectionEffect(s, e);
    }
  }

  /** A section that raises the running count leaves it within the limit then in force. */
  lemma {:induction false} RunningRisesWithinLimit(s: System, e: Event, a: string)
    requires Inv(s) && Enabled(s, e) && a in Step(s, e).shared.accounts
    requires var before := if a in s.shared.accounts then s.shared.accounts[a].running else 0;
             Step(s, e).shared.accounts[a].running > before
    ensures var x := Step(s, e).shared.accounts[a];
            x.limit == 0 || x.running <= x.limit
  {
    if !e.ForgetAccount? {
      SectionEffect(s, e);
    }
  }
}
