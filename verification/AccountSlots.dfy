/** The values behind `AccountConcurrency`'s mutex and what each lock section does to them.

    A oneshot channel is modelled by its waiter id: `open` holds the ids whose receiver has not
    been dropped, `sent` the ids whose sender has delivered a grant.  The sender of an id lives
    exactly as long as the id stands in a queue. */
module AccountSlots {

  datatype Slot = Slot(limit: nat, running: nat, waiters: seq<nat>) {
    /** A limit of zero means unlimited. */
    predicate HasCapacity() {
      limit == 0 || running < limit
    }

    predicate IsIdle() {
      running == 0 && waiters == []
    }
  }

  datatype Shared = Shared(accounts: map<string, Slot>, nextId: nat, open: set<nat>, sent: set<nat>)

  /** Outcome of the lock section of `acquire`. */
  datatype Entry = Immediate | Enqueued(id: nat)

  /** Outcome of the first lock section of `QueuedWaiter::drop`. */
  datatype Decision = AccountMissing | LeftQueue | WasGranted | NeverGranted

  function SaturatingDecrement(n: nat): nat {
    if n == 0 then 0 else n - 1
  }

  /** Hands free slots to the queue; the second component lists the ids that got one.  A closed
      receiver makes `send` fail, and its slot is taken back. */
  function Dispatch(s: Slot, open: set<nat>): (Slot, seq<nat>)
    decreases |s.waiters|
  {
    if !s.HasCapacity() || s.waiters == [] then (s, [])
    else
      var rest := s.(waiters := s.waiters[1..]);
      if s.waiters[0] in open then
        var (t, granted) := Dispatch(rest.(running := s.running + 1), open);
        (t, [s.waiters[0]] + granted)
      else
        Dispatch(rest, open)
  }

  function Ids(s: seq<nat>): set<nat> {
    set id | id in s
  }

  /** `entry(account).or_insert_with(new(limit))`: the request's limit counts only for a new slot. */
  function EntryOrInsert(sh: Shared, a: string, limit: nat): (r: Shared)
    ensures a in r.accounts
  {
    if a in sh.accounts then sh else sh.(accounts := sh.accounts[a := Slot(limit, 0, [])])
  }

  predicate FreeSlot(s: Slot) {
    s.waiters == [] && s.HasCapacity()
  }

  function TakeSlot(sh: Shared, a: string): Shared
    requires a in sh.accounts
  {
    sh.(accounts := sh.accounts[a := sh.accounts[a].(running := sh.accounts[a].running + 1)])
  }

  function TryAcquire(sh: Shared, a: string, limit: nat): (Shared, bool) {
    var e := EntryOrInsert(sh, a, limit);
    if FreeSlot(e.accounts[a]) then (TakeSlot(e, a), true) else (e, false)
  }

  function AcquireEnter(sh: Shared, a: string, limit: nat): (Shared, Entry) {
    var id := sh.nextId;
    var e := EntryOrInsert(sh.(nextId := id + 1), a, limit);
    if FreeSlot(e.accounts[a]) then (TakeSlot(e, a), Immediate)
    else
      var s := e.accounts[a];
      (e.(accounts := e.accounts[a := s.(waiters := s.waiters + [id])], open := e.open + {id}), Enqueued(id))
  }

  /** `slot.dispatch()` on a slot that has just been given the value `s`. */
  function DispatchAt(sh: Shared, a: string, s: Slot): (Shared, seq<nat>) {
    var (t, granted) := Dispatch(s, sh.open);
    (sh.(accounts := sh.accounts[a := t], sent := sh.sent + Ids(granted)), granted)
  }

  function Release(sh: Shared, a: string): (Shared, seq<nat>) {
    if a in sh.accounts then
      var s := sh.accounts[a];
      DispatchAt(sh, a, s.(running := SaturatingDecrement(s.running)))
    else
      (sh, [])
  }

  function SetLimit(sh: Shared, a: string, limit: nat): (Shared, seq<nat>) {
    var e := EntryOrInsert(sh, a, limit);
    DispatchAt(e, a, e.accounts[a].(limit := limit))
  }

  function Forget(sh: Shared, a: string): Shared {
    if a in sh.accounts && sh.accounts[a].IsIdle() then sh.(accounts := sh.accounts - {a}) else sh
  }

  /** First position of `id`, or the length of the queue when it is absent. */
  function Position(ws: seq<nat>, id: nat): (p: nat)
    ensures p <= |ws| && id !in ws[..p] && (p < |ws| ==> ws[p] == id)
  {
    if ws == [] || ws[0] == id then 0 else 1 + Position(ws[1..], id)
  }

  function RemoveAt(ws: seq<nat>, p: nat): seq<nat>
    requires p < |ws|
  {
    ws[..p] + ws[p + 1..]
  }

  /** The receiver outlives this section only when the slot still has to be handed back. */
  function CancelDecide(sh: Shared, a: string, id: nat): (Shared, Decision) {
    if a !in sh.accounts then (sh.(open := sh.open - {id}), AccountMissing)
    else
      var s := sh.accounts[a];
      var p := Position(s.waiters, id);
      if p < |s.waiters| then
        (sh.(accounts := sh.accounts[a := s.(waiters := RemoveAt(s.waiters, p))], open := sh.open - {id}), LeftQueue)
      else if id in sh.sent then (sh, WasGranted)
      else (sh.(open := sh.open - {id}), NeverGranted)
  }

  /** `receiver.await` also returns when the sender is dropped without a grant. */
  ghost predicate AwaitReturns(sh: Shared, id: nat) {
    id in sh.sent || forall a :: a in sh.accounts ==> id !in sh.accounts[a].waiters
  }

  function CloseReceiver(sh: Shared, id: nat): Shared {
    sh.(open := sh.open - {id})
  }

  ghost predicate Increasing(s: seq<nat>) {
    forall i, j :: 0 <= i < j < |s| ==> s[i] < s[j]
  }

  /** How many queued ids a slot can serve at once, by arithmetic instead of by the loop. */
  function Serves(s: Slot): nat {
    if s.limit == 0 || s.running + |s.waiters| <= s.limit then |s.waiters|
    else if s.running < s.limit then s.limit - s.running
    else 0
  }

  /** When no queued receiver is closed the loop grants exactly the first `Serves(s)` waiters, in
      order, and stops with an empty queue or no capacity. */
  lemma {:induction false} DispatchServesPrefix(s: Slot, open: set<nat>)
    requires Ids(s.waiters) <= open
    ensures var n := Serves(s);
            && n <= |s.waiters|
            && Dispatch(s, open) == (Slot(s.limit, s.running + n, s.waiters[n..]), s.waiters[..n])
            && (n == |s.waiters| || !Dispatch(s, open).0.HasCapacity())
    decreases |s.waiters|
  {
    if s.HasCapacity() && s.waiters != [] {
      assert s.waiters[0] in Ids(s.waiters);
      var rest := Slot(s.limit, s.running + 1, s.waiters[1..]);
      assert Ids(rest.waiters) <= open by {
        forall id | id in rest.waiters ensures id in open {
          assert id in Ids(s.waiters);
        }
      }
      DispatchServesPrefix(rest, open);
      var n := Serves(rest);
      assert [s.waiters[0]] + rest.waiters[..n] == s.waiters[..n + 1];
      assert rest.waiters[n..] == s.waiters[n + 1..];
    } else {
      assert s.waiters[0..] == s.waiters;
    }
  }

  function OnlyOpen(ids: seq<nat>, open: set<nat>): seq<nat> {
    if ids == [] then []
    else (if ids[0] in open then [ids[0]] else []) + OnlyOpen(ids[1..], open)
  }

  /** With closed receivers too: the loop consumes a prefix of the queue, grants exactly its open
      ids in order with one running slot each, never overshoots a limit, and stops with an empty
      queue or no capacity. */
  lemma {:induction false} DispatchGrantsOpenPrefix(s: Slot, open: set<nat>)
    ensures var (t, granted) := Dispatch(s, open);
            && |t.waiters| <= |s.waiters|
            && var k := |s.waiters| - |t.waiters|;
            && t.waiters == s.waiters[k..]
            && granted == OnlyOpen(s.waiters[..k], open)
            && t.running == s.running + |granted|
            && t.limit == s.limit
            && (s.limit != 0 && granted != [] ==> t.running <= s.limit)
            && (t.waiters == [] || !t.HasCapacity())
    decreases |s.waiters|
  {
    if s.HasCapacity() && s.waiters != [] {
      var rest := s.(waiters := s.waiters[1..]);
      if s.waiters[0] in open {
        rest := rest.(running := s.running + 1);
      }
      DispatchGrantsOpenPrefix(rest, open);
      var k := |rest.waiters| - |Dispatch(rest, open).0.waiters|;
      assert rest.waiters[k..] == s.waiters[k + 1..];
      assert s.waiters[..k + 1][1..] == rest.waiters[..k];
    } else {
      assert s.waiters[0..] == s.waiters;
    }
  }
}
