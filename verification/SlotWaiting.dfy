/** How long a queued waiter can wait: its rank in the queue, what each section does to it, and the bound
    over any run. */
module SlotWaiting {
  import opened AccountSlots
  import opened SlotProtocol

  lemma {:induction false} PositionAtMost(ws: seq<nat>, id: nat, i: nat)
    requires i < |ws| && ws[i] == id
    ensures Position(ws, id) <= i
  {
    var p := Position(ws, id);
    forall k | 0 <= k < p ensures ws[k] != id {
      assert ws[..p][k] == ws[k];
    }
  }

  /** How many releases stand between a queued id and its grant. */
  ghost function Rank(x: Slot, id: nat): int {
    Position(x.waiters, id) + 1 + x.running - x.limit
  }

  ghost predicate Releases(s: System, e: Event, a: string)
    requires Enabled(s, e)
  {
    (e.DropPermit? || e.CancelSecond?) && Target(s, e) == a
  }

  lemma {:induction false} RemoveAtRank(ws: seq<nat>, p: nat, id: nat)
    requires p < |ws| && id in ws && id != ws[p]
    ensures id in RemoveAt(ws, p) && Position(RemoveAt(ws, p), id) <= Position(ws, id)
  {
    var q := Position(ws, id);
    if q < p {
      PositionAtMost(RemoveAt(ws, p), id, q);
    } else {
      assert RemoveAt(ws, p)[q - 1] == id;
      PositionAtMost(RemoveAt(ws, p), id, q - 1);
    }
  }

  lemma {:induction false} AppendRank(ws: seq<nat>, more: nat, id: nat)
    requires id in ws
    ensures id in ws + [more] && Position(ws + [more], id) <= Position(ws, id)
  {
    assert (ws + [more])[Position(ws, id)] == id;
    PositionAtMost(ws + [more], id, Position(ws, id));
  }

  /** One release: either it serves the id, or its rank falls by at least one. */
  lemma {:induction false} ReleaseRank(x: Slot, id: nat)
    requires x.limit > 0 && Saturated(x) && id in x.waiters
    ensures var n := Serves(x.(running := x.running - 1));
            var y := Served(x.(running := x.running - 1));
            && n <= |x.waiters|
            && y.limit == x.limit
            && (id !in x.waiters[..n] ==> id in y.waiters && Rank(y, id) <= Rank(x, id) - 1)
  {
    var n := Serves(x.(running := x.running - 1));
    if n > 0 {
      assert n == 1 && x.running == x.limit;
      assert x.waiters == [x.waiters[0]] + x.waiters[1..];
    }
  }

  ghost predicate Queued(s: System, a: string, id: nat) {
    a in s.shared.accounts && s.shared.accounts[a].limit > 0 && id in s.shared.accounts[a].waiters
  }

  /** The waiter is granted, or it stays queued and its rank has fallen by `drop` or more. */
  ghost predicate Advanced(s: System, t: System, a: string, id: nat, drop: nat) {
    id in t.shared.sent
    || (&& Queued(s, a, id) && Queued(t, a, id)
        && Rank(t.shared.accounts[a], id) <= Rank(s.shared.accounts[a], id) - drop)
  }

  /** A release delivers a grant to every waiter it serves. */
  lemma {:induction false} ReleaseSends(s: System, a: string)
    requires QueuesMatchWaiters(s) && a in s.shared.accounts && s.shared.accounts[a].running > 0
    ensures var x := s.shared.accounts[a].(running := s.shared.accounts[a].running - 1);
            && Serves(x) <= |x.waiters|
            && forall id :: id in x.waiters[..Serves(x)] ==> id in Release(s.shared, a).0.sent
  {
    var x := s.shared.accounts[a].(running := s.shared.accounts[a].running - 1);
    DispatchShape(s, a);
    DispatchServesPrefix(x, s.shared.open);
  }

  lemma {:induction false} ReleaseAdvancesSlot(s: System, a: string, id: nat)
    requires QueuesMatchWaiters(s) && WorkConserving(s) && Queued(s, a, id) && s.shared.accounts[a].running > 0
    ensures var sh := Release(s.shared, a).0;
            id in sh.sent
            || (&& a in sh.accounts && sh.accounts[a].limit > 0 && id in sh.accounts[a].waiters
                && Rank(sh.accounts[a], id) <= Rank(s.shared.accounts[a], id) - 1)
  {
    assert Saturated(s.shared.accounts[a]);
    ReleaseEffect(s, a);
    ReleaseRank(s.shared.accounts[a], id);
    ReleaseSends(s, a);
  }

  lemma {:induction false} ReleaseAdvances(s: System, e: Event, a: string, id: nat)
    requires Inv(s) && Enabled(s, e) && Queued(s, a, id) && Releases(s, e, a)
    ensures Advanced(s, Step(s, e), a, id, 1)
  {
    if e.DropPermit? {
      DropPermitKeeps(s, e.permit);
    } else {
      CancelSecondKeeps(s, e.id);
    }
    ReleaseAdvancesSlot(s, a, id);
  }

  lemma {:induction false} QueueEditAdvances(s: System, e: Event, a: string, id: nat)
    requires Inv(s) && Enabled(s, e) && Queued(s, a, id) && e != CancelFirst(id)
    requires Target(s, e) == a && (e.TryTake? || e.Enter? || e.CancelFirst? || e.Resume?)
    ensures Advanced(s, Step(s, e), a, id, 0)
  {
    var x := s.shared.accounts[a];
    assert Saturated(x);
    SectionEffect(s, e);
    if e.Enter? {
      AppendRank(x.waiters, s.shared.nextId, id);
    } else if e.CancelFirst? {
      var p := Position(x.waiters, e.id);
      if p < |x.waiters| {
        RemoveAtRank(x.waiters, p, id);
      }
    }
  }

  /** One section, of any kind but a limit change or the waiter's own cancellation: the waiter is
      granted, or it stays queued under the same limit and its rank does not grow, and falls with
      each release of its account. */
  lemma {:induction false} RankNeverGrows(s: System, e: Event, a: string, id: nat)
    requires Inv(s) && Enabled(s, e) && Queued(s, a, id)
    requires !(e.ChangeLimit? && e.account == a) && e != CancelFirst(id)
    ensures Advanced(s, Step(s, e), a, id, if Releases(s, e, a) then 1 else 0)
  {
    if e.ForgetAccount? {
      ForgetAdvances(s, e.account, a, id);
    } else if Target(s, e) != a {
      OtherTargetAdvances(s, e, a, id);
    } else if Releases(s, e, a) {
      ReleaseAdvances(s, e, a, id);
    } else {
      QueueEditAdvances(s, e, a, id);
    }
  }

  lemma {:induction false} OtherTargetAdvances(s: System, e: Event, a: string, id: nat)
    requires Inv(s) && Enabled(s, e) && Queued(s, a, id) && !e.ForgetAccount? && Target(s, e) != a
    ensures Advanced(s, Step(s, e), a, id, 0)
  {
    SectionEffect(s, e);
    assert Step(s, e).shared.accounts[a] == s.shared.accounts[a];
  }

  lemma {:induction false} ForgetAdvances(s: System, b: string, a: string, id: nat)
    requires Queued(s, a, id)
    ensures Advanced(s, Step(s, ForgetAccount(b)), a, id, 0)
  {
    assert !s.shared.accounts[a].IsIdle();
  }

  /** A grant, once delivered, stays delivered. */
  lemma {:induction false} GrantsStay(s: System, e: Event, id: nat)
    requires Enabled(s, e) && id in s.shared.sent
    ensures id in Step(s, e).shared.sent
  {
  }

  ghost function ReleaseCount(s: System, es: seq<Event>, t: System, a: string): nat
    requires Run(s, es, t)
    decreases |es|
  {
    if es == [] then 0
    else (if Releases(s, es[0], a) then 1 else 0) + ReleaseCount(Step(s, es[0]), es[1..], t, a)
  }

  lemma {:induction false} GrantsStayOverRun(s: System, es: seq<Event>, t: System, id: nat)
    requires Run(s, es, t) && id in s.shared.sent
    ensures id in t.shared.sent
    decreases |es|
  {
    if es != [] {
      GrantsStay(s, es[0], id);
      GrantsStayOverRun(Step(s, es[0]), es[1..], t, id);
    }
  }

  /** Bounded waiting: with the account's limit left alone, a waiter at queue index k that does not
      cancel is granted by the time k + 1 + (running - limit) slots of its account have been
      released, whatever else interleaves. */
  lemma {:induction false} BoundedWaiting(s: System, es: seq<Event>, t: System, a: string, id: nat)
    requires Inv(s) && Run(s, es, t) && Queued(s, a, id)
    requires forall e :: e in es ==> !(e.ChangeLimit? && e.account == a) && e != CancelFirst(id)
    requires ReleaseCount(s, es, t, a) >= Rank(s.shared.accounts[a], id)
    ensures id in t.shared.sent
    decreases |es|
  {
    assert Saturated(s.shared.accounts[a]);
    if es != [] {
      var u := Step(s, es[0]);
      assert es[0] in es && forall e :: e in es[1..] ==> e in es;
      StepKeeps(s, es[0]);
      RankNeverGrows(s, es[0], a, id);
      if id in u.shared.sent {
        GrantsStayOverRun(u, es[1..], t, id);
      } else {
        BoundedWaiting(u, es[1..], t, a, id);
      }
    }
  }
}
