/** The waiting bound of the slot queue is sharp, for a queue of any length. */
module SlotBound {
  import opened AccountSlots
  import opened SlotProtocol
  import opened SlotWaiting

  function Range(lo: nat, hi: nat): (r: seq<nat>)
    requires lo <= hi
    ensures |r| == hi - lo && forall i :: 0 <= i < |r| ==> r[i] == lo + i
  {
    seq(hi - lo, i requires 0 <= i => lo + i)
  }

  function Span(lo: nat, hi: nat): (r: set<nat>)
    ensures forall j: nat :: j in r <==> lo <= j < hi
  {
    if hi <= lo then {} else Span(lo, hi - 1) + {hi - 1}
  }

  function AllOn(ids: set<nat>): map<nat, string> {
    map j | j in ids :: "a"
  }

  /** An account of limit 1: ids 1..m have been served and m holds the slot, ids m+1..n wait. */
  function Chain(m: nat, n: nat): System
    requires m <= n
  {
    System(Shared(map["a" := Slot(1, 1, Range(m + 1, n + 1))], n + 1, Span(m + 1, n + 1), Span(1, m + 1)),
           map[m := "a"], m + 1, AllOn(Span(m + 1, n + 1)), map[], seq(m, i requires 0 <= i => ("a", i + 1)))
  }

  lemma {:induction false} RunSnoc(s: System, es: seq<Event>, t: System, e: Event, a: string)
    requires Run(s, es, t) && Enabled(t, e)
    ensures Run(s, es + [e], Step(t, e))
    ensures ReleaseCount(s, es + [e], Step(t, e), a) == ReleaseCount(s, es, t, a) + if Releases(t, e, a) then 1 else 0
    decreases |es|
  {
    if es == [] {
      assert [] + [e] == [e] && [e][1..] == [];
    } else {
      assert (es + [e])[1..] == es[1..] + [e];
      RunSnoc(Step(s, es[0]), es[1..], t, e, a);
    }
  }

  lemma {:induction false} RunPair(s: System, es: seq<Event>, t: System, e: Event, f: Event)
    requires Run(s, es, t) && Enabled(t, e) && Enabled(Step(t, e), f)
    requires Releases(t, e, "a") && !Releases(Step(t, e), f, "a")
    ensures Run(s, es + [e] + [f], Step(Step(t, e), f))
    ensures ReleaseCount(s, es + [e] + [f], Step(Step(t, e), f), "a") == ReleaseCount(s, es, t, "a") + 1
  {
    RunSnoc(s, es, t, e, "a");
    RunSnoc(s, es + [e], Step(t, e), f, "a");
  }

  lemma {:induction false} FirstEnter()
    ensures Step(INITIAL, Enter("a", 1)) == Chain(0, 0)
  {
    var t := Step(INITIAL, Enter("a", 1));
    assert t.shared.accounts == map["a" := Slot(1, 1, [])];
    assert Range(1, 1) == [] && Span(1, 1) == {};
    assert t.permits == map[0 := "a"] && t.grants == [];
    assert Chain(0, 0).waiting == map[] && Chain(0, 0).grants == [];
  }

  lemma {:induction false} OneMoreEnter(n: nat)
    ensures Step(Chain(0, n), Enter("a", 1)) == Chain(0, n + 1)
  {
    var s, t := Chain(0, n), Step(Chain(0, n), Enter("a", 1));
    assert Range(1, n + 1) + [n + 1] == Range(1, n + 2);
    assert t.shared.accounts == map["a" := Slot(1, 1, Range(1, n + 2))];
    assert t.shared.open == Span(1, n + 2);
    assert t.waiting == Chain(0, n + 1).waiting;
    assert t.grants == Chain(0, n + 1).grants;
  }

  lemma {:induction false} ChainArrives(n: nat) returns (es: seq<Event>)
    ensures Run(INITIAL, es, Chain(0, n))
  {
    var before: seq<Event>, s := [], INITIAL;
    assert Run(INITIAL, [], INITIAL);
    if n == 0 {
      FirstEnter();
    } else {
      before := ChainArrives(n - 1);
      s := Chain(0, n - 1);
      OneMoreEnter(n - 1);
    }
    RunSnoc(INITIAL, before, s, Enter("a", 1), "a");
    es := before + [Enter("a", 1)];
  }

  /** The chain is a state of the system, whatever the length of its queue. */
  lemma {:induction false} ChainIsReachable(n: nat)
    ensures Reachable(Chain(0, n))
  {
    var es := ChainArrives(n);
  }

  /** The release serves the first waiter and no other. */
  lemma {:induction false} ReleaseOfChain(m: nat, n: nat)
    requires m < n
    ensures var s := Chain(m, n).shared;
            var (t, granted) := Release(s, "a");
            && granted == [m + 1]
            && t == Shared(map["a" := Slot(1, 1, Range(m + 2, n + 1))], n + 1, Span(m + 1, n + 1), Span(1, m + 2))
  {
    var s := Chain(m, n).shared;
    var freed := Slot(1, 0, Range(m + 1, n + 1));
    assert Ids(freed.waiters) <= s.open;
    DispatchServesPrefix(freed, s.open);
    assert Range(m + 1, n + 1)[..1] == [m + 1] && Range(m + 1, n + 1)[1..] == Range(m + 2, n + 1);
    assert Ids([m + 1]) == {m + 1};
    assert s.sent + {m + 1} == Span(1, m + 2);
    assert Release(s, "a").0.accounts == map["a" := Slot(1, 1, Range(m + 2, n + 1))];
  }

  /** Between the release and the waiter's return: the slot is granted and not yet a permit. */
  function Between(m: nat, n: nat): System
    requires m < n
  {
    Chain(m, n).(shared := Release(Chain(m, n).shared, "a").0, permits := map[], grants := Chain(m + 1, n).grants)
  }

  lemma {:induction false} DropInChain(m: nat, n: nat)
    requires m < n
    ensures Enabled(Chain(m, n), DropPermit(m)) && Releases(Chain(m, n), DropPermit(m), "a")
    ensures Step(Chain(m, n), DropPermit(m)) == Between(m, n)
  {
    ReleaseOfChain(m, n);
    var t := Step(Chain(m, n), DropPermit(m));
    assert t.permits == map[];
    assert t.grants == Chain(m, n).grants + Logged("a", [m + 1]) == Chain(m + 1, n).grants;
  }

  lemma {:induction false} ResumeInChain(m: nat, n: nat)
    requires m < n
    ensures Enabled(Between(m, n), Resume(m + 1)) && !Releases(Between(m, n), Resume(m + 1), "a")
    ensures Step(Between(m, n), Resume(m + 1)) == Chain(m + 1, n)
  {
    ReleaseOfChain(m, n);
    var t := Step(Between(m, n), Resume(m + 1));
    assert t.shared.open == Span(m + 2, n + 1);
    assert t.permits == map[m + 1 := "a"];
    assert t.waiting == Chain(m + 1, n).waiting;
  }

  ghost predicate Serving(es: seq<Event>) {
    forall e :: e in es ==> e.DropPermit? || e.Resume?
  }

  lemma {:induction false} ServeOne(s: System, es: seq<Event>, m: nat, n: nat)
    requires m < n && Run(s, es, Chain(m, n))
    ensures Run(s, es + [DropPermit(m)] + [Resume(m + 1)], Chain(m + 1, n))
    ensures ReleaseCount(s, es + [DropPermit(m)] + [Resume(m + 1)], Chain(m + 1, n), "a") == ReleaseCount(s, es, Chain(m, n), "a") + 1
    ensures Serving(es) ==> Serving(es + [DropPermit(m)] + [Resume(m + 1)])
  {
    var t, u, v := Chain(m, n), Between(m, n), Chain(m + 1, n);
    DropInChain(m, n);
    ResumeInChain(m, n);
    RunPair(s, es, t, DropPermit(m), Resume(m + 1));
  }

  /** A run from `s` that serves k waiters of the chain with k releases of its account, and cancels no
      waiter and changes no limit. */
  ghost predicate RunServing(s: System, es: seq<Event>, k: nat, n: nat)
    requires k <= n
  {
    Run(s, es, Chain(k, n)) && Serving(es) && ReleaseCount(s, es, Chain(k, n), "a") == k
  }

  lemma {:induction false} ServeNext(s: System, es: seq<Event>, k: nat, n: nat)
    requires k < n && RunServing(s, es, k, n)
    ensures RunServing(s, es + [DropPermit(k)] + [Resume(k + 1)], k + 1, n)
  {
    ServeOne(s, es, k, n);
  }

  lemma {:induction false} ServeChain(s: System, n: nat, k: nat) returns (es: seq<Event>)
    requires k <= n && s == Chain(0, n)
    ensures RunServing(s, es, k, n)
  {
    if k == 0 {
      es := [];
    } else {
      var before := ServeChain(s, n, k - 1);
      ServeNext(s, before, k - 1, n);
      es := before + [DropPermit(k - 1)] + [Resume(k)];
    }
  }

  /** Waiter n is queued, n releases from its grant. */
  ghost predicate WaitsFor(s: System, n: nat) {
    Queued(s, "a", n) && Rank(s.shared.accounts["a"], n) == n
  }

  /** Waiter n has no grant yet, and has it after one release more. */
  ghost predicate NextServes(t: System, n: nat)
    requires n >= 1
  {
    var e := DropPermit(n - 1);
    n !in t.shared.sent && Enabled(t, e) && Releases(t, e, "a") && n in Step(t, e).shared.sent
  }

  /** In this reachable state the last of n waiters is n releases from its grant. */
  lemma {:induction false} LastWaits(n: nat)
    requires n >= 1
    ensures Reachable(Chain(0, n))
    ensures WaitsFor(Chain(0, n), n)
  {
    ChainIsReachable(n);
    assert Range(1, n + 1)[n - 1] == n;
  }

  lemma {:induction false} LastIsServed(n: nat)
    requires n >= 1
    ensures NextServes(Chain(n - 1, n), n)
  {
    DropInChain(n - 1, n);
    ReleaseOfChain(n - 1, n);
  }

  /** The bound is met exactly by a queue of every length: from the state in which, by `LastWaits`, the
      last of n waiters is n releases from its grant, a run with n - 1 releases of its account, no
      cancellation and no change of the limit leaves it waiting, and one release more grants it. */
  lemma {:induction false} BoundIsSharp(n: nat) returns (es: seq<Event>)
    requires n >= 1
    ensures RunServing(Chain(0, n), es, n - 1, n)
    ensures NextServes(Chain(n - 1, n), n)
  {
    es := ServeChain(Chain(0, n), n, n - 1);
    LastIsServed(n);
  }
}
