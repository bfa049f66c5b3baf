/** `select_excluding`, `select_account` and `overflow`: choosing an account with a free slot, or
    the account to queue on. */
module RouteSelection {
  import opened Wrappers
  import opened Routing
  import Slots = AccountSlots

  /** What selection meets on the way: whether its n-th lock section, asking for a slot of a route,
      is given one, and its random numbers. */
  datatype World = World(granted: (nat, Route) -> bool, rolls: nat -> Dice)

  /** The answers of the slot queue, where `slots(n)` is its value when the n-th lock section starts:
      other requests run in between. */
  function Answers(slots: nat -> Slots.Shared): (nat, Route) -> bool {
    (n: nat, route: Route) => Slots.TryAcquire(slots(n), route.account, route.limit).1
  }

  /** A slot is refused exactly when the account has none free, or has a queue, at that moment. */
  lemma {:induction false} RefusedMeansFull(slots: nat -> Slots.Shared, n: nat, route: Route)
    ensures !Answers(slots)(n, route) <==> Full(slots(n), route.account)
  {
  }

  datatype Outcome = Limited | NoRoute | Running(route: Route) | QueueOn(route: Route)

  function OthersOf(preferred: Route): Route -> bool {
    (c: Route) => c.role == preferred.role && c.account != preferred.account
  }

  function OffAccount(account: string): Route -> bool {
    (c: Route) => c.account != account
  }

  function NotIn(excluded: set<string>): Route -> bool {
    (c: Route) => c.account !in excluded
  }

  /** Choosing the n-th time from a list of routes. */
  type Choose = f: (nat, seq<Route>) -> Option<Route> | forall n, routes :: f(n, routes).Some? ==> f(n, routes).value in routes
    ghost witness (n, routes) => None

  lemma {:induction false} SelectedIsListed(routes: seq<Route>, affinity: Option<Hash>, dice: Dice)
    ensures var next := SelectRoute(routes, affinity, dice);
            next.Some? ==> next.value in routes && next.value.weight > 0
  {
    var next := SelectRoute(routes, affinity, dice);
    if next.Some? {
      InTierMeans(routes, next.value);
    }
  }

  /** The choices of `select_route` with the world's random numbers. */
  function Choices(w: World, affinity: Option<Hash>): Choose {
    var f := (n: nat, routes: seq<Route>) => SelectRoute(routes, affinity, w.rolls(n));
    assert forall n, routes :: f(n, routes).Some? ==> f(n, routes).value in routes by {
      forall n: nat, routes: seq<Route> ensures f(n, routes).Some? ==> f(n, routes).value in routes {
        SelectedIsListed(routes, affinity, w.rolls(n));
      }
    }
    f
  }

  /** `retain`: the routes left when those of one route's account are removed, in their order. */
  type Retain = f: (seq<Route>, Route) -> seq<Route> | forall routes, route :: RemovesAccount(routes, route, f(routes, route))
    ghost witness RetainOthers()

  ghost predicate RemovesAccount(routes: seq<Route>, route: Route, left: seq<Route>) {
    && (forall c :: c in left <==> c in routes && c.account != route.account)
    && (route in routes ==> |left| < |routes|)
  }

  function RetainOthers(): (f: (seq<Route>, Route) -> seq<Route>)
    ensures forall routes, route :: RemovesAccount(routes, route, f(routes, route))
  {
    var f := (routes: seq<Route>, route: Route) => Keep(OffAccount(route.account), routes);
    assert forall routes, route :: RemovesAccount(routes, route, f(routes, route)) by {
      forall routes: seq<Route>, route: Route ensures RemovesAccount(routes, route, f(routes, route)) {
        KeepShrinks(OffAccount(route.account), routes, route);
      }
    }
    f
  }

  /** `overflow` from the routes that remain, when lock section n comes next: the route that got a
      slot, and the routes tried. */
  function Overflowed(choose: Choose, retain: Retain, granted: (nat, Route) -> bool, remaining: seq<Route>, n: nat): (Option<Route>, seq<Route>)
    decreases |remaining|
  {
    var next := choose(n, remaining);
    if next.None? then (None, [])
    else if granted(n, next.value) then (next, [next.value])
    else
      assert RemovesAccount(remaining, next.value, retain(remaining, next.value));
      var rest := Overflowed(choose, retain, granted, retain(remaining, next.value), n + 1);
      (rest.0, [next.value] + rest.1)
  }

  lemma {:induction false} KeepShrinks(p: Route -> bool, routes: seq<Route>, x: Route)
    ensures x in routes && !p(x) ==> |Keep(p, routes)| < |routes|
  {
    if routes != [] && routes[0] != x {
      KeepShrinks(p, routes[1..], x);
    }
  }

  /** A refusal leaves the rest of the tries to what `retain` leaves. */
  lemma {:induction false} RefusedOnce(choose: Choose, retain: Retain, granted: (nat, Route) -> bool, remaining: seq<Route>, n: nat,
                                       tried: seq<Route>)
    requires choose(n, remaining).Some? && !granted(n, choose(n, remaining).value)
    ensures var route := choose(n, remaining).value;
            var all := Overflowed(choose, retain, granted, remaining, n);
            var rest := Overflowed(choose, retain, granted, retain(remaining, route), n + 1);
            |retain(remaining, route)| < |remaining| && all.0 == rest.0 && tried + all.1 == (tried + [route]) + rest.1
  {
    var route := choose(n, remaining).value;
    assert RemovesAccount(remaining, route, retain(remaining, route));
    var rest := Overflowed(choose, retain, granted, retain(remaining, route), n + 1);
    assert tried + ([route] + rest.1) == (tried + [route]) + rest.1;
  }

  /** The loop of `overflow`, with `choose` standing for `select_route`. */
  method TryInTurn(choose: Choose, retain: Retain, granted: (nat, Route) -> bool, others: seq<Route>, at: nat)
      returns (chosen: Option<Route>, tried: seq<Route>)
    ensures chosen == Overflowed(choose, retain, granted, others, at).0
    ensures tried == Overflowed(choose, retain, granted, others, at).1
  {
    var remaining := others;
    var n := at;
    tried := [];
    ghost var all := Overflowed(choose, retain, granted, remaining, at);
    assert [] + all.1 == all.1;
    while true
      invariant var rest := Overflowed(choose, retain, granted, remaining, n); all == (rest.0, tried + rest.1)
      decreases |remaining|
    {
      var next := choose(n, remaining);
      if next.None? {
        assert tried + [] == tried;
        return None, tried;
      }
      var route := next.value;
      if granted(n, route) {
        return Some(route), tried + [route];
      }
      RefusedOnce(choose, retain, granted, remaining, n, tried);
      remaining := retain(remaining, route);
      tried := tried + [route];
      n := n + 1;
    }
  }

  ghost predicate AccountTried(tried: seq<Route>, account: string) {
    exists k :: 0 <= k < |tried| && tried[k].account == account
  }

  /** The routes tried come from the list, have weight, and stand for distinct accounts; all were
      refused, except that the last one is the chosen one. */
  ghost predicate TriedInTurn(granted: (nat, Route) -> bool, routes: seq<Route>, n: nat, chosen: Option<Route>, tried: seq<Route>) {
    && (forall k :: 0 <= k < |tried| ==> tried[k] in routes && tried[k].weight > 0)
    && (forall j, k :: 0 <= j < k < |tried| ==> tried[j].account != tried[k].account)
    && (forall k :: 0 <= k < |tried| ==> (granted(n + k, tried[k]) <==> chosen.Some? && k == |tried| - 1))
    && (chosen.Some? ==> tried != [] && chosen.value == tried[|tried| - 1])
  }

  lemma {:induction false} OneMoreTried(granted: (nat, Route) -> bool, routes: seq<Route>, left: seq<Route>, n: nat,
                                        chosen: Option<Route>, tried: seq<Route>, route: Route)
    requires TriedInTurn(granted, left, n + 1, chosen, tried) && !granted(n, route)
    requires route in routes && route.weight > 0
    requires forall c :: c in left ==> c in routes && c.account != route.account
    ensures TriedInTurn(granted, routes, n, chosen, [route] + tried)
  {
    var all := [route] + tried;
    forall k | 0 <= k < |all|
      ensures granted(n + k, all[k]) <==> chosen.Some? && k == |all| - 1
    {
      assert k > 0 ==> all[k] == tried[k - 1] && n + k == n + 1 + (k - 1);
    }
  }

  predicate Within(routes: seq<Route>, role: string) {
    forall c :: c in routes ==> c.role == role
  }

  /** A route of weight, or none when no route has weight. */
  predicate Picked(next: Option<Route>, routes: seq<Route>) {
    if next.Some? then next.value in routes && next.value.weight > 0 else forall c :: c in routes ==> c.weight == 0
  }

  ghost predicate PicksAny(choose: Choose, role: string) {
    forall n: nat, routes: seq<Route> :: Within(routes, role) ==> Picked(choose(n, routes), routes)
  }

  /** Within one tier `select_route` finds a route whenever one has weight. */
  lemma {:induction false} ChoicesPickAny(w: World, affinity: Option<Hash>, role: string)
    requires role in {"primary", "backup"}
    ensures PicksAny(Choices(w, affinity), role)
  {
    forall n: nat, routes: seq<Route> | Within(routes, role) ensures Picked(Choices(w, affinity)(n, routes), routes) {
      SelectedIsListed(routes, affinity, w.rolls(n));
      if SelectRoute(routes, affinity, w.rolls(n)).None? {
        NothingUsable(routes, role);
      }
    }
  }

  /** The tries account for the whole list: in turn, and all of it when none was granted. */
  ghost predicate Complete(granted: (nat, Route) -> bool, routes: seq<Route>, n: nat, chosen: Option<Route>, tried: seq<Route>) {
    && TriedInTurn(granted, routes, n, chosen, tried)
    && (chosen.None? ==> forall c :: c in routes && c.weight > 0 ==> AccountTried(tried, c.account))
  }

  lemma {:induction false} OneMoreComplete(granted: (nat, Route) -> bool, routes: seq<Route>, left: seq<Route>, n: nat,
                                           chosen: Option<Route>, tried: seq<Route>, route: Route)
    requires RemovesAccount(routes, route, left) && Complete(granted, left, n + 1, chosen, tried)
    requires route in routes && route.weight > 0 && !granted(n, route)
    ensures Complete(granted, routes, n, chosen, [route] + tried)
  {
    OneMoreTried(granted, routes, left, n, chosen, tried, route);
    AddTried(route, tried);
  }

  lemma {:induction false} OnlyTry(granted: (nat, Route) -> bool, routes: seq<Route>, n: nat, route: Route)
    requires route in routes && route.weight > 0 && granted(n, route)
    ensures Complete(granted, routes, n, Some(route), [route])
  {
  }

  /** Every account is tried at most once, in the order of selection, and the loop gives up only when
      every account of the tier with weight was tried and refused. */
  lemma {:induction false} OverflowIsComplete(choose: Choose, retain: Retain, granted: (nat, Route) -> bool,
                                              remaining: seq<Route>, n: nat, role: string)
    requires PicksAny(choose, role) && Within(remaining, role)
    ensures var (chosen, tried) := Overflowed(choose, retain, granted, remaining, n);
            Complete(granted, remaining, n, chosen, tried)
    decreases |remaining|
  {
    var next := choose(n, remaining);
    assert Picked(next, remaining);
    if next.None? {
      assert Complete(granted, remaining, n, None, []);
    } else if granted(n, next.value) {
      OnlyTry(granted, remaining, n, next.value);
    } else {
      var route := next.value;
      var left := retain(remaining, route);
      assert RemovesAccount(remaining, route, left);
      OverflowIsComplete(choose, retain, granted, left, n + 1, role);
      var rest := Overflowed(choose, retain, granted, left, n + 1);
      OneMoreComplete(granted, remaining, left, n, rest.0, rest.1, route);
    }
  }

  lemma {:induction false} AddTried(route: Route, tried: seq<Route>)
    ensures forall account :: AccountTried([route] + tried, account) <==> AccountTried(tried, account) || account == route.account
  {
    forall account ensures AccountTried([route] + tried, account) <==> AccountTried(tried, account) || account == route.account {
      var all := [route] + tried;
      assert all[0] == route;
      assert forall k :: 0 <= k < |tried| ==> all[k + 1] == tried[k];
    }
  }

  lemma {:induction false} NothingUsable(remaining: seq<Route>, role: string)
    requires role in {"primary", "backup"} && forall c :: c in remaining ==> c.role == role
    requires InTier(remaining) == []
    ensures forall c :: c in remaining ==> c.weight == 0
  {
    forall c | c in remaining ensures c.weight == 0 {
      assert forall other :: HasRole(remaining, other) ==> other == role;
      assert HasRole(remaining, role);
      InTierMeans(remaining, c);
    }
  }

  function AccountsOf(tried: seq<Route>): set<string> {
    set c | c in tried :: c.account
  }

  /** The routes whose account has not been tried, in their order. */
  function Untried(routes: seq<Route>, tried: seq<Route>): seq<Route> {
    Keep(NotIn(AccountsOf(tried)), routes)
  }

  /** Each try is the usual choice among the routes whose account was not tried before it, and when no
      try was granted there is no choice left. */
  ghost predicate InUsualOrder(w: World, affinity: Option<Hash>, routes: seq<Route>, n: nat, chosen: Option<Route>, tried: seq<Route>) {
    && (forall k :: 0 <= k < |tried| ==> SelectRoute(Untried(routes, tried[..k]), affinity, w.rolls(n + k)) == Some(tried[k]))
    && (chosen.None? ==> SelectRoute(Untried(routes, tried), affinity, w.rolls(n + |tried|)) == None)
  }

  /** What `retain` leaves after the tries. */
  function Left(retain: Retain, routes: seq<Route>, tried: seq<Route>): seq<Route>
    decreases |tried|
  {
    if tried == [] then routes else Left(retain, retain(routes, tried[0]), tried[1..])
  }

  ghost predicate NextTry(choose: Choose, retain: Retain, routes: seq<Route>, n: nat, tried: seq<Route>, k: nat)
    requires k < |tried|
  {
    choose(n + k, Left(retain, routes, tried[..k])) == Some(tried[k])
  }

  /** Each try is the choice from what the tries before it left. */
  ghost predicate InOrder(choose: Choose, retain: Retain, routes: seq<Route>, n: nat, chosen: Option<Route>, tried: seq<Route>) {
    && (forall k :: 0 <= k < |tried| ==> NextTry(choose, retain, routes, n, tried, k))
    && (chosen.None? ==> choose(n + |tried|, Left(retain, routes, tried)) == None)
  }

  lemma {:induction false} OneMoreInOrder(choose: Choose, retain: Retain, routes: seq<Route>, n: nat,
                                          chosen: Option<Route>, tried: seq<Route>, route: Route)
    requires choose(n, routes) == Some(route) && InOrder(choose, retain, retain(routes, route), n + 1, chosen, tried)
    ensures InOrder(choose, retain, routes, n, chosen, [route] + tried)
  {
    var all := [route] + tried;
    forall k | 0 <= k < |all| ensures NextTry(choose, retain, routes, n, all, k) {
      if k > 0 {
        assert NextTry(choose, retain, retain(routes, route), n + 1, tried, k - 1);
        assert all[..k][1..] == tried[..k - 1];
      }
    }
    assert all[1..] == tried;
  }

  /** `overflow` tries in the order of its choices. */
  lemma {:induction false} OverflowInOrder(choose: Choose, retain: Retain, granted: (nat, Route) -> bool, routes: seq<Route>, n: nat)
    ensures var r := Overflowed(choose, retain, granted, routes, n);
            InOrder(choose, retain, routes, n, r.0, r.1)
    decreases |routes|
  {
    var next := choose(n, routes);
    if next.Some? && !granted(n, next.value) {
      var left := retain(routes, next.value);
      assert RemovesAccount(routes, next.value, left);
      OverflowInOrder(choose, retain, granted, left, n + 1);
      var rest := Overflowed(choose, retain, granted, left, n + 1);
      OneMoreInOrder(choose, retain, routes, n, rest.0, rest.1, next.value);
    }
  }

  lemma {:induction false} KeepTwice(p: Route -> bool, q: Route -> bool, both: Route -> bool, routes: seq<Route>)
    requires forall c :: both(c) <==> p(c) && q(c)
    ensures Keep(p, Keep(q, routes)) == Keep(both, routes)
  {
    if routes != [] {
      KeepTwice(p, q, both, routes[1..]);
    }
  }

  lemma {:induction false} KeepAll(p: Route -> bool, routes: seq<Route>)
    requires forall c :: p(c)
    ensures Keep(p, routes) == routes
  {
    if routes != [] {
      KeepAll(p, routes[1..]);
    }
  }

  lemma {:induction false} LeftIsUntried(routes: seq<Route>, tried: seq<Route>)
    ensures Left(RetainOthers(), routes, tried) == Untried(routes, tried)
    decreases |tried|
  {
    if tried == [] {
      KeepAll(NotIn(AccountsOf(tried)), routes);
    } else {
      var left := Keep(OffAccount(tried[0].account), routes);
      LeftIsUntried(left, tried[1..]);
      assert forall c :: c in tried <==> c == tried[0] || c in tried[1..];
      KeepTwice(NotIn(AccountsOf(tried[1..])), OffAccount(tried[0].account), NotIn(AccountsOf(tried)), routes);
    }
  }

  lemma {:induction false} ChoicesInOrder(w: World, affinity: Option<Hash>, routes: seq<Route>, n: nat, chosen: Option<Route>, tried: seq<Route>)
    requires InOrder(Choices(w, affinity), RetainOthers(), routes, n, chosen, tried)
    ensures InUsualOrder(w, affinity, routes, n, chosen, tried)
  {
    forall k | 0 <= k < |tried|
      ensures SelectRoute(Untried(routes, tried[..k]), affinity, w.rolls(n + k)) == Some(tried[k])
    {
      assert NextTry(Choices(w, affinity), RetainOthers(), routes, n, tried, k);
      LeftIsUntried(routes, tried[..k]);
    }
    LeftIsUntried(routes, tried);
  }

  /** `overflow`. */
  method Overflow(w: World, candidates: seq<Route>, preferred: Route, affinity: Option<Hash>, at: nat)
      returns (chosen: Option<Route>, tried: seq<Route>)
    requires preferred.role in {"primary", "backup"}
    ensures Complete(w.granted, Keep(OthersOf(preferred), candidates), at, chosen, tried)
    ensures InUsualOrder(w, affinity, Keep(OthersOf(preferred), candidates), at, chosen, tried)
    ensures (chosen, tried) == Overflowed(Choices(w, affinity), RetainOthers(), w.granted, Keep(OthersOf(preferred), candidates), at)
  {
    chosen, tried := TryInTurn(Choices(w, affinity), RetainOthers(), w.granted, Keep(OthersOf(preferred), candidates), at);
    var _, _ := CompleteOverflow(w, candidates, preferred, affinity, at);
  }

  lemma {:induction false} CompleteOverflow(w: World, candidates: seq<Route>, preferred: Route, affinity: Option<Hash>, at: nat)
      returns (chosen: Option<Route>, tried: seq<Route>)
    requires preferred.role in {"primary", "backup"}
    ensures Complete(w.granted, Keep(OthersOf(preferred), candidates), at, chosen, tried)
    ensures InUsualOrder(w, affinity, Keep(OthersOf(preferred), candidates), at, chosen, tried)
    ensures (chosen, tried) == Overflowed(Choices(w, affinity), RetainOthers(), w.granted, Keep(OthersOf(preferred), candidates), at)
  {
    var others := Keep(OthersOf(preferred), candidates);
    ChoicesPickAny(w, affinity, preferred.role);
    OverflowInOrder(Choices(w, affinity), RetainOthers(), w.granted, others, at);
    OverflowIsComplete(Choices(w, affinity), RetainOthers(), w.granted, others, at, preferred.role);
    var rest := Overflowed(Choices(w, affinity), RetainOthers(), w.granted, others, at);
    chosen, tried := rest.0, rest.1;
    ChoicesInOrder(w, affinity, others, at, chosen, tried);
  }

  /** What selection over the candidates comes to. The preferred route is asked in section 0, and if it
      is refused the routes in `tried` are asked in the sections that follow, in the usual order: the
      request runs on the one that was granted, and queues on the preferred route only when every usable
      account of its tier was asked and refused in those very sections. */
  ghost predicate Selects(w: World, candidates: seq<Route>, limited: bool, affinity: Option<Hash>, r: Outcome, tried: seq<Route>) {
    var first := SelectRoute(candidates, affinity, w.rolls(0));
    if candidates == [] && limited then r == Limited && tried == []
    else if first.None? then r == NoRoute && tried == [] && InTier(candidates) == []
    else
      && first.value in InTier(candidates)
      && (if w.granted(0, first.value) then r == Running(first.value) && tried == []
          else
            var other := if r.Running? then Some(r.route) else None;
            && (r.Running? || r == QueueOn(first.value))
            && (forall k :: 0 <= k < |tried| ==> tried[k].account != first.value.account && tried[k].role == first.value.role)
            && Complete(w.granted, Keep(OthersOf(first.value), candidates), 1, other, tried)
            && InUsualOrder(w, affinity, Keep(OthersOf(first.value), candidates), 1, other, tried))
  }

  /** The outcome and the routes tried, the tries in the order of `select_route`'s choices. */
  function SelectionOf(w: World, candidates: seq<Route>, limited: bool, affinity: Option<Hash>): (Outcome, seq<Route>) {
    var first := SelectRoute(candidates, affinity, w.rolls(0));
    if candidates == [] && limited then (Limited, [])
    else if first.None? then (NoRoute, [])
    else if w.granted(0, first.value) then (Running(first.value), [])
    else
      var rest := Overflowed(Choices(w, affinity), RetainOthers(), w.granted, Keep(OthersOf(first.value), candidates), 1);
      (if rest.0.Some? then Running(rest.0.value) else QueueOn(first.value), rest.1)
  }

  /** `select_excluding` up to the wait in the queue: `limited` tells whether the model has a
      rate-limited route. */
  method SelectExcluding(w: World, routes: seq<Route>, limited: bool, affinity: Option<Hash>, excluded: set<string>)
      returns (r: Outcome, tried: seq<Route>)
    ensures Selects(w, Keep(NotIn(excluded), routes), limited, affinity, r, tried)
    ensures r.Running? || r.QueueOn? ==> r.route in InTier(Keep(NotIn(excluded), routes))
    ensures r.Running? || r.QueueOn? ==> r.route in routes && r.route.account !in excluded && r.route.weight > 0
    ensures !r.Limited? ==> PrimaryFirst(Keep(NotIn(excluded), routes), if r.NoRoute? then None else Some(r.route))
    ensures (r, tried) == SelectionOf(w, Keep(NotIn(excluded), routes), limited, affinity)
  {
    var candidates := Keep(NotIn(excluded), routes);
    if candidates == [] && limited {
      return Limited, [];
    }
    var first := Select(candidates, affinity, w.rolls(0));
    if first.None? {
      return NoRoute, [];
    }
    var preferred := first.value;
    InTierMeans(candidates, preferred);
    TierIsPrimaryFirst(candidates, first);
    if w.granted(0, preferred) {
      return Running(preferred), [];
    }
    var other;
    other, tried := Overflow(w, candidates, preferred, affinity, 1);
    r := if other.Some? then Running(other.value) else QueueOn(preferred);
    RunsInTier(w, candidates, limited, affinity, r, tried);
    InTierMeans(candidates, r.route);
    TierIsPrimaryFirst(candidates, Some(r.route));
  }

  /** A selected route is of the tier of the candidates. */
  lemma {:induction false} RunsInTier(w: World, candidates: seq<Route>, limited: bool, affinity: Option<Hash>, r: Outcome, tried: seq<Route>)
    requires Selects(w, candidates, limited, affinity, r, tried) && (r.Running? || r.QueueOn?)
    ensures r.route in InTier(candidates)
  {
    var first := SelectRoute(candidates, affinity, w.rolls(0)).value;
    InTierMeans(candidates, first);
    InTierMeans(candidates, r.route);
  }

  lemma {:induction false} SelectionSelects(w: World, candidates: seq<Route>, limited: bool, affinity: Option<Hash>)
    ensures var (r, tried) := SelectionOf(w, candidates, limited, affinity);
            Selects(w, candidates, limited, affinity, r, tried)
  {
    var first := SelectRoute(candidates, affinity, w.rolls(0));
    if first.Some? {
      var preferred := first.value;
      InTierMeans(candidates, preferred);
      var chosen, tried := CompleteOverflow(w, candidates, preferred, affinity, 1);
    }
  }

  /** The account had no slot to give when it was asked: a queue, or no capacity. */
  predicate Full(shared: Slots.Shared, account: string) {
    && account in shared.accounts
    && (shared.accounts[account].waiters != [] || !shared.accounts[account].HasCapacity())
  }

  /** A request queues only if every usable account of the tier was full when it was asked: the preferred
      one in section 0, each account tried in its own section, and every route of weight of the tier is of
      one of them. */
  lemma {:induction false} QueuesOnlyWhenAllFull(slots: nat -> Slots.Shared, rolls: nat -> Dice, candidates: seq<Route>,
                                                 limited: bool, affinity: Option<Hash>)
    ensures var (r, tried) := SelectionOf(World(Answers(slots), rolls), candidates, limited, affinity);
            r.QueueOn? ==>
              && Full(slots(0), r.route.account)
              && (forall k :: 0 <= k < |tried| ==> Full(slots(k + 1), tried[k].account))
              && (forall c :: c in candidates && c.role == r.route.role && c.weight > 0 ==>
                    c.account == r.route.account || AccountTried(tried, c.account))
  {
    var w := World(Answers(slots), rolls);
    SelectionSelects(w, candidates, limited, affinity);
    var selection := SelectionOf(w, candidates, limited, affinity);
    if selection.0.QueueOn? {
      RefusedWereFull(slots, w, candidates, limited, affinity, selection.0.route, selection.1);
    }
  }

  lemma {:induction false} RefusedWereFull(slots: nat -> Slots.Shared, w: World, candidates: seq<Route>, limited: bool,
                                           affinity: Option<Hash>, preferred: Route, tried: seq<Route>)
    requires w.granted == Answers(slots) && Selects(w, candidates, limited, affinity, QueueOn(preferred), tried)
    ensures Full(slots(0), preferred.account)
    ensures forall k :: 0 <= k < |tried| ==> Full(slots(k + 1), tried[k].account)
    ensures forall c :: c in candidates && c.role == preferred.role && c.weight > 0 ==>
              c.account == preferred.account || AccountTried(tried, c.account)
  {
    RefusedMeansFull(slots, 0, preferred);
    forall k | 0 <= k < |tried| ensures Full(slots(k + 1), tried[k].account) {
      assert !w.granted(1 + k, tried[k]);
      RefusedMeansFull(slots, 1 + k, tried[k]);
    }
    forall c | c in candidates && c.role == preferred.role && c.weight > 0 && c.account != preferred.account
      ensures AccountTried(tried, c.account)
    {
      assert c in Keep(OthersOf(preferred), candidates);
    }
  }

  // ------------------------------------------------------------------ one account

  function OthersAccounts(routes: seq<Route>, account: string): set<string> {
    set c | c in routes && c.account != account :: c.account
  }

  /** The routes left for a retry of `account`: `seen` is the list when its other accounts were
      excluded, `routes` the list when the route is selected. */
  function RetryCandidates(seen: seq<Route>, routes: seq<Route>, account: string): seq<Route> {
    Keep(NotIn(OthersAccounts(seen, account)), routes)
  }

  predicate Listed(routes: seq<Route>, account: string) {
    exists c :: c in routes && c.account == account
  }

  function AccountSelection(w: World, seen: seq<Route>, routes: seq<Route>, limited: bool, affinity: Option<Hash>,
                            account: string): Option<Outcome>
  {
    if Listed(seen, account) then Some(SelectionOf(w, RetryCandidates(seen, routes, account), limited, affinity).0) else None
  }

  /** What is left for a retry: the asked account's routes, and those of accounts that the first list did not hold. */
  lemma {:induction false} RetryCandidatesExactly(seen: seq<Route>, routes: seq<Route>, account: string, c: Route)
    ensures c in RetryCandidates(seen, routes, account)
       <==> c in routes && (c.account == account || forall other :: other in seen ==> other.account != c.account)
  {
    assert c.account in OthersAccounts(seen, account)
      <==> c.account != account && exists other :: other in seen && other.account == c.account;
  }

  /** `select_account`: the list is read to see the account and to exclude the others, and read
      again by `select_excluding`. `None` is the ServiceUnavailable error. */
  method SelectAccount(w: World, seen: seq<Route>, routes: seq<Route>, limited: bool, affinity: Option<Hash>, account: string)
      returns (r: Option<Outcome>, tried: seq<Route>)
    ensures r == None <==> forall c :: c in seen ==> c.account != account
    ensures r.Some? ==> Selects(w, RetryCandidates(seen, routes, account), limited, affinity, r.value, tried)
    ensures r.Some? && (r.value.Running? || r.value.QueueOn?) ==>
              && r.value.route in InTier(RetryCandidates(seen, routes, account))
              && (r.value.route.account == account || !Listed(seen, r.value.route.account))
    ensures r.Some? && !r.value.Limited? ==>
              PrimaryFirst(RetryCandidates(seen, routes, account), if r.value.NoRoute? then None else Some(r.value.route))
    ensures r == AccountSelection(w, seen, routes, limited, affinity, account)
  {
    if !Listed(seen, account) {
      return None, [];
    }
    var outcome;
    outcome, tried := SelectExcluding(w, routes, limited, affinity, OthersAccounts(seen, account));
    assert forall c :: c in seen && c.account != account ==> c.account in OthersAccounts(seen, account);
    return Some(outcome), tried;
  }

  /** The answer, if it is a route, is of this account. */
  predicate AnswersFor(r: Option<Outcome>, account: string) {
    r.Some? && (r.value.Running? || r.value.QueueOn?) ==> r.value.route.account == account
  }

  ghost predicate AlwaysAnswersFor(seen: seq<Route>, routes: seq<Route>, limited: bool, account: string) {
    forall w: World, affinity: Option<Hash> :: AnswersFor(AccountSelection(w, seen, routes, limited, affinity, account), account)
  }

  /** Dice that always show r, where they can. */
  function Showing(r: nat): Dice {
    (total: nat) => if r < total then r else 0
  }

  /** Any eligible route can be drawn. */
  lemma {:induction false} AnyRouteCanBeDrawn(candidates: seq<Route>, c: Route) returns (dice: Dice)
    requires c in InTier(candidates)
    ensures SelectRoute(candidates, None, dice) == Some(c)
  {
    var eligible := InTier(candidates);
    var i :| 0 <= i < |eligible| && eligible[i] == c;
    InTierMeans(candidates, c);
    InTierMeans(candidates, eligible[0]);
    var r := Total(eligible[..i]);
    TotalUpTo(eligible, i);
    DrawnInterval(eligible, r, i);
    dice := Showing(r);
  }

  /** Whatever is drawn, granted or refused, a retry answers with the asked account exactly when each
      route that is eligible at the second reading of the list is of that account: accounts that were
      not in the first reading are not excluded. */
  lemma {:induction false} AskedAccountExactly(seen: seq<Route>, routes: seq<Route>, limited: bool, account: string)
    requires Listed(seen, account)
    ensures AlwaysAnswersFor(seen, routes, limited, account)
            <==> forall c :: c in InTier(RetryCandidates(seen, routes, account)) ==> c.account == account
  {
    var candidates := RetryCandidates(seen, routes, account);
    if AlwaysAnswersFor(seen, routes, limited, account) {
      forall c | c in InTier(candidates) ensures c.account == account {
        var w := AnyRouteCanRun(candidates, limited, c);
        assert AnswersFor(AccountSelection(w, seen, routes, limited, None, account), account);
      }
    }
    if forall c :: c in InTier(candidates) ==> c.account == account {
      forall w: World, affinity: Option<Hash>
        ensures AnswersFor(AccountSelection(w, seen, routes, limited, affinity, account), account)
      {
        SelectionInTier(w, candidates, limited, affinity);
      }
    }
  }

  lemma {:induction false} AnyRouteCanRun(candidates: seq<Route>, limited: bool, c: Route) returns (w: World)
    requires c in InTier(candidates)
    ensures SelectionOf(w, candidates, limited, None).0 == Running(c)
  {
    var dice := AnyRouteCanBeDrawn(candidates, c);
    InTierMeans(candidates, c);
    w := World((n: nat, route: Route) => true, (n: nat) => dice);
  }

  lemma {:induction false} SelectionInTier(w: World, candidates: seq<Route>, limited: bool, affinity: Option<Hash>)
    ensures var r := SelectionOf(w, candidates, limited, affinity).0;
            r.Running? || r.QueueOn? ==> r.route in InTier(candidates)
  {
    SelectionSelects(w, candidates, limited, affinity);
    var r, tried := SelectionOf(w, candidates, limited, affinity).0, SelectionOf(w, candidates, limited, affinity).1;
    if r.Running? || r.QueueOn? {
      RunsInTier(w, candidates, limited, affinity, r, tried);
    }
  }

  /** So it does when the list does not change between its readings. */
  lemma {:induction false} SteadyListAnswersFor(seen: seq<Route>, limited: bool, account: string)
    requires Listed(seen, account)
    ensures AlwaysAnswersFor(seen, seen, limited, account)
  {
    AskedAccountExactly(seen, seen, limited, account);
    var candidates := RetryCandidates(seen, seen, account);
    forall c | c in InTier(candidates) ensures c.account == account {
      InTierMeans(candidates, c);
      assert c.account !in OthersAccounts(seen, account);
    }
  }

  lemma {:induction false} TwoRoutes(score: Route -> real, a: Route, b: Route)
    requires a.role == b.role == "primary" && a.weight > 0 && b.weight > 0 && score(a) <= score(b)
    ensures InTier([a, b]) == [a, b] && Best(score, [a, b]) == Some(a)
  {
    var p := EligibleIn("primary");
    assert [a, b][1..] == [b] && [b][1..] == [] && a in [a, b];
    assert Keep(p, [b]) == [b];
    assert [a, b][..1] == [a] && [a][..0] == [];
  }

  /** An instance of the other case: account b comes up between the readings, ahead of the asked
      account a, and the retry for a runs on b. */
  lemma {:induction false} RetryCanLandElsewhere(w: World, a: Route, b: Route, hash: Hash)
    requires a.role == b.role == "primary" && a.weight > 0 && b.weight > 0 && a.account != b.account
    requires Score(hash)(b) <= Score(hash)(a) && w.granted(0, b)
    ensures AccountSelection(w, [a], [b, a], false, Some(hash), a.account) == Some(Running(b))
  {
    var p := NotIn({});
    assert a in [a];
    assert OthersAccounts([a], a.account) == {};
    assert [b, a][1..] == [a] && [a][1..] == [];
    assert Keep(p, [a]) == [a];
    TwoRoutes(Score(hash), b, a);
  }
}
