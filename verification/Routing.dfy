/** `select_route`: the tier, the weighted draw and the weighted rendezvous choice. */
module Routing {
  import opened Wrappers

  datatype Route = Route(id: string, account: string, role: string, weight: nat, limit: nat)

  /** What the session hash gives each route id: a nonnegative number, the smaller the better. */
  type Hash = h: string -> real | forall id :: h(id) >= 0.0
    ghost witness id => 0.0

  /** `random_range(0..total)`: any number below the total. */
  type Dice = d: nat -> nat | forall total :: total > 0 ==> d(total) < total
    ghost witness total => 0

  function Keep(p: Route -> bool, routes: seq<Route>): (r: seq<Route>)
    ensures |r| <= |routes|
    ensures forall x :: x in r <==> x in routes && p(x)
  {
    if routes == [] then []
    else
      var rest := Keep(p, routes[1..]);
      assert forall x :: x in routes <==> x == routes[0] || x in routes[1..];
      if p(routes[0]) then [routes[0]] + rest else rest
  }

  lemma {:induction false} KeepAppend(p: Route -> bool, xs: seq<Route>, ys: seq<Route>)
    ensures Keep(p, xs + ys) == Keep(p, xs) + Keep(p, ys)
  {
    if xs == [] {
      assert xs + ys == ys;
      assert Keep(p, xs) + Keep(p, ys) == Keep(p, ys);
    } else {
      assert (xs + ys)[1..] == xs[1..] + ys;
      KeepAppend(p, xs[1..], ys);
    }
  }

  // ------------------------------------------------------------------ the tier

  predicate HasRole(candidates: seq<Route>, role: string) {
    exists c :: c in candidates && c.role == role
  }

  function Tier(candidates: seq<Route>): Option<string> {
    if HasRole(candidates, "primary") then Some("primary")
    else if HasRole(candidates, "backup") then Some("backup")
    else None
  }

  predicate Eligible(role: string, c: Route) {
    c.role == role && c.weight > 0
  }

  function EligibleIn(role: string): Route -> bool {
    c => Eligible(role, c)
  }

  function InTier(candidates: seq<Route>): seq<Route> {
    match Tier(candidates)
    case None => []
    case Some(role) => Keep(EligibleIn(role), candidates)
  }

  lemma {:induction false} InTierMeans(candidates: seq<Route>, x: Route)
    ensures x in InTier(candidates) <==> x in candidates && Tier(candidates).Some? && Eligible(Tier(candidates).value, x)
  {
  }

  // ------------------------------------------------------------------ the weighted draw

  function Total(routes: seq<Route>): (t: nat)
    ensures routes != [] && routes[0].weight > 0 ==> t > 0
  {
    if routes == [] then 0 else routes[0].weight + Total(routes[1..])
  }

  /** Which route the draw `r` selects; the number of routes when it selects none. */
  function DrawnIndex(routes: seq<Route>, r: nat): (i: nat)
    ensures i <= |routes|
  {
    if routes == [] || r < routes[0].weight then 0 else 1 + DrawnIndex(routes[1..], r - routes[0].weight)
  }

  /** The scan over the eligible routes with its running subtraction. */
  method Draw(routes: seq<Route>, r: nat) returns (chosen: Option<Route>)
    ensures var i := DrawnIndex(routes, r);
            chosen == if i < |routes| then Some(routes[i]) else None
  {
    var selected := r;
    var k := 0;
    while k < |routes|
      invariant 0 <= k <= |routes|
      invariant DrawnIndex(routes, r) == k + DrawnIndex(routes[k..], selected)
    {
      var weight := routes[k].weight;
      if selected < weight {
        return Some(routes[k]);
      }
      selected := selected - weight;
      assert routes[k..][1..] == routes[k + 1..];
      k := k + 1;
    }
    return None;
  }

  lemma {:induction false} DrawnInterval(routes: seq<Route>, r: nat, i: nat)
    requires i < |routes|
    ensures DrawnIndex(routes, r) == i <==> Total(routes[..i]) <= r < Total(routes[..i]) + routes[i].weight
  {
    if i > 0 {
      assert routes[..i][1..] == routes[1..][..i - 1];
      if r >= routes[0].weight {
        DrawnInterval(routes[1..], r - routes[0].weight, i - 1);
      }
    } else {
      assert Total(routes[..0]) == 0;
    }
  }

  lemma {:induction false} TotalUpTo(routes: seq<Route>, i: nat)
    requires i < |routes|
    ensures Total(routes[..i]) + routes[i].weight <= Total(routes)
  {
    if i > 0 {
      assert routes[..i][1..] == routes[1..][..i - 1];
      TotalUpTo(routes[1..], i - 1);
    }
  }

  function Interval(lo: nat, n: nat): (s: set<nat>)
    ensures |s| == n && forall r :: r in s <==> lo <= r < lo + n
  {
    if n == 0 then {} else {lo + n - 1} + Interval(lo, n - 1)
  }

  function DrawsOf(routes: seq<Route>, i: nat): set<nat> {
    set r: nat | r < Total(routes) && DrawnIndex(routes, r) == i
  }

  /** The draws in `0..total` that select route i: there are exactly `weight` of them, and every
      draw selects a route, so the scan implements the weighted distribution. */
  lemma {:induction false} WeightedDrawIsExact(routes: seq<Route>, i: nat)
    requires i < |routes|
    ensures |DrawsOf(routes, i)| == routes[i].weight
  {
    var chosen := DrawsOf(routes, i);
    var lo := Total(routes[..i]);
    TotalUpTo(routes, i);
    forall r: nat ensures r in chosen <==> lo <= r < lo + routes[i].weight {
      DrawnInterval(routes, r, i);
    }
    assert chosen == Interval(lo, routes[i].weight);
  }

  lemma {:induction false} EveryDrawSelects(routes: seq<Route>, r: nat)
    ensures r < Total(routes) <==> DrawnIndex(routes, r) < |routes|
  {
    if routes != [] && r >= routes[0].weight {
      EveryDrawSelects(routes[1..], r - routes[0].weight);
    }
  }

  // ------------------------------------------------------------------ the rendezvous choice

  /** `rendezvous_score`, of a route of positive weight. */
  function Score(hash: Hash): Route -> real {
    (c: Route) => if c.weight > 0 then hash(c.id) / c.weight as real else 0.0
  }

  /** `min_by`: of two equal minima the first is kept. */
  function Best(score: Route -> real, routes: seq<Route>): (r: Option<Route>)
    ensures r == None <==> routes == []
    ensures r.Some? ==> r.value in routes
  {
    if routes == [] then None
    else
      var last := |routes| - 1;
      Better(score, Best(score, routes[..last]), Some(routes[last]))
  }

  function Better(score: Route -> real, a: Option<Route>, b: Option<Route>): Option<Route> {
    if a == None then b
    else if b == None then a
    else if score(b.value) < score(a.value) then b
    else a
  }

  ghost predicate FirstLeast(score: Route -> real, routes: seq<Route>, i: nat) {
    && i < |routes|
    && (forall j :: 0 <= j < |routes| ==> score(routes[i]) <= score(routes[j]))
    && (forall j :: 0 <= j < i ==> score(routes[i]) < score(routes[j]))
  }

  /** The choice is the first route of least score. */
  lemma {:induction false} BestIsFirstLeast(score: Route -> real, routes: seq<Route>) returns (i: nat)
    requires routes != []
    ensures FirstLeast(score, routes, i) && Best(score, routes) == Some(routes[i])
  {
    var last := |routes| - 1;
    var init := routes[..last];
    if last == 0 {
      i := 0;
    } else {
      i := BestIsFirstLeast(score, init);
      assert forall j :: 0 <= j < last ==> init[j] == routes[j];
      if score(routes[last]) < score(routes[i]) {
        i := last;
      }
    }
  }

  lemma {:induction false} BestAppend(score: Route -> real, xs: seq<Route>, ys: seq<Route>)
    ensures Best(score, xs + ys) == Better(score, Best(score, xs), Best(score, ys))
  {
    if ys == [] {
      assert xs + ys == xs;
    } else {
      var last := |ys| - 1;
      assert (xs + ys)[..|xs + ys| - 1] == xs + ys[..last];
      BestAppend(score, xs, ys[..last]);
    }
  }

  lemma {:induction false} BestAround(score: Route -> real, xs: seq<Route>, x: Route, ys: seq<Route>)
    ensures Best(score, xs + [x] + ys) == Better(score, Better(score, Best(score, xs), Some(x)), Best(score, ys))
  {
    assert Best(score, [x]) == Some(x) by {
      assert [x][..0] == [];
    }
    BestAppend(score, xs, [x]);
    BestAppend(score, xs + [x], ys);
  }

  // ------------------------------------------------------------------ select_route

  /** `affinity` is the session's hash; without one the dice decide. */
  function SelectRoute(candidates: seq<Route>, affinity: Option<Hash>, dice: Dice): (r: Option<Route>)
    ensures r.Some? ==> r.value in InTier(candidates)
    ensures r == None <==> InTier(candidates) == []
  {
    var eligible := InTier(candidates);
    if eligible == [] then None
    else
      InTierMeans(candidates, eligible[0]);
      match affinity
      case Some(hash) => Best(Score(hash), eligible)
      case None =>
        EveryDrawSelects(eligible, dice(Total(eligible)));
        Some(eligible[DrawnIndex(eligible, dice(Total(eligible)))])
  }

  /** Primary routes come before backups: a backup is chosen only when no candidate is primary, and
      nothing is chosen exactly when no candidate of that role has weight. */
  ghost predicate PrimaryFirst(candidates: seq<Route>, chosen: Option<Route>) {
    var role := if exists c :: c in candidates && c.role == "primary" then "primary" else "backup";
    && (chosen.Some? ==> chosen.value in candidates && chosen.value.role == role && chosen.value.weight > 0)
    && (chosen.None? <==> forall c :: c in candidates && c.role == role ==> c.weight == 0)
  }

  /** A session gets the route for which its hash, divided by the weight, is least. */
  ghost predicate LeastHashForItsWeight(candidates: seq<Route>, hash: Hash, chosen: Route) {
    forall c :: c in candidates && c.role == chosen.role && c.weight > 0 ==>
      hash(chosen.id) * c.weight as real <= hash(c.id) * chosen.weight as real
  }

  /** Without a session the number thrown below the total weight lies in the route's own stretch. */
  ghost predicate DrawnByWeight(candidates: seq<Route>, dice: Dice, chosen: Route) {
    var eligible := Keep(EligibleIn(chosen.role), candidates);
    exists i: nat :: i < |eligible| && eligible[i] == chosen && InStretch(eligible, i, dice(Total(eligible)))
  }

  predicate InStretch(routes: seq<Route>, i: nat, r: nat)
    requires i < |routes|
  {
    Total(routes[..i]) <= r < Total(routes[..i]) + routes[i].weight
  }

  lemma {:induction false} SelectRouteMeans(candidates: seq<Route>, affinity: Option<Hash>, dice: Dice)
    ensures var chosen := SelectRoute(candidates, affinity, dice);
            && PrimaryFirst(candidates, chosen)
            && (chosen.Some? && affinity.Some? ==> LeastHashForItsWeight(candidates, affinity.value, chosen.value))
            && (chosen.Some? && affinity.None? ==> DrawnByWeight(candidates, dice, chosen.value))
  {
    var eligible, chosen := InTier(candidates), SelectRoute(candidates, affinity, dice);
    TierIsPrimaryFirst(candidates, chosen);
    if chosen.Some? {
      InTierMeans(candidates, chosen.value);
      match affinity {
        case Some(hash) => BestHash(hash, candidates, chosen.value);
        case None =>
          var r := dice(Total(eligible));
          InTierMeans(candidates, eligible[0]);
          EveryDrawSelects(eligible, r);
          DrawnInterval(eligible, r, DrawnIndex(eligible, r));
          assert InStretch(eligible, DrawnIndex(eligible, r), r);
      }
    }
  }

  lemma {:induction false} TierIsPrimaryFirst(candidates: seq<Route>, chosen: Option<Route>)
    requires if chosen.Some? then chosen.value in InTier(candidates) else InTier(candidates) == []
    ensures PrimaryFirst(candidates, chosen)
  {
    forall c | c in candidates ensures c in InTier(candidates) <==> Tier(candidates) == Some(c.role) && c.weight > 0 {
      InTierMeans(candidates, c);
    }
    if chosen.Some? {
      InTierMeans(candidates, chosen.value);
    }
  }

  lemma {:induction false} BestHash(hash: Hash, candidates: seq<Route>, chosen: Route)
    requires Best(Score(hash), InTier(candidates)) == Some(chosen)
    ensures LeastHashForItsWeight(candidates, hash, chosen)
  {
    InTierMeans(candidates, chosen);
    forall c | c in candidates && c.role == chosen.role && c.weight > 0
      ensures hash(chosen.id) * c.weight as real <= hash(c.id) * chosen.weight as real
    {
      InTierMeans(candidates, c);
      BestScore(Score(hash), InTier(candidates), chosen, c);
      LowerScore(hash, chosen, c);
    }
  }

  lemma {:induction false} BestScore(score: Route -> real, routes: seq<Route>, chosen: Route, c: Route)
    requires Best(score, routes) == Some(chosen) && c in routes
    ensures score(chosen) <= score(c)
  {
    var i := BestIsFirstLeast(score, routes);
    var j :| 0 <= j < |routes| && routes[j] == c;
    assert score(routes[i]) <= score(routes[j]);
  }

  lemma {:induction false} LowerScore(hash: Hash, a: Route, b: Route)
    requires a.weight > 0 && b.weight > 0 && Score(hash)(a) <= Score(hash)(b)
    ensures hash(a.id) * b.weight as real <= hash(b.id) * a.weight as real
  {
    CrossMultiplied(hash(a.id), a.weight as real, hash(b.id), b.weight as real);
  }

  lemma {:induction false} CrossMultiplied(g: real, v: real, h: real, w: real)
    requires 0.0 < v && 0.0 < w && g / v <= h / w
    ensures g * w <= h * v
  {
    var a, b := g / v, h / w;
    assert a * v == g && b * w == h;
    assert (b - a) * (v * w) >= 0.0;
  }

  method Select(candidates: seq<Route>, affinity: Option<Hash>, dice: Dice) returns (chosen: Option<Route>)
    ensures PrimaryFirst(candidates, chosen)
    ensures chosen.Some? && affinity.Some? ==> LeastHashForItsWeight(candidates, affinity.value, chosen.value)
    ensures chosen.Some? && affinity.None? ==> DrawnByWeight(candidates, dice, chosen.value)
    ensures chosen == SelectRoute(candidates, affinity, dice)
  {
    SelectRouteMeans(candidates, affinity, dice);
    var role;
    if HasRole(candidates, "primary") {
      role := "primary";
    } else if HasRole(candidates, "backup") {
      role := "backup";
    } else {
      return None;
    }
    var eligible := Keep(EligibleIn(role), candidates);
    assert eligible == InTier(candidates);
    if eligible == [] {
      return None;
    }
    InTierMeans(candidates, eligible[0]);
    match affinity {
      case Some(hash) => chosen := Best(Score(hash), eligible);
      case None =>
        EveryDrawSelects(eligible, dice(Total(eligible)));
        chosen := Draw(eligible, dice(Total(eligible)));
    }
  }

  /** The session's choice among `candidates`. */
  function Choice(hash: Hash, candidates: seq<Route>): Option<Route> {
    SelectRoute(candidates, Some(hash), total => 0)
  }

  lemma {:induction false} ChoiceIsBest(hash: Hash, candidates: seq<Route>)
    ensures Choice(hash, candidates) == Best(Score(hash), InTier(candidates))
  {
  }

  lemma {:induction false} TierAround(xs: seq<Route>, x: Route, ys: seq<Route>)
    ensures var role := Tier(xs + [x] + ys);
            role.Some? ==>
              InTier(xs + [x] + ys)
              == Keep(EligibleIn(role.value), xs) + (if Eligible(role.value, x) then [x] else [])
                 + Keep(EligibleIn(role.value), ys)
  {
    var role := Tier(xs + [x] + ys);
    if role.Some? {
      var p := EligibleIn(role.value);
      KeepAppend(p, xs + [x], ys);
      KeepAppend(p, xs, [x]);
      assert Keep(p, [x]) == if Eligible(role.value, x) then [x] else [];
    }
  }

  lemma {:induction false} TierWithout(xs: seq<Route>, ys: seq<Route>, role: string)
    requires Tier(xs + ys) == Some(role)
    ensures InTier(xs + ys) == Keep(EligibleIn(role), xs) + Keep(EligibleIn(role), ys)
  {
    KeepAppend(EligibleIn(role), xs, ys);
  }

  /** Adding route x to the list, at any place, moves a session only to x; so removing a route that
      a session does not use moves it nowhere.  The tier must stay the same tier. */
  lemma {:induction false} MinimalDisruption(hash: Hash, xs: seq<Route>, x: Route, ys: seq<Route>)
    requires Tier(xs + ys) == Tier(xs + [x] + ys)
    ensures Choice(hash, xs + [x] + ys) in {Choice(hash, xs + ys), Some(x)}
  {
    if Tier(xs + ys).Some? {
      var role := Tier(xs + ys).value;
      TierAround(xs, x, ys);
      TierWithout(xs, ys, role);
      ChoiceIsBest(hash, xs + ys);
      ChoiceIsBest(hash, xs + [x] + ys);
      InsertedBest(Score(hash), Keep(EligibleIn(role), xs), x, Keep(EligibleIn(role), ys));
    }
  }

  lemma {:induction false} InsertedBest(score: Route -> real, xs: seq<Route>, x: Route, ys: seq<Route>)
    ensures Best(score, xs + [x] + ys) in {Best(score, xs + ys), Some(x)}
    ensures xs + [] + ys == xs + ys
  {
    BestAppend(score, xs, ys);
    BestAround(score, xs, x, ys);
  }

  /** Raising the weight of route x moves a session only to x, and moves none away from x. */
  lemma {:induction false} RaisedWeightAttracts(hash: Hash, xs: seq<Route>, x: Route, ys: seq<Route>, weight: nat)
    requires weight >= x.weight
    requires forall c :: c in xs + ys ==> c.id != x.id
    ensures var raised := x.(weight := weight);
            var was, now := Choice(hash, xs + [x] + ys), Choice(hash, xs + [raised] + ys);
            (now == was || now == Some(raised)) && (was == Some(x) ==> now == Some(raised))
  {
    var raised := x.(weight := weight);
    SameTier(xs, x, raised, ys);
    if Tier(xs + [x] + ys).Some? {
      var role := Tier(xs + [x] + ys).value;
      var before, after := Keep(EligibleIn(role), xs), Keep(EligibleIn(role), ys);
      TierAround(xs, x, ys);
      TierAround(xs, raised, ys);
      ChoiceIsBest(hash, xs + [x] + ys);
      ChoiceIsBest(hash, xs + [raised] + ys);
      forall c | c in before || c in after ensures c.id != x.id {
        assert c in xs + ys;
      }
      if Eligible(role, x) {
        HeavierScoresLess(hash, x, weight);
        RaisedBest(Score(hash), before, x, raised, after);
      } else {
        InsertedBest(Score(hash), before, raised, after);
      }
    }
  }

  lemma {:induction false} RaisedBest(score: Route -> real, xs: seq<Route>, x: Route, y: Route, ys: seq<Route>)
    requires score(y) <= score(x)
    requires x !in xs && x !in ys
    ensures var was, now := Best(score, xs + [x] + ys), Best(score, xs + [y] + ys);
            (now == was || now == Some(y)) && (was == Some(x) ==> now == Some(y))
  {
    BestAround(score, xs, x, ys);
    BestAround(score, xs, y, ys);
  }

  lemma {:induction false} HeavierScoresLess(hash: Hash, x: Route, weight: nat)
    requires 0 < x.weight <= weight
    ensures Score(hash)(x.(weight := weight)) <= Score(hash)(x)
  {
    DivideByMore(hash(x.id), x.weight as real, weight as real);
  }

  lemma {:induction false} DivideByMore(h: real, v: real, w: real)
    requires 0.0 <= h && 0.0 < v <= w
    ensures h / w <= h / v
  {
    var a, b := h / w, h / v;
    assert a * w == h && b * v == h;
    assert a * (w - v) >= 0.0;
    assert (b - a) * v >= 0.0;
  }

  lemma {:induction false} SameTier(xs: seq<Route>, x: Route, y: Route, ys: seq<Route>)
    requires x.role == y.role
    ensures Tier(xs + [x] + ys) == Tier(xs + [y] + ys)
  {
    var a, b := xs + [x] + ys, xs + [y] + ys;
    forall role: string ensures HasRole(a, role) == HasRole(b, role) {
      assert forall c :: c in a <==> c in xs || c == x || c in ys;
      assert forall c :: c in b <==> c in xs || c == y || c in ys;
    }
  }
}
