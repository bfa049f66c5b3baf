/** What reconciliation achieves: its postcondition, isolation, idempotence and confluence. */
module CatalogReconcile {
  import opened Wrappers
  import opened CatalogTables

  // ---------- Reading the list ----------

  /** For each listed id, the last model listed with it: the one whose values stick. */
  function LastOf(models: seq<Model>): map<string, Model>
    decreases |models|
  {
    if models == [] then map[]
    else
      var x := models[|models| - 1];
      LastOf(models[..|models| - 1])[x.id := x]
  }

  /** The ids ever listed as unsupported. */
  function EverUnsupported(models: seq<Model>): set<string> {
    set m | m in models && !m.supportedInApi :: m.id
  }

  /** `LastOf` holds the last listing of each id. */
  lemma {:induction false} LastOfIsLast(models: seq<Model>, i: nat)
    requires i < |models| && forall j :: i < j < |models| ==> models[j].id != models[i].id
    ensures models[i].id in LastOf(models) && LastOf(models)[models[i].id] == models[i]
    decreases |models|
  {
    if i < |models| - 1 {
      LastOfIsLast(models[..|models| - 1], i);
    }
  }

  lemma {:induction false} LastOfListed(models: seq<Model>, id: string)
    ensures id in LastOf(models) <==> Listed(models, id)
    ensures id in LastOf(models) ==> LastOf(models)[id] in models && LastOf(models)[id].id == id
    decreases |models|
  {
    if models != [] {
      var n := |models| - 1;
      assert models == models[..n] + [models[n]];
      LastOfListed(models[..n], id);
    }
  }

  lemma {:induction false} EverUnsupportedGrows(models: seq<Model>)
    requires models != []
    ensures var x := models[|models| - 1];
            EverUnsupported(models)
            == EverUnsupported(models[..|models| - 1]) + if x.supportedInApi then {} else {x.id}
  {
    var n := |models| - 1;
    assert models == models[..n] + [models[n]];
  }

  /** Every managed route belongs to a managed entry and has a source row. */
  ghost predicate Consistent(t: Tables) {
    && (forall id :: id in t.routes ==> id < t.nextRoute)
    && (forall id :: id in t.routes && t.routes[id].managed ==>
          && t.routes[id].modelId in t.catalog && t.catalog[t.routes[id].modelId].managed
          && (t.routes[id].modelId, t.routes[id].account) in t.sources)
    && (forall k :: k in t.sources ==> k.0 in t.catalog)
  }

  /** The entry is, or on being listed becomes, a managed one. */
  predicate Manageable(catalog: map<string, Entry>, id: string) {
    id in catalog ==> catalog[id].managed
  }

  // ---------- Catalog and sources after the upserts ----------

  function EntryAfter(catalog: map<string, Entry>, last: map<string, Model>, id: string, now: int): Entry
    requires id in catalog || id in last
  {
    if id in last && Manageable(catalog, id) then
      Entry(last[id].displayName, last[id].family, true, true, if id in catalog then catalog[id].createdAt else now)
    else catalog[id]
  }

  function CatalogAfter(catalog: map<string, Entry>, last: map<string, Model>, now: int): map<string, Entry> {
    map id | id in catalog.Keys + last.Keys :: EntryAfter(catalog, last, id, now)
  }

  function SourcesAfter(sources: map<(string, string), Source>, a: string, last: map<string, Model>, now: int)
    : map<(string, string), Source>
  {
    map k | k in sources.Keys + (set id | id in last :: (id, a)) ::
      if k.1 == a && k.0 in last then SourceOf(last[k.0], now) else sources[k]
  }

  lemma {:induction false} CatalogFollowsList(t: Tables, a: string, models: seq<Model>, now: int)
    ensures UpsertedAll(t, a, models, now).catalog == CatalogAfter(t.catalog, LastOf(models), now)
    decreases |models|
  {
    if models == [] {
      assert CatalogAfter(t.catalog, map[], now) == t.catalog;
    } else {
      var n := |models| - 1;
      CatalogFollowsList(t, a, models[..n], now);
      CatalogFollowsOne(t.catalog, LastOf(models[..n]), models[n], now);
    }
  }

  lemma {:induction false} CatalogFollowsOne(catalog: map<string, Entry>, last: map<string, Model>, x: Model, now: int)
    ensures UpsertEntry(CatalogAfter(catalog, last, now), x, now) == CatalogAfter(catalog, last[x.id := x], now)
  {
  }

  lemma {:induction false} SourcesFollowList(t: Tables, a: string, models: seq<Model>, now: int)
    ensures UpsertedAll(t, a, models, now).sources == SourcesAfter(t.sources, a, LastOf(models), now)
    decreases |models|
  {
    if models == [] {
      assert SourcesAfter(t.sources, a, map[], now) == t.sources;
    } else {
      var n := |models| - 1;
      SourcesFollowList(t, a, models[..n], now);
      SourcesFollowOne(t.sources, a, LastOf(models[..n]), models[n], now);
    }
  }

  lemma {:induction false} SourcesFollowOne(sources: map<(string, string), Source>, a: string, last: map<string, Model>,
                                            x: Model, now: int)
    ensures SourcesAfter(sources, a, last, now)[(x.id, a) := SourceOf(x, now)]
            == SourcesAfter(sources, a, last[x.id := x], now)
  {
  }

  // ---------- Routes after the upserts ----------

  /** A managed route of the account that existed before goes if its model was ever listed as
      unsupported, and takes the last listed values otherwise; no other route is touched. */
  predicate OldRoutesAfter(old_: map<nat, Route>, routes: map<nat, Route>, a: string,
                           last: map<string, Model>, bad: set<string>) {
    forall id :: id in old_ ==>
      var r := old_[id];
      var mine := r.managed && r.account == a;
      && (id in routes <==> !(mine && r.modelId in bad))
      && (id in routes ==> routes[id] == if mine && r.modelId in last then Refreshed(r, last[r.modelId]) else r)
  }

  /** A managed entry whose last listing says it is supported. */
  predicate Wanted(catalog: map<string, Entry>, last: map<string, Model>, id: string) {
    id in last && last[id].supportedInApi && Manageable(catalog, id)
  }

  /** A route inserted by this run is the only new one of its model, and there only because no older
      one could be kept. */
  predicate NewRoutesAfter(catalog: map<string, Entry>, old_: map<nat, Route>, routes: map<nat, Route>, a: string,
                           last: map<string, Model>, bad: set<string>, now: int) {
    && (forall id :: id in routes && id !in old_ ==>
          && Wanted(catalog, last, routes[id].modelId)
          && routes[id] == FreshRoute(last[routes[id].modelId], a, now)
          && (HasMatch(old_, routes[id].modelId, a) ==> routes[id].modelId in bad))
    && (forall i, j ::
          i in routes && j in routes && i !in old_ && j !in old_ && routes[i].modelId == routes[j].modelId
          ==> i == j)
  }

  ghost predicate WantedHaveRoutes(catalog: map<string, Entry>, routes: map<nat, Route>, a: string,
                                   last: map<string, Model>) {
    forall id :: Wanted(catalog, last, id) ==> HasMatch(routes, id, a)
  }

  ghost predicate IdsBelow(routes: map<nat, Route>, next: nat) {
    forall id :: id in routes ==> id < next
  }

  ghost predicate RoutesAfter(t: Tables, u: Tables, a: string, last: map<string, Model>, bad: set<string>, now: int) {
    && t.nextRoute <= u.nextRoute
    && IdsBelow(u.routes, u.nextRoute)
    && (forall id :: id in u.routes && id !in t.routes ==> t.nextRoute <= id)
    && OldRoutesAfter(t.routes, u.routes, a, last, bad)
    && NewRoutesAfter(t.catalog, t.routes, u.routes, a, last, bad, now)
    && WantedHaveRoutes(t.catalog, u.routes, a, last)
  }

  lemma {:induction false} RoutesFollowList(t: Tables, a: string, models: seq<Model>, now: int)
    requires Consistent(t)
    ensures RoutesAfter(t, UpsertedAll(t, a, models, now), a, LastOf(models), EverUnsupported(models), now)
    decreases |models|
  {
    if models != [] {
      var n := |models| - 1;
      RoutesFollowList(t, a, models[..n], now);
      CatalogFollowsList(t, a, models[..n], now);
      EverUnsupportedGrows(models);
      forall id | id in LastOf(models[..n]) ensures LastOf(models[..n])[id].id == id {
        LastOfListed(models[..n], id);
      }
      RoutesFollowOne(t, UpsertedAll(t, a, models[..n], now), a,
                      LastOf(models[..n]), EverUnsupported(models[..n]), models[n], now);
    }
  }

  lemma {:induction false} RoutesFollowOne(t: Tables, u: Tables, a: string, last: map<string, Model>, bad: set<string>,
                                           x: Model, now: int)
    requires Consistent(t) && RoutesAfter(t, u, a, last, bad, now)
    requires u.catalog == CatalogAfter(t.catalog, last, now) && KeysMatch(last)
    ensures RoutesAfter(t, Upserted(u, a, x, now), a, last[x.id := x],
                        bad + (if x.supportedInApi then {} else {x.id}), now)
  {
    var v := Upserted(u, a, x, now);
    assert UpsertEntry(u.catalog, x, now)[x.id].managed <==> Manageable(t.catalog, x.id);
    assert bad + {} == bad;
    if !Manageable(t.catalog, x.id) {
      FollowKept(t, u, v, a, last, bad, x, now);
    } else if !x.supportedInApi {
      FollowDelete(t, u, v, a, last, bad, x, now);
    } else if HasMatch(u.routes, x.id, a) {
      FollowRefresh(t, u, v, a, last, bad, x, now);
    } else {
      FollowInsert(t, u, v, a, last, bad, x, now);
    }
  }

  predicate KeysMatch(last: map<string, Model>) {
    forall id :: id in last ==> last[id].id == id
  }

  lemma {:induction false} FollowKept(t: Tables, u: Tables, v: Tables, a: string, last: map<string, Model>,
                                      bad: set<string>, x: Model, now: int)
    requires Consistent(t) && RoutesAfter(t, u, a, last, bad, now) && !Manageable(t.catalog, x.id)
    requires v.routes == u.routes && v.nextRoute == u.nextRoute
    ensures RoutesAfter(t, v, a, last[x.id := x], bad + (if x.supportedInApi then {} else {x.id}), now)
  {
    RoutesKept(t, u.routes, a, last, bad, x, now);
  }

  lemma {:induction false} FollowDelete(t: Tables, u: Tables, v: Tables, a: string, last: map<string, Model>,
                                        bad: set<string>, x: Model, now: int)
    requires RoutesAfter(t, u, a, last, bad, now) && !x.supportedInApi
    requires v.routes == DeleteRoutes(u.routes, x.id, a) && v.nextRoute == u.nextRoute
    ensures RoutesAfter(t, v, a, last[x.id := x], bad + {x.id}, now)
  {
    DeletedOld(t.routes, u.routes, a, last, bad, x);
    DeletedNew(t.catalog, t.routes, u.routes, a, last, bad, x, now);
    DeletedWanted(t.catalog, u.routes, a, last, x);
  }

  lemma {:induction false} FollowRefresh(t: Tables, u: Tables, v: Tables, a: string, last: map<string, Model>,
                                         bad: set<string>, x: Model, now: int)
    requires RoutesAfter(t, u, a, last, bad, now) && KeysMatch(last)
    requires Manageable(t.catalog, x.id) && x.supportedInApi && HasMatch(u.routes, x.id, a)
    requires v.routes == RefreshRoutes(u.routes, x, a) && v.nextRoute == u.nextRoute
    ensures RoutesAfter(t, v, a, last[x.id := x], bad, now)
  {
    RefreshedOld(t.routes, u.routes, a, last, bad, x);
    RefreshedNew(t.catalog, t.routes, u.routes, a, last, bad, x, now);
    RefreshedWanted(t.catalog, u.routes, a, last, x);
  }

  lemma {:induction false} FollowInsert(t: Tables, u: Tables, v: Tables, a: string, last: map<string, Model>,
                                        bad: set<string>, x: Model, now: int)
    requires RoutesAfter(t, u, a, last, bad, now) && IdsBelow(t.routes, t.nextRoute)
    requires Manageable(t.catalog, x.id) && x.supportedInApi && !HasMatch(u.routes, x.id, a)
    requires v.routes == u.routes[u.nextRoute := FreshRoute(x, a, now)] && v.nextRoute == u.nextRoute + 1
    ensures RoutesAfter(t, v, a, last[x.id := x], bad, now)
  {
    InsertedOld(t.routes, u.routes, u.nextRoute, a, last, bad, x, now);
    OldMatchKept(t.routes, u.routes, a, last, bad, x.id);
    InsertedNew(t.catalog, t.routes, u.routes, u.nextRoute, a, last, bad, x, now);
    InsertedWanted(t.catalog, u.routes, u.nextRoute, a, last, x, now);
  }

  /** A manual entry has no managed route, so listing it changes no route. */
  lemma {:induction false} RoutesKept(t: Tables, routes: map<nat, Route>, a: string, last: map<string, Model>,
                                      bad: set<string>, x: Model, now: int)
    requires Consistent(t) && !Manageable(t.catalog, x.id)
    requires OldRoutesAfter(t.routes, routes, a, last, bad)
    requires NewRoutesAfter(t.catalog, t.routes, routes, a, last, bad, now)
    requires WantedHaveRoutes(t.catalog, routes, a, last)
    ensures var last' := last[x.id := x];
            var bad' := bad + if x.supportedInApi then {} else {x.id};
            && OldRoutesAfter(t.routes, routes, a, last', bad')
            && NewRoutesAfter(t.catalog, t.routes, routes, a, last', bad', now)
            && WantedHaveRoutes(t.catalog, routes, a, last')
  {
  }

  lemma {:induction false} MatchSurvives(routes: map<nat, Route>, routes': map<nat, Route>, modelId: string, a: string)
    requires HasMatch(routes, modelId, a)
    requires forall id :: id in routes && Matches(routes[id], modelId, a) ==>
               id in routes' && Matches(routes'[id], modelId, a)
    ensures HasMatch(routes', modelId, a)
  {
    var id :| id in routes && Matches(routes[id], modelId, a);
    assert Matches(routes'[id], modelId, a);
  }

  lemma {:induction false} DeletedOld(old_: map<nat, Route>, routes: map<nat, Route>, a: string,
                                      last: map<string, Model>, bad: set<string>, x: Model)
    requires OldRoutesAfter(old_, routes, a, last, bad)
    ensures OldRoutesAfter(old_, DeleteRoutes(routes, x.id, a), a, last[x.id := x], bad + {x.id})
  {
  }

  lemma {:induction false} DeletedNew(catalog: map<string, Entry>, old_: map<nat, Route>, routes: map<nat, Route>, a: string,
                                      last: map<string, Model>, bad: set<string>, x: Model, now: int)
    requires NewRoutesAfter(catalog, old_, routes, a, last, bad, now)
    ensures NewRoutesAfter(catalog, old_, DeleteRoutes(routes, x.id, a), a, last[x.id := x], bad + {x.id}, now)
  {
  }

  lemma {:induction false} DeletedWanted(catalog: map<string, Entry>, routes: map<nat, Route>, a: string,
                                         last: map<string, Model>, x: Model)
    requires WantedHaveRoutes(catalog, routes, a, last) && !x.supportedInApi
    ensures WantedHaveRoutes(catalog, DeleteRoutes(routes, x.id, a), a, last[x.id := x])
  {
    forall id | Wanted(catalog, last[x.id := x], id) ensures HasMatch(DeleteRoutes(routes, x.id, a), id, a) {
      assert Wanted(catalog, last, id);
      MatchSurvives(routes, DeleteRoutes(routes, x.id, a), id, a);
    }
  }

  lemma {:induction false} RefreshedOld(old_: map<nat, Route>, routes: map<nat, Route>, a: string,
                                        last: map<string, Model>, bad: set<string>, x: Model)
    requires OldRoutesAfter(old_, routes, a, last, bad)
    ensures OldRoutesAfter(old_, RefreshRoutes(routes, x, a), a, last[x.id := x], bad)
  {
  }

  lemma {:induction false} RefreshedNew(catalog: map<string, Entry>, old_: map<nat, Route>, routes: map<nat, Route>, a: string,
                                        last: map<string, Model>, bad: set<string>, x: Model, now: int)
    requires NewRoutesAfter(catalog, old_, routes, a, last, bad, now) && x.supportedInApi && Manageable(catalog, x.id)
    requires KeysMatch(last)
    ensures NewRoutesAfter(catalog, old_, RefreshRoutes(routes, x, a), a, last[x.id := x], bad, now)
  {
  }

  lemma {:induction false} RefreshedWanted(catalog: map<string, Entry>, routes: map<nat, Route>, a: string,
                                           last: map<string, Model>, x: Model)
    requires WantedHaveRoutes(catalog, routes, a, last) && HasMatch(routes, x.id, a)
    ensures WantedHaveRoutes(catalog, RefreshRoutes(routes, x, a), a, last[x.id := x])
  {
    forall id | Wanted(catalog, last[x.id := x], id) ensures HasMatch(RefreshRoutes(routes, x, a), id, a) {
      assert id == x.id || Wanted(catalog, last, id);
      MatchSurvives(routes, RefreshRoutes(routes, x, a), id, a);
    }
  }

  lemma {:induction false} InsertedOld(old_: map<nat, Route>, routes: map<nat, Route>, next: nat, a: string,
                                       last: map<string, Model>, bad: set<string>, x: Model, now: int)
    requires IdsBelow(old_, next) && OldRoutesAfter(old_, routes, a, last, bad) && !HasMatch(routes, x.id, a)
    ensures OldRoutesAfter(old_, routes[next := FreshRoute(x, a, now)], a, last[x.id := x], bad)
  {
    forall id | id in old_ && id in routes && old_[id].managed && old_[id].account == a
      ensures old_[id].modelId != x.id
    {
      assert !Matches(routes[id], x.id, a);
    }
  }

  lemma {:induction false} OldMatchKept(old_: map<nat, Route>, routes: map<nat, Route>, a: string,
                                        last: map<string, Model>, bad: set<string>, modelId: string)
    requires OldRoutesAfter(old_, routes, a, last, bad)
    ensures HasMatch(old_, modelId, a) && modelId !in bad ==> HasMatch(routes, modelId, a)
  {
    if HasMatch(old_, modelId, a) && modelId !in bad {
      var id :| id in old_ && Matches(old_[id], modelId, a);
      assert Matches(routes[id], modelId, a);
    }
  }

  lemma {:induction false} InsertedNew(catalog: map<string, Entry>, old_: map<nat, Route>, routes: map<nat, Route>, next: nat,
                                       a: string, last: map<string, Model>, bad: set<string>, x: Model, now: int)
    requires IdsBelow(routes, next) && next !in old_
    requires HasMatch(old_, x.id, a) ==> x.id in bad
    requires NewRoutesAfter(catalog, old_, routes, a, last, bad, now) && !HasMatch(routes, x.id, a)
    requires x.supportedInApi && Manageable(catalog, x.id)
    ensures NewRoutesAfter(catalog, old_, routes[next := FreshRoute(x, a, now)], a, last[x.id := x], bad, now)
  {
    forall id | id in routes && id !in old_ ensures routes[id].modelId != x.id {
      assert !Matches(routes[id], x.id, a);
    }
  }

  lemma {:induction false} InsertedWanted(catalog: map<string, Entry>, routes: map<nat, Route>, next: nat, a: string,
                                          last: map<string, Model>, x: Model, now: int)
    requires WantedHaveRoutes(catalog, routes, a, last) && IdsBelow(routes, next)
    ensures WantedHaveRoutes(catalog, routes[next := FreshRoute(x, a, now)], a, last[x.id := x])
  {
    var routes' := routes[next := FreshRoute(x, a, now)];
    assert Matches(routes'[next], x.id, a);
    forall id | Wanted(catalog, last[x.id := x], id) && id != x.id ensures HasMatch(routes', id, a) {
      assert Wanted(catalog, last, id);
      MatchSurvives(routes, routes', id, a);
    }
  }

  // ---------- The whole reconciliation ----------

  predicate Mine(r: Route, a: string) {
    r.managed && r.account == a
  }

  ghost predicate SourcesDone(t: Tables, d: Tables, a: string, last: map<string, Model>, now: int) {
    && (forall k :: k in d.sources <==> if k.1 == a then k.0 in last else k in t.sources)
    && (forall k :: k in d.sources ==>
          d.sources[k] == if k.1 == a then SourceOf(last[k.0], now) else t.sources[k])
  }

  ghost predicate CatalogDone(t: Tables, d: Tables, last: map<string, Model>, now: int) {
    && d.catalog.Keys == t.catalog.Keys + last.Keys
    && forall id :: id in d.catalog ==>
         var e := EntryAfter(t.catalog, last, id, now);
         d.catalog[id] == if e.managed then e.(enabled := e.enabled && HasSource(d.sources, id)) else e
  }

  /** Old managed routes of the account survive exactly for models listed, and never as unsupported. */
  ghost predicate RoutesDone(t: Tables, d: Tables, a: string, last: map<string, Model>, bad: set<string>, now: int) {
    && t.nextRoute <= d.nextRoute
    && IdsBelow(d.routes, d.nextRoute)
    && (forall id :: id in d.routes && id !in t.routes ==> t.nextRoute <= id)
    && (forall id :: id in t.routes ==>
          var r := t.routes[id];
          && (id in d.routes <==> !(Mine(r, a) && (r.modelId in bad || r.modelId !in last)))
          && (id in d.routes ==> d.routes[id] == if Mine(r, a) then Refreshed(r, last[r.modelId]) else r))
    && NewRoutesAfter(t.catalog, t.routes, d.routes, a, last, bad, now)
    && WantedHaveRoutes(t.catalog, d.routes, a, last)
  }

  lemma {:induction false} SourcesAreDone(t: Tables, a: string, models: seq<Model>, now: int)
    ensures SourcesDone(t, Reconciled(t, a, models, now), a, LastOf(models), now)
  {
    SourcesFollowList(t, a, models, now);
    forall id ensures id in LastOf(models) <==> Listed(models, id) {
      LastOfListed(models, id);
    }
  }

  lemma {:induction false} CatalogIsDone(t: Tables, a: string, models: seq<Model>, now: int)
    ensures CatalogDone(t, Reconciled(t, a, models, now), LastOf(models), now)
  {
    CatalogFollowsList(t, a, models, now);
  }

  /** The stale deletion as a step from `routes` to `left`: unlisted models lose their managed routes. */
  ghost predicate OnlyListedKept(routes: map<nat, Route>, left: map<nat, Route>, a: string, last: map<string, Model>) {
    && (forall id :: id in left ==> id in routes)
    && (forall id :: id in routes ==>
          && (id in left <==> !(Mine(routes[id], a) && routes[id].modelId !in last))
          && (id in left ==> left[id] == routes[id]))
  }

  lemma {:induction false} DropKeepsListed(t: Tables, a: string, models: seq<Model>, now: int)
    requires Consistent(t)
    requires RoutesAfter(t, UpsertedAll(t, a, models, now), a, LastOf(models), EverUnsupported(models), now)
    ensures OnlyListedKept(UpsertedAll(t, a, models, now).routes, Reconciled(t, a, models, now).routes, a, LastOf(models))
  {
    var u := UpsertedAll(t, a, models, now);
    SourcesFollowList(t, a, models, now);
    forall id | id in u.routes && Mine(u.routes[id], a)
      ensures IsStale(u, a, models, u.routes[id].modelId) <==> u.routes[id].modelId !in LastOf(models)
    {
      StaleMeansUnlisted(t, u, a, models, id, now);
    }
  }

  lemma {:induction false} OldAreDone(old_: map<nat, Route>, routes: map<nat, Route>, left: map<nat, Route>, a: string,
                                      last: map<string, Model>, bad: set<string>, id: nat)
    requires OldRoutesAfter(old_, routes, a, last, bad) && OnlyListedKept(routes, left, a, last) && id in old_
    ensures var r := old_[id];
            && (id in left <==> !(Mine(r, a) && (r.modelId in bad || r.modelId !in last)))
            && (id in left ==> left[id] == if Mine(r, a) then Refreshed(r, last[r.modelId]) else r)
  {
  }

  lemma {:induction false} NewAreDone(catalog: map<string, Entry>, old_: map<nat, Route>, routes: map<nat, Route>,
                                      left: map<nat, Route>, a: string, last: map<string, Model>, bad: set<string>, now: int)
    requires NewRoutesAfter(catalog, old_, routes, a, last, bad, now) && OnlyListedKept(routes, left, a, last)
    ensures NewRoutesAfter(catalog, old_, left, a, last, bad, now)
  {
  }

  lemma {:induction false} WantedAreDone(catalog: map<string, Entry>, routes: map<nat, Route>, left: map<nat, Route>,
                                         a: string, last: map<string, Model>)
    requires WantedHaveRoutes(catalog, routes, a, last) && OnlyListedKept(routes, left, a, last)
    ensures WantedHaveRoutes(catalog, left, a, last)
  {
    forall id | Wanted(catalog, last, id) ensures HasMatch(left, id, a) {
      MatchSurvives(routes, left, id, a);
    }
  }

  lemma {:induction false} RoutesAreDone(t: Tables, a: string, models: seq<Model>, now: int)
    requires Consistent(t)
    ensures RoutesDone(t, Reconciled(t, a, models, now), a, LastOf(models), EverUnsupported(models), now)
  {
    RoutesFollowList(t, a, models, now);
    DropKeepsListed(t, a, models, now);
    DroppedAreDone(t, UpsertedAll(t, a, models, now), Reconciled(t, a, models, now), a,
                   LastOf(models), EverUnsupported(models), now);
  }

  lemma {:induction false} DroppedAreDone(t: Tables, u: Tables, d: Tables, a: string, last: map<string, Model>,
                                          bad: set<string>, now: int)
    requires RoutesAfter(t, u, a, last, bad, now)
    requires OnlyListedKept(u.routes, d.routes, a, last) && d.nextRoute == u.nextRoute
    ensures RoutesDone(t, d, a, last, bad, now)
  {
    forall id | id in t.routes
      ensures var r := t.routes[id];
              && (id in d.routes <==> !(Mine(r, a) && (r.modelId in bad || r.modelId !in last)))
              && (id in d.routes ==> d.routes[id] == if Mine(r, a) then Refreshed(r, last[r.modelId]) else r)
    {
      OldAreDone(t.routes, u.routes, d.routes, a, last, bad, id);
    }
    NewAreDone(t.catalog, t.routes, u.routes, d.routes, a, last, bad, now);
    WantedAreDone(t.catalog, u.routes, d.routes, a, last);
  }

  /** A managed route left by the upserts is stale exactly when its model is not listed. */
  lemma {:induction false} StaleMeansUnlisted(t: Tables, u: Tables, a: string, models: seq<Model>, id: nat, now: int)
    requires Consistent(t) && RoutesAfter(t, u, a, LastOf(models), EverUnsupported(models), now)
    requires u.sources == SourcesAfter(t.sources, a, LastOf(models), now) && id in u.routes && Mine(u.routes[id], a)
    ensures IsStale(u, a, models, u.routes[id].modelId) <==> u.routes[id].modelId !in LastOf(models)
  {
    LastOfListed(models, u.routes[id].modelId);
    if id in t.routes {
      assert u.routes[id].modelId == t.routes[id].modelId && t.routes[id].managed;
    }
  }

  lemma {:induction false} LastKeysMatch(models: seq<Model>)
    ensures KeysMatch(LastOf(models))
  {
    forall id | id in LastOf(models) ensures LastOf(models)[id].id == id {
      LastOfListed(models, id);
    }
  }

  ghost predicate HasEnabledRoute(routes: map<nat, Route>, id: string, a: string) {
    exists i :: i in routes && Matches(routes[i], id, a) && routes[i].enabled
  }

  lemma {:induction false} ReconciledRoutes(t: Tables, d: Tables, a: string, last: map<string, Model>, bad: set<string>,
                                            now: int, i: nat)
    requires Consistent(t) && RoutesDone(t, d, a, last, bad, now) && KeysMatch(last)
    requires forall id :: id in last && !last[id].supportedInApi ==> id in bad
    requires i in d.routes && Mine(d.routes[i], a)
    ensures Wanted(t.catalog, last, d.routes[i].modelId) && Carries(d.routes[i], last[d.routes[i].modelId])
    ensures if i in t.routes then OperatorsValuesKept(t.routes[i], d.routes[i]) else InsertedRoute(d.routes[i], a, now)
  {
    if i in t.routes {
      assert Mine(t.routes[i], a);
    }
  }

  lemma {:induction false} UnsupportedLastIsBad(models: seq<Model>)
    ensures forall id :: id in LastOf(models) && !LastOf(models)[id].supportedInApi ==> id in EverUnsupported(models)
  {
    forall id | id in LastOf(models) && !LastOf(models)[id].supportedInApi ensures id in EverUnsupported(models) {
      LastOfListed(models, id);
    }
  }

  /** Managed routes keep their source rows and managed entries. */
  lemma {:induction false} ReconcileKeepsConsistent(t: Tables, a: string, models: seq<Model>, now: int)
    requires Consistent(t)
    ensures Consistent(Reconciled(t, a, models, now))
  {
    var d := Reconciled(t, a, models, now);
    CatalogIsDone(t, a, models, now);
    SourcesAreDone(t, a, models, now);
    RoutesAreDone(t, a, models, now);
    LastKeysMatch(models);
    UnsupportedLastIsBad(models);
    forall i | i in d.routes && d.routes[i].managed
      ensures var r := d.routes[i];
              r.modelId in d.catalog && d.catalog[r.modelId].managed && (r.modelId, r.account) in d.sources
    {
      if d.routes[i].account == a {
        ReconciledRoutes(t, d, a, LastOf(models), EverUnsupported(models), now, i);
      } else {
        assert i in t.routes && d.routes[i] == t.routes[i];
      }
    }
  }

  /** The account's sources become exactly the listed ids, each with its last listed values. */
  lemma {:induction false} SourcesBecomeTheList(t: Tables, a: string, models: seq<Model>, now: int)
    ensures var d := Reconciled(t, a, models, now);
            && (forall id :: (id, a) in d.sources <==> Listed(models, id))
            && (forall id :: Listed(models, id) ==>
                  id in LastOf(models) &&
                  var x, m := d.sources[(id, a)], LastOf(models)[id];
                  && x.upstreamModelId == m.upstreamModelId && x.displayName == m.displayName && x.family == m.family
                  && x.wireApi == m.wireApi && x.supportedInApi == m.supportedInApi && x.lastSeenAt == now)
  {
    SourcesAreDone(t, a, models, now);
    forall id ensures id in LastOf(models) <==> Listed(models, id) {
      LastOfListed(models, id);
    }
  }

  /** The account has an enabled managed route for a model exactly when the model is listed, its last
      listing is supported and its entry is managed; and each managed route it has carries the last
      listed values and a clean bill of health, keeps what the operator set if it was there before, and is a
      plain primary route otherwise. */
  lemma {:induction false} RoutesBecomeTheList(t: Tables, a: string, models: seq<Model>, now: int)
    requires Consistent(t)
    ensures var d := Reconciled(t, a, models, now);
            var last := LastOf(models);
            && (forall id :: HasEnabledRoute(d.routes, id, a)
                             <==> id in last && last[id].supportedInApi && id in d.catalog && d.catalog[id].managed)
            && (forall i :: i in d.routes && Mine(d.routes[i], a) ==>
                  && d.routes[i].modelId in last && Carries(d.routes[i], last[d.routes[i].modelId])
                  && if i in t.routes then OperatorsValuesKept(t.routes[i], d.routes[i]) else InsertedRoute(d.routes[i], a, now))
  {
    var d := Reconciled(t, a, models, now);
    var last := LastOf(models);
    RoutesAreDone(t, a, models, now);
    CatalogIsDone(t, a, models, now);
    LastKeysMatch(models);
    UnsupportedLastIsBad(models);
    forall i | i in d.routes && Mine(d.routes[i], a)
      ensures Wanted(t.catalog, last, d.routes[i].modelId) && Carries(d.routes[i], last[d.routes[i].modelId])
      ensures if i in t.routes then OperatorsValuesKept(t.routes[i], d.routes[i]) else InsertedRoute(d.routes[i], a, now)
    {
      ReconciledRoutes(t, d, a, last, EverUnsupported(models), now, i);
    }
    forall id ensures HasEnabledRoute(d.routes, id, a) <==> Wanted(t.catalog, last, id) {
      EnabledMeansWanted(t.catalog, d.routes, a, last, id);
    }
  }

  /** A managed or new entry that is listed is enabled and has the last listed name and family, and the time it
      was first listed. */
  lemma {:induction false} EntriesBecomeTheList(t: Tables, a: string, models: seq<Model>, now: int, id: string)
    requires Listed(models, id) && (id in t.catalog ==> t.catalog[id].managed)
    ensures var d := Reconciled(t, a, models, now);
            && id in d.catalog && id in LastOf(models) && d.catalog[id].managed && d.catalog[id].enabled
            && d.catalog[id].displayName == LastOf(models)[id].displayName && d.catalog[id].family == LastOf(models)[id].family
            && d.catalog[id].createdAt == (if id in t.catalog then t.catalog[id].createdAt else now)
  {
    LastOfListed(models, id);
    CatalogIsDone(t, a, models, now);
    EnabledEntriesHaveSources(t, a, models, now);
  }

  /** A managed entry is enabled only while some account offers it, and is enabled when listed. */
  lemma {:induction false} EnabledEntriesHaveSources(t: Tables, a: string, models: seq<Model>, now: int)
    ensures var d := Reconciled(t, a, models, now);
            forall id :: id in d.catalog && d.catalog[id].managed ==>
              && (d.catalog[id].enabled ==> HasSource(d.sources, id))
              && (Listed(models, id) ==> d.catalog[id].enabled)
  {
    var d := Reconciled(t, a, models, now);
    CatalogIsDone(t, a, models, now);
    SourcesAreDone(t, a, models, now);
    DoneEntries(t, d, a, LastOf(models), now);
    forall id ensures id in LastOf(models) <==> Listed(models, id) {
      LastOfListed(models, id);
    }
  }

  lemma {:induction false} DoneEntries(t: Tables, d: Tables, a: string, last: map<string, Model>, now: int)
    requires CatalogDone(t, d, last, now) && SourcesDone(t, d, a, last, now)
    ensures forall id :: id in d.catalog && d.catalog[id].managed ==>
              && (d.catalog[id].enabled ==> HasSource(d.sources, id))
              && (id in last ==> d.catalog[id].enabled)
  {
    forall id | id in last ensures HasSource(d.sources, id) {
      assert (id, a) in d.sources;
    }
  }

  lemma {:induction false} EnabledMeansWanted(catalog: map<string, Entry>, routes: map<nat, Route>, a: string,
                                              last: map<string, Model>, id: string)
    requires WantedHaveRoutes(catalog, routes, a, last)
    requires forall i :: i in routes && Mine(routes[i], a) ==>
               Wanted(catalog, last, routes[i].modelId) && Carries(routes[i], last[routes[i].modelId])
    ensures HasEnabledRoute(routes, id, a) <==> Wanted(catalog, last, id)
  {
    if Wanted(catalog, last, id) {
      assert HasMatch(routes, id, a);
      var i :| i in routes && Matches(routes[i], id, a);
      assert Mine(routes[i], a);
    }
  }

  /** Isolation of the catalog: manual entries stay as they are, managed and manual never swap, and an
      unlisted managed entry loses nothing but its enabled flag, and that only when no account offers
      it any more. */
  lemma {:induction false} CatalogIsolation(t: Tables, a: string, models: seq<Model>, now: int)
    ensures var d := Reconciled(t, a, models, now);
            && (forall id :: id in t.catalog ==> id in d.catalog && d.catalog[id].managed == t.catalog[id].managed)
            && (forall id :: id in t.catalog && !t.catalog[id].managed ==> d.catalog[id] == t.catalog[id])
            && (forall id :: id in t.catalog && t.catalog[id].managed && !Listed(models, id) ==>
                  d.catalog[id] == t.catalog[id].(enabled := t.catalog[id].enabled && HasSource(d.sources, id)))
            && (forall id :: id in d.catalog && id !in t.catalog ==> Listed(models, id) && d.catalog[id].managed)
  {
    CatalogIsDone(t, a, models, now);
    forall id ensures id in LastOf(models) <==> Listed(models, id) {
      LastOfListed(models, id);
    }
  }

  /** Isolation of routes and sources: manual routes, and every other account's routes and sources,
      are the same rows before and after. */
  lemma {:induction false} AccountIsolation(t: Tables, a: string, models: seq<Model>, now: int)
    requires Consistent(t)
    ensures var d := Reconciled(t, a, models, now);
            && (forall i :: i in t.routes && !Mine(t.routes[i], a) ==> i in d.routes && d.routes[i] == t.routes[i])
            && (forall i :: i in d.routes && !Mine(d.routes[i], a) ==> i in t.routes)
            && (forall k: (string, string) :: k.1 != a ==> (k in d.sources <==> k in t.sources))
            && (forall k: (string, string) :: k.1 != a && k in t.sources ==> d.sources[k] == t.sources[k])
  {
    RoutesAreDone(t, a, models, now);
    SourcesAreDone(t, a, models, now);
  }

  // ---------- Idempotence ----------

  function SeenAgain(sources: map<(string, string), Source>, a: string, now: int): map<(string, string), Source> {
    map k | k in sources :: if k.1 == a then sources[k].(lastSeenAt := now) else sources[k]
  }

  /** A listed model that gets a route in the end but was also listed as unsupported. */
  ghost predicate Flickers(t: Tables, models: seq<Model>, id: string) {
    Wanted(t.catalog, LastOf(models), id) && id in EverUnsupported(models)
  }

  lemma {:induction false} SameSourcesAgain(t: Tables, d: Tables, e: Tables, a: string, last: map<string, Model>, now: int, later: int)
    requires SourcesDone(t, d, a, last, now) && SourcesDone(d, e, a, last, later)
    ensures e.sources == SeenAgain(d.sources, a, later)
    ensures forall id :: HasSource(e.sources, id) <==> HasSource(d.sources, id)
    ensures forall id :: id in last ==> HasSource(d.sources, id)
  {
    assert forall k :: k in e.sources <==> k in d.sources;
    forall id | id in last ensures HasSource(d.sources, id) {
      assert (id, a) in d.sources;
    }
  }

  lemma {:induction false} SameCatalogAgain(t: Tables, d: Tables, e: Tables, last: map<string, Model>, now: int, later: int)
    requires CatalogDone(t, d, last, now) && CatalogDone(d, e, last, later)
    requires forall id :: HasSource(e.sources, id) <==> HasSource(d.sources, id)
    requires forall id :: id in last ==> HasSource(d.sources, id)
    ensures e.catalog == d.catalog
  {
  }

  lemma {:induction false} SecondRunSameCatalog(t: Tables, a: string, models: seq<Model>, now: int, later: int)
    ensures var d := Reconciled(t, a, models, now);
            Reconciled(d, a, models, later).catalog == d.catalog
    ensures var d := Reconciled(t, a, models, now);
            Reconciled(d, a, models, later).sources == SeenAgain(d.sources, a, later)
  {
    var d := Reconciled(t, a, models, now);
    CatalogIsDone(t, a, models, now);
    CatalogIsDone(d, a, models, later);
    SourcesAreDone(t, a, models, now);
    SourcesAreDone(d, a, models, later);
    SameSourcesAgain(t, d, Reconciled(d, a, models, later), a, LastOf(models), now, later);
    SameCatalogAgain(t, d, Reconciled(d, a, models, later), LastOf(models), now, later);
  }

  /** A second run of the same list leaves the routes as they are exactly when no listed model that
      keeps a route was also listed as unsupported. */
  lemma {:induction false} SecondRunSameRoutes(t: Tables, a: string, models: seq<Model>, now: int, later: int)
    requires Consistent(t)
    ensures var d := Reconciled(t, a, models, now);
            Reconciled(d, a, models, later).routes == d.routes <==> forall id :: !Flickers(t, models, id)
  {
    var d := Reconciled(t, a, models, now);
    var e := Reconciled(d, a, models, later);
    var last := LastOf(models);
    var bad := EverUnsupported(models);
    ReconcileKeepsConsistent(t, a, models, now);
    RoutesAreDone(t, a, models, now);
    RoutesAreDone(d, a, models, later);
    CatalogIsolation(t, a, models, now);
    LastKeysMatch(models);
    UnsupportedLastIsBad(models);
    forall id | id in last ensures Listed(models, id) {
      LastOfListed(models, id);
    }
    forall i | i in d.routes && Mine(d.routes[i], a)
      ensures Wanted(t.catalog, last, d.routes[i].modelId) && Carries(d.routes[i], last[d.routes[i].modelId])
    {
      ReconciledRoutes(t, d, a, last, bad, now, i);
    }
    SecondRoutes(t, d, e, a, models, later);
  }

  lemma {:induction false} SecondRoutes(t: Tables, d: Tables, e: Tables, a: string, models: seq<Model>, later: int)
    requires RoutesDone(d, e, a, LastOf(models), EverUnsupported(models), later)
    requires WantedHaveRoutes(t.catalog, d.routes, a, LastOf(models))
    requires forall id :: id in LastOf(models) ==> (Manageable(d.catalog, id) <==> Manageable(t.catalog, id))
    requires forall i :: i in d.routes && Mine(d.routes[i], a) ==>
               && Wanted(t.catalog, LastOf(models), d.routes[i].modelId)
               && Carries(d.routes[i], LastOf(models)[d.routes[i].modelId])
    ensures e.routes == d.routes <==> forall id :: !Flickers(t, models, id)
  {
    forall i | i in e.routes && i !in d.routes ensures Flickers(t, models, e.routes[i].modelId) {
      var id := e.routes[i].modelId;
      assert Wanted(t.catalog, LastOf(models), id) && HasMatch(d.routes, id, a);
    }
    if id :| Flickers(t, models, id) {
      assert HasMatch(d.routes, id, a);
      var i :| i in d.routes && Matches(d.routes[i], id, a);
      assert i !in e.routes;
    } else {
      forall i | i in d.routes ensures i in e.routes && e.routes[i] == d.routes[i] {
        if Mine(d.routes[i], a) {
          assert !Flickers(t, models, d.routes[i].modelId);
        }
      }
    }
  }

  /** Such a list exists: it lists one model twice, first as unsupported. Each run then deletes the
      route that the run before made, and makes another. */
  lemma {:induction false} DuplicateListingFlickers(m: Model, a: string, now: int, later: int)
    requires m.supportedInApi
    ensures var d := Reconciled(Tables(map[], map[], map[], 0), a, [m.(supportedInApi := false), m], now);
            Reconciled(d, a, [m.(supportedInApi := false), m], later).routes != d.routes
  {
    var t, first := Tables(map[], map[], map[], 0), m.(supportedInApi := false);
    var models := [first, m];
    assert models[..1] == [first] && [first][..0] == [];
    assert LastOf(models) == LastOf([first])[m.id := m];
    assert first in models && first.id == m.id;
    assert Flickers(t, models, m.id);
    SecondRunSameRoutes(t, a, models, now, later);
  }

  predicate DistinctIds(models: seq<Model>) {
    forall i, j :: 0 <= i < j < |models| ==> models[i].id != models[j].id
  }

  /** Reconciling the same list of distinct ids again changes nothing but the time it was last seen. */
  lemma {:induction false} ReconcileIsIdempotent(t: Tables, a: string, models: seq<Model>, now: int, later: int)
    requires Consistent(t) && DistinctIds(models)
    ensures var d := Reconciled(t, a, models, now);
            var e := Reconciled(d, a, models, later);
            e.catalog == d.catalog && e.sources == SeenAgain(d.sources, a, later) && e.routes == d.routes
  {
    SecondRunSameCatalog(t, a, models, now, later);
    SecondRunSameRoutes(t, a, models, now, later);
    forall id ensures !Flickers(t, models, id) {
      if id in LastOf(models) && id in EverUnsupported(models) {
        LastOfListed(models, id);
        var m :| m in models && !m.supportedInApi && m.id == id;
        assert m == LastOf(models)[id];
      }
    }
  }

  // ---------- Confluence ----------

  /** The entries as far as order may not matter: all but display metadata and creation time. */
  function Flags(catalog: map<string, Entry>): map<string, (bool, bool)> {
    map id | id in catalog :: (catalog[id].managed, catalog[id].enabled)
  }

  lemma {:induction false} SourcesCommute(t: Tables, d: Tables, x: Tables, e: Tables, y: Tables, a: string, b: string,
                                          last: map<string, Model>, other: map<string, Model>, now: int, later: int)
    requires a != b
    requires SourcesDone(t, d, a, last, now) && SourcesDone(d, x, b, other, later)
    requires SourcesDone(t, e, b, other, later) && SourcesDone(e, y, a, last, now)
    ensures x.sources == y.sources
  {
  }

  /** After one run, an entry's flags. */
  predicate FlagsAfter(t: Tables, d: Tables, last: map<string, Model>, id: string) {
    && (id in d.catalog <==> id in t.catalog || id in last)
    && (id in d.catalog ==>
          && d.catalog[id].managed == Manageable(t.catalog, id)
          && d.catalog[id].enabled ==
             if !Manageable(t.catalog, id) then t.catalog[id].enabled
             else HasSource(d.sources, id) && (id in last || t.catalog[id].enabled))
  }

  lemma {:induction false} FlagsFollow(t: Tables, d: Tables, last: map<string, Model>, now: int, id: string)
    requires CatalogDone(t, d, last, now)
    ensures FlagsAfter(t, d, last, id)
  {
  }

  lemma {:induction false} SourcesReach(t: Tables, d: Tables, x: Tables, a: string, b: string,
                                        last: map<string, Model>, other: map<string, Model>, now: int, later: int, id: string)
    requires a != b && SourcesDone(t, d, a, last, now) && SourcesDone(d, x, b, other, later)
    ensures id in last || id in other ==> HasSource(x.sources, id)
    ensures id in last ==> HasSource(d.sources, id)
    ensures HasSource(x.sources, id) && id !in other ==> HasSource(d.sources, id)
  {
    if id in last {
      assert (id, a) in d.sources && (id, a) in x.sources;
    }
    if id in other {
      assert (id, b) in x.sources;
    }
    if HasSource(x.sources, id) && id !in other {
      var k :| k in x.sources && k.0 == id;
      assert k in d.sources;
    }
  }

  /** After two runs in this order, an entry's flags as a function of the start and the two lists. */
  predicate FlagsAfterBoth(t: Tables, x: Tables, last: map<string, Model>, other: map<string, Model>, id: string) {
    var listed := id in last || id in other;
    && (id in x.catalog <==> id in t.catalog || listed)
    && (id in x.catalog ==>
          && x.catalog[id].managed == Manageable(t.catalog, id)
          && x.catalog[id].enabled ==
             if !Manageable(t.catalog, id) then t.catalog[id].enabled
             else HasSource(x.sources, id) && (listed || t.catalog[id].enabled))
  }

  lemma {:induction false} FlagsCompose(t: Tables, d: Tables, x: Tables, last: map<string, Model>, other: map<string, Model>,
                                        id: string)
    requires FlagsAfter(t, d, last, id) && FlagsAfter(d, x, other, id)
    requires id in last || id in other ==> HasSource(x.sources, id)
    requires id in last ==> HasSource(d.sources, id)
    requires HasSource(x.sources, id) && id !in other ==> HasSource(d.sources, id)
    ensures FlagsAfterBoth(t, x, last, other, id)
  {
  }

  lemma {:induction false} FlagsAgree(t: Tables, x: Tables, y: Tables, last: map<string, Model>, other: map<string, Model>)
    requires x.sources == y.sources
    requires forall id :: FlagsAfterBoth(t, x, last, other, id) && FlagsAfterBoth(t, y, other, last, id)
    ensures Flags(x.catalog) == Flags(y.catalog)
  {
    forall id
      ensures (id in x.catalog <==> id in y.catalog)
              && (id in x.catalog ==> x.catalog[id].managed == y.catalog[id].managed
                                      && x.catalog[id].enabled == y.catalog[id].enabled)
    {
      assert FlagsAfterBoth(t, x, last, other, id);
    }
  }

  lemma {:induction false} FlagsCommute(t: Tables, d: Tables, x: Tables, e: Tables, y: Tables, a: string, b: string,
                                        last: map<string, Model>, other: map<string, Model>, now: int, later: int)
    requires a != b
    requires SourcesDone(t, d, a, last, now) && SourcesDone(d, x, b, other, later)
    requires SourcesDone(t, e, b, other, later) && SourcesDone(e, y, a, last, now)
    requires CatalogDone(t, d, last, now) && CatalogDone(d, x, other, later)
    requires CatalogDone(t, e, other, later) && CatalogDone(e, y, last, now)
    ensures Flags(x.catalog) == Flags(y.catalog)
  {
    SourcesCommute(t, d, x, e, y, a, b, last, other, now, later);
    forall id ensures FlagsAfterBoth(t, x, last, other, id) && FlagsAfterBoth(t, y, other, last, id) {
      OneOrder(t, d, x, a, b, last, other, now, later, id);
      OneOrder(t, e, y, b, a, other, last, later, now, id);
    }
    FlagsAgree(t, x, y, last, other);
  }

  lemma {:induction false} OneOrder(t: Tables, d: Tables, x: Tables, a: string, b: string,
                                    last: map<string, Model>, other: map<string, Model>, now: int, later: int, id: string)
    requires a != b
    requires SourcesDone(t, d, a, last, now) && SourcesDone(d, x, b, other, later)
    requires CatalogDone(t, d, last, now) && CatalogDone(d, x, other, later)
    ensures FlagsAfterBoth(t, x, last, other, id)
  {
    FlagsFollow(t, d, last, now, id);
    FlagsFollow(d, x, other, later, id);
    SourcesReach(t, d, x, a, b, last, other, now, later, id);
    FlagsCompose(t, d, x, last, other, id);
  }

  /** Routes that were there before either run: the same survive, with the same values. */
  lemma {:induction false} OldRoutesCommute(t: Tables, d: Tables, x: Tables, e: Tables, y: Tables, a: string, b: string,
                                            last: map<string, Model>, other: map<string, Model>,
                                            bad: set<string>, worse: set<string>, now: int, later: int, i: nat)
    requires a != b && i in t.routes && IdsBelow(t.routes, t.nextRoute)
    requires RoutesDone(t, d, a, last, bad, now) && RoutesDone(d, x, b, other, worse, later)
    requires RoutesDone(t, e, b, other, worse, later) && RoutesDone(e, y, a, last, bad, now)
    ensures (i in x.routes <==> i in y.routes) && (i in x.routes ==> x.routes[i] == y.routes[i])
  {
  }

  ghost predicate IsNew(t: Tables, u: Tables, i: nat, r: Route) {
    i in u.routes && i !in t.routes && u.routes[i] == r
  }

  /** A route the first run inserted: in the other order its run inserts the same route later. */
  lemma {:induction false} FirstInsertCommutes(t: Tables, d: Tables, e: Tables, y: Tables, a: string, b: string,
                                               last: map<string, Model>, other: map<string, Model>,
                                               bad: set<string>, worse: set<string>, now: int, later: int, i: nat)
    returns (j: nat)
    requires a != b && IdsBelow(t.routes, t.nextRoute) && KeysMatch(last)
    requires RoutesDone(t, d, a, last, bad, now)
    requires RoutesDone(t, e, b, other, worse, later) && RoutesDone(e, y, a, last, bad, now)
    requires forall id :: id in last && Manageable(t.catalog, id) ==> Manageable(e.catalog, id)
    requires i in d.routes && i !in t.routes
    ensures IsNew(t, y, j, d.routes[i])
  {
    var id := d.routes[i].modelId;
    assert Wanted(e.catalog, last, id);
    assert HasMatch(y.routes, id, a);
    j :| j in y.routes && Matches(y.routes[j], id, a);
    if j in t.routes {
      assert Matches(t.routes[j], id, a);
    }
  }

  /** A route the second run inserted: in the other order its run, now first, inserts the same route,
      and the run that follows leaves it alone. */
  lemma {:induction false} SecondInsertCommutes(t: Tables, d: Tables, x: Tables, e: Tables, y: Tables, a: string, b: string,
                                                last: map<string, Model>, other: map<string, Model>,
                                                bad: set<string>, worse: set<string>, now: int, later: int, i: nat)
    returns (j: nat)
    requires a != b && IdsBelow(t.routes, t.nextRoute) && KeysMatch(other)
    requires RoutesDone(t, d, a, last, bad, now) && RoutesDone(d, x, b, other, worse, later)
    requires RoutesDone(t, e, b, other, worse, later) && RoutesDone(e, y, a, last, bad, now)
    requires forall id :: id in other && Manageable(d.catalog, id) ==> Manageable(t.catalog, id)
    requires i in x.routes && i !in d.routes
    ensures IsNew(t, y, j, x.routes[i])
  {
    var id := x.routes[i].modelId;
    assert Wanted(t.catalog, other, id);
    assert HasMatch(e.routes, id, b);
    j :| j in e.routes && Matches(e.routes[j], id, b);
  }

  /** Reconciling two accounts in either order gives the same sources, and the same entries with the
      same managed and enabled flags; only display metadata and creation times depend on the order. */
  lemma {:induction false} CatalogConfluent(t: Tables, a: string, b: string, ms: seq<Model>, ns: seq<Model>, now: int, later: int)
    requires a != b
    ensures var x := Reconciled(Reconciled(t, a, ms, now), b, ns, later);
            var y := Reconciled(Reconciled(t, b, ns, later), a, ms, now);
            x.sources == y.sources && Flags(x.catalog) == Flags(y.catalog)
  {
    var d := Reconciled(t, a, ms, now);
    var e := Reconciled(t, b, ns, later);
    SourcesAreDone(t, a, ms, now);
    SourcesAreDone(d, b, ns, later);
    SourcesAreDone(t, b, ns, later);
    SourcesAreDone(e, a, ms, now);
    CatalogIsDone(t, a, ms, now);
    CatalogIsDone(d, b, ns, later);
    CatalogIsDone(t, b, ns, later);
    CatalogIsDone(e, a, ms, now);
    var x := Reconciled(d, b, ns, later);
    var y := Reconciled(e, a, ms, now);
    SourcesCommute(t, d, x, e, y, a, b, LastOf(ms), LastOf(ns), now, later);
    FlagsCommute(t, d, x, e, y, a, b, LastOf(ms), LastOf(ns), now, later);
  }

  ghost predicate Covers(t: Tables, x: Tables, y: Tables) {
    forall i :: i in x.routes ==>
      if i in t.routes then i in y.routes && y.routes[i] == x.routes[i]
      else exists j :: IsNew(t, y, j, x.routes[i])
  }

  /** One half of route confluence: what the first order leaves, the second leaves too. */
  lemma {:induction false} RoutesHalfConfluent(t: Tables, a: string, b: string, ms: seq<Model>, ns: seq<Model>,
                                               now: int, later: int)
    requires a != b && Consistent(t)
    ensures Covers(t, Reconciled(Reconciled(t, a, ms, now), b, ns, later), Reconciled(Reconciled(t, b, ns, later), a, ms, now))
  {
    var d := Reconciled(t, a, ms, now);
    var e := Reconciled(t, b, ns, later);
    ReconcileKeepsConsistent(t, a, ms, now);
    ReconcileKeepsConsistent(t, b, ns, later);
    RoutesAreDone(t, a, ms, now);
    RoutesAreDone(d, b, ns, later);
    RoutesAreDone(t, b, ns, later);
    RoutesAreDone(e, a, ms, now);
    ManageableStays(t, a, ms, now);
    ManageableStays(t, b, ns, later);
    LastKeysMatch(ms);
    LastKeysMatch(ns);
    var x := Reconciled(d, b, ns, later);
    var y := Reconciled(e, a, ms, now);
    EveryRouteCommutes(t, d, x, e, y, a, b, LastOf(ms), LastOf(ns), EverUnsupported(ms), EverUnsupported(ns), now, later);
  }

  lemma {:induction false} ManageableStays(t: Tables, a: string, models: seq<Model>, now: int)
    ensures forall id :: Manageable(t.catalog, id) <==> Manageable(Reconciled(t, a, models, now).catalog, id)
  {
    CatalogIsolation(t, a, models, now);
  }

  lemma {:induction false} EveryRouteCommutes(t: Tables, d: Tables, x: Tables, e: Tables, y: Tables, a: string, b: string,
                                              last: map<string, Model>, other: map<string, Model>,
                                              bad: set<string>, worse: set<string>, now: int, later: int)
    requires a != b && IdsBelow(t.routes, t.nextRoute) && KeysMatch(last) && KeysMatch(other)
    requires RoutesDone(t, d, a, last, bad, now) && RoutesDone(d, x, b, other, worse, later)
    requires RoutesDone(t, e, b, other, worse, later) && RoutesDone(e, y, a, last, bad, now)
    requires forall id :: Manageable(t.catalog, id) <==> Manageable(d.catalog, id)
    requires forall id :: Manageable(t.catalog, id) <==> Manageable(e.catalog, id)
    ensures Covers(t, x, y)
  {
    forall i | i in x.routes
      ensures if i in t.routes then i in y.routes && y.routes[i] == x.routes[i] else exists j :: IsNew(t, y, j, x.routes[i])
    {
      if i in t.routes {
        OldRoutesCommute(t, d, x, e, y, a, b, last, other, bad, worse, now, later, i);
      } else if i in d.routes {
        var j := FirstInsertCommutes(t, d, e, y, a, b, last, other, bad, worse, now, later, i);
        assert x.routes[i] == d.routes[i];
      } else {
        var j := SecondInsertCommutes(t, d, x, e, y, a, b, last, other, bad, worse, now, later, i);
      }
    }
  }

  function NewRoutes(t: Tables, u: Tables): map<nat, Route> {
    map i | i in u.routes && i !in t.routes :: u.routes[i]
  }

  /** No two ids hold the same route. */
  ghost predicate Different(routes: map<nat, Route>) {
    forall i, j :: i in routes && j in routes && routes[i] == routes[j] ==> i == j
  }

  /** Two runs insert no route twice: the routes of one run differ in their model, those of two runs in
      their account. */
  lemma {:induction false} TwoRunsInsertOnce(t: Tables, d: Tables, x: Tables, a: string, b: string,
                                             last: map<string, Model>, other: map<string, Model>,
                                             bad: set<string>, worse: set<string>, now: int, later: int)
    requires a != b && RoutesDone(t, d, a, last, bad, now) && RoutesDone(d, x, b, other, worse, later)
    ensures Different(NewRoutes(t, x))
  {
    forall i | i in NewRoutes(t, x)
      ensures if i in d.routes then x.routes[i] == d.routes[i] && x.routes[i].account == a else x.routes[i].account == b
    {
    }
  }

  lemma {:induction false} ReconcilesInsertOnce(t: Tables, a: string, b: string, ms: seq<Model>, ns: seq<Model>, now: int, later: int)
    requires a != b && Consistent(t)
    ensures Different(NewRoutes(t, Reconciled(Reconciled(t, a, ms, now), b, ns, later)))
  {
    var d := Reconciled(t, a, ms, now);
    ReconcileKeepsConsistent(t, a, ms, now);
    RoutesAreDone(t, a, ms, now);
    RoutesAreDone(d, b, ns, later);
    TwoRunsInsertOnce(t, d, Reconciled(d, b, ns, later), a, b, LastOf(ms), LastOf(ns),
                      EverUnsupported(ms), EverUnsupported(ns), now, later);
  }

  /** The pairing matches the ids of two sets of routes one to one, and each route with an equal one. */
  ghost predicate Pairs(routes: map<nat, Route>, others: map<nat, Route>, pairing: map<nat, nat>) {
    && pairing.Keys == routes.Keys && pairing.Values == others.Keys
    && (forall i :: i in pairing ==> pairing[i] in others && others[pairing[i]] == routes[i])
    && (forall i, j :: i in pairing && j in pairing && pairing[i] == pairing[j] ==> i == j)
  }

  lemma {:induction false} PairRoutes(routes: map<nat, Route>, others: map<nat, Route>) returns (pairing: map<nat, nat>)
    requires Different(routes) && Different(others) && routes.Values == others.Values
    ensures Pairs(routes, others, pairing)
  {
    forall i | i in routes ensures routes[i] in others.Values {
      assert routes[i] in routes.Values;
    }
    pairing := map i | i in routes :: IdOf(others, routes[i]);
    forall j | j in others ensures j in pairing.Values {
      assert others[j] in others.Values;
      var i :| i in routes && routes[i] == others[j];
      assert pairing[i] == j;
    }
  }

  ghost function IdOf(routes: map<nat, Route>, r: Route): (j: nat)
    requires r in routes.Values
    ensures j in routes && routes[j] == r
  {
    var j :| j in routes && routes[j] == r;
    j
  }

  /** A route that was there before is in both or in neither, with the same values, and the new routes are
      the same up to their ids. */
  ghost predicate SameUpToNewIds(t: Tables, x: Tables, y: Tables, pairing: map<nat, nat>) {
    && SameOld(t, x, y) && Pairs(NewRoutes(t, x), NewRoutes(t, y), pairing)
  }

  ghost predicate SameOld(t: Tables, x: Tables, y: Tables) {
    forall i :: i in t.routes ==> (i in x.routes <==> i in y.routes) && (i in x.routes ==> x.routes[i] == y.routes[i])
  }

  lemma {:induction false} OldCovered(t: Tables, x: Tables, y: Tables)
    requires Covers(t, x, y) && Covers(t, y, x)
    ensures SameOld(t, x, y)
  {
  }

  lemma {:induction false} NewCovered(t: Tables, x: Tables, y: Tables)
    requires Covers(t, x, y)
    ensures NewRoutes(t, x).Values <= NewRoutes(t, y).Values
  {
    forall i | i in NewRoutes(t, x) ensures NewRoutes(t, x)[i] in NewRoutes(t, y).Values {
      var j :| IsNew(t, y, j, x.routes[i]);
      assert j in NewRoutes(t, y);
    }
  }

  /** Reconciling two accounts in either order leaves the same routes, up to the ids of new ones: a
      route that was there before survives both orders or neither, with the same values, and the routes
      one order inserts are those the other inserts, matched one to one. */
  lemma {:induction false} RoutesConfluent(t: Tables, a: string, b: string, ms: seq<Model>, ns: seq<Model>, now: int, later: int)
    returns (pairing: map<nat, nat>)
    requires a != b && Consistent(t)
    ensures SameUpToNewIds(t, Reconciled(Reconciled(t, a, ms, now), b, ns, later),
                           Reconciled(Reconciled(t, b, ns, later), a, ms, now), pairing)
  {
    RoutesHalfConfluent(t, a, b, ms, ns, now, later);
    RoutesHalfConfluent(t, b, a, ns, ms, later, now);
    ReconcilesInsertOnce(t, a, b, ms, ns, now, later);
    ReconcilesInsertOnce(t, b, a, ns, ms, later, now);
    var x := Reconciled(Reconciled(t, a, ms, now), b, ns, later);
    var y := Reconciled(Reconciled(t, b, ns, later), a, ms, now);
    OldCovered(t, x, y);
    NewCovered(t, x, y);
    NewCovered(t, y, x);
    pairing := PairRoutes(NewRoutes(t, x), NewRoutes(t, y));
  }
}
