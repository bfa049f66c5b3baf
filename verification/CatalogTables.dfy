/** The model catalog, its per-account sources and the provider routes, as tables; and the
    reconciliation of one account's authoritative list against them. */
module CatalogTables {
  import opened Wrappers

  datatype Entry = Entry(displayName: string, family: string, enabled: bool, managed: bool, createdAt: int)

  datatype Source = Source(upstreamModelId: string, displayName: string, family: string, wireApi: string,
                           supportedInApi: bool, lastSeenAt: int)

  datatype Route = Route(modelId: string, account: string, upstreamModelId: string, wireApi: string, role: string,
                         enabled: bool, managed: bool, weight: nat, status: string, lastError: Option<string>,
                         lastStatusCode: Option<int>, cooldownUntil: Option<int>, lastUsedAt: Option<int>,
                         stripParams: seq<string>, createdAt: int)

  datatype Model = Model(id: string, displayName: string, family: string, upstreamModelId: string, wireApi: string,
                         supportedInApi: bool)

  /** `sources` is keyed by model and account; `nextRoute` supplies the fresh route ids. */
  datatype Tables = Tables(catalog: map<string, Entry>, sources: map<(string, string), Source>,
                           routes: map<nat, Route>, nextRoute: nat)

  function SourceOf(m: Model, now: int): Source {
    Source(m.upstreamModelId, m.displayName, m.family, m.wireApi, m.supportedInApi, now)
  }

  function FreshRoute(m: Model, account: string, now: int): Route {
    Route(m.id, account, m.upstreamModelId, m.wireApi, "primary", true, true, 100, "healthy", None, None, None, None,
          [], now)
  }

  /** The update keeps the operator's role, weight and stripped parameters. */
  function Refreshed(r: Route, m: Model): Route {
    r.(upstreamModelId := m.upstreamModelId, wireApi := m.wireApi, enabled := true, status := "healthy",
       lastError := None, lastStatusCode := None, cooldownUntil := None)
  }

  /** A managed route of the account for the model. */
  predicate Matches(r: Route, modelId: string, account: string) {
    r.managed && r.modelId == modelId && r.account == account
  }

  predicate HasMatch(routes: map<nat, Route>, modelId: string, account: string) {
    exists id :: id in routes && Matches(routes[id], modelId, account)
  }

  function UpsertEntry(catalog: map<string, Entry>, m: Model, now: int): map<string, Entry> {
    if m.id !in catalog then catalog[m.id := Entry(m.displayName, m.family, true, true, now)]
    else if catalog[m.id].managed then
      catalog[m.id := catalog[m.id].(displayName := m.displayName, family := m.family, enabled := true)]
    else catalog
  }

  function RefreshRoutes(routes: map<nat, Route>, m: Model, account: string): map<nat, Route> {
    map id | id in routes ::
      if Matches(routes[id], m.id, account) then Refreshed(routes[id], m) else routes[id]
  }

  function DeleteRoutes(routes: map<nat, Route>, modelId: string, account: string): map<nat, Route> {
    map id | id in routes && !Matches(routes[id], modelId, account) :: routes[id]
  }

  /** One listed model. */
  function Upserted(t: Tables, account: string, m: Model, now: int): Tables {
    var u := t.(catalog := UpsertEntry(t.catalog, m, now), sources := t.sources[(m.id, account) := SourceOf(m, now)]);
    if !u.catalog[m.id].managed then u
    else if !m.supportedInApi then u.(routes := DeleteRoutes(u.routes, m.id, account))
    else if HasMatch(u.routes, m.id, account) then u.(routes := RefreshRoutes(u.routes, m, account))
    else u.(routes := u.routes[u.nextRoute := FreshRoute(m, account, now)], nextRoute := u.nextRoute + 1)
  }

  function UpsertedAll(t: Tables, account: string, models: seq<Model>, now: int): Tables
    decreases |models|
  {
    if models == [] then t
    else Upserted(UpsertedAll(t, account, models[..|models| - 1], now), account, models[|models| - 1], now)
  }

  predicate Listed(models: seq<Model>, id: string) {
    exists m :: m in models && m.id == id
  }

  /** Sources of the account for models no longer listed go, and its managed routes with them. */
  predicate IsStale(t: Tables, account: string, models: seq<Model>, id: string) {
    (id, account) in t.sources && !Listed(models, id)
  }

  function StaleDropped(t: Tables, account: string, models: seq<Model>): Tables {
    t.(sources := map k | k in t.sources && !(k.1 == account && !Listed(models, k.0)) :: t.sources[k],
       routes := map id | id in t.routes && !(Matches(t.routes[id], t.routes[id].modelId, account)
                                              && IsStale(t, account, models, t.routes[id].modelId)) :: t.routes[id])
  }

  predicate HasSource(sources: map<(string, string), Source>, id: string) {
    exists k :: k in sources && k.0 == id
  }

  function OrphansDisabled(t: Tables): Tables {
    t.(catalog := map id | id in t.catalog ::
         if t.catalog[id].managed && !HasSource(t.sources, id) then t.catalog[id].(enabled := false)
         else t.catalog[id])
  }

  function Reconciled(t: Tables, account: string, models: seq<Model>, now: int): Tables {
    OrphansDisabled(StaleDropped(UpsertedAll(t, account, models, now), account, models))
  }

  // ---------- What a caller is promised of the routes ----------

  /** The values a reconciled route carries: where the listing sends it, and a clean bill of health. */
  predicate Carries(r: Route, m: Model) {
    && r.upstreamModelId == m.upstreamModelId && r.wireApi == m.wireApi && r.enabled
    && r.status == "healthy" && r.lastError == None && r.lastStatusCode == None && r.cooldownUntil == None
  }

  /** What the operator set on a route, and its history, stay. */
  predicate OperatorsValuesKept(before: Route, after: Route) {
    && after.modelId == before.modelId && after.account == before.account && after.managed == before.managed
    && after.role == before.role && after.weight == before.weight && after.stripParams == before.stripParams
    && after.lastUsedAt == before.lastUsedAt && after.createdAt == before.createdAt
  }

  /** A route that is inserted is primary, of weight 100, and strips nothing. */
  predicate InsertedRoute(r: Route, a: string, now: int) {
    && r.account == a && r.managed && r.role == "primary" && r.weight == 100
    && r.stripParams == [] && r.lastUsedAt == None && r.createdAt == now
  }

  /** The account's managed routes for the model, of which there is one at least, carry the listed values; the
      others are as they were. */
  ghost predicate RoutesCarry(before: map<nat, Route>, after: map<nat, Route>, m: Model, account: string, now: int) {
    && HasMatch(after, m.id, account)
    && (forall i :: i in before ==> i in after)
    && (forall i :: i in after && Matches(after[i], m.id, account) ==>
          Carries(after[i], m) && if i in before then OperatorsValuesKept(before[i], after[i]) else InsertedRoute(after[i], account, now))
    && (forall i :: i in after && !Matches(after[i], m.id, account) ==> i in before && after[i] == before[i])
  }

  lemma {:induction false} UpsertedRoutesCarry(t: Tables, account: string, m: Model, now: int)
    requires t.nextRoute !in t.routes && m.supportedInApi && (m.id in t.catalog ==> t.catalog[m.id].managed)
    ensures RoutesCarry(t.routes, Upserted(t, account, m, now).routes, m, account, now)
  {
    var after := Upserted(t, account, m, now).routes;
    if HasMatch(t.routes, m.id, account) {
      var i :| i in t.routes && Matches(t.routes[i], m.id, account);
      assert Matches(after[i], m.id, account);
    } else {
      assert Matches(after[t.nextRoute], m.id, account);
    }
  }
}
