/** `reconcile_managed_catalog`, statement by statement over mutable tables. */
module ManagedCatalog {
  import opened Wrappers
  import opened CatalogTables

  class ManagedCatalog {
    var catalog: map<string, Entry>
    var sources: map<(string, string), Source>
    var routes: map<nat, Route>
    var nextRoute: nat

    function State(): Tables
      reads this
    {
      Tables(catalog, sources, routes, nextRoute)
    }

    method UpsertModel(account: string, model: Model, now: int)
      modifies this
      ensures State() == Upserted(old(State()), account, model, now)
      ensures old(nextRoute !in routes && (model.id in catalog ==> catalog[model.id].managed)) && model.supportedInApi ==>
                RoutesCarry(old(routes), routes, model, account, now)
    {
      if nextRoute !in routes && (model.id in catalog ==> catalog[model.id].managed) && model.supportedInApi {
        UpsertedRoutesCarry(State(), account, model, now);
      }
      if model.id !in catalog {
        catalog := catalog[model.id := Entry(model.displayName, model.family, true, true, now)];
      } else if catalog[model.id].managed {
        var entry := catalog[model.id].(displayName := model.displayName, family := model.family, enabled := true);
        catalog := catalog[model.id := entry];
      }
      sources := sources[(model.id, account) := SourceOf(model, now)];
      if !catalog[model.id].managed {
        return;
      }
      if model.supportedInApi {
        var matched := set id | id in routes && Matches(routes[id], model.id, account);
        routes := RefreshRoutes(routes, model, account);
        if matched == {} {
          forall id | id in old(routes) ensures !Matches(old(routes)[id], model.id, account) {
            assert id !in matched;
          }
          assert routes == old(routes);
          routes := routes[nextRoute := FreshRoute(model, account, now)];
          nextRoute := nextRoute + 1;
        } else {
          var id :| id in matched;
          assert Matches(old(routes)[id], model.id, account);
        }
      } else {
        routes := DeleteRoutes(routes, model.id, account);
      }
    }

    /** The tables once the stale models in `gone` have been handled. */
    static function Without(t: Tables, account: string, gone: set<string>): Tables {
      t.(sources := map k | k in t.sources && !(k.1 == account && k.0 in gone) :: t.sources[k],
         routes := map id | id in t.routes && !(Matches(t.routes[id], t.routes[id].modelId, account)
                                                && t.routes[id].modelId in gone) :: t.routes[id])
    }

    static function Dropped(t: Tables, account: string, modelId: string): Tables {
      t.(sources := t.sources - {(modelId, account)}, routes := DeleteRoutes(t.routes, modelId, account))
    }

    lemma {:induction false} WithoutOneMore(t: Tables, account: string, gone: set<string>, modelId: string)
      ensures Without(t, account, gone + {modelId}) == Dropped(Without(t, account, gone), account, modelId)
    {
    }

    lemma {:induction false} WithoutNone(t: Tables, account: string)
      ensures Without(t, account, {}) == t
    {
      assert Without(t, account, {}).sources == t.sources;
    }

    lemma {:induction false} WithoutAllStale(t: Tables, account: string, models: seq<Model>, stale: set<string>)
      requires stale == set k | k in t.sources && k.1 == account && !Listed(models, k.0) :: k.0
      ensures Without(t, account, stale) == StaleDropped(t, account, models)
    {
      forall id ensures id in stale <==> IsStale(t, account, models, id) {
        if IsStale(t, account, models, id) {
          assert (id, account) in t.sources;
        }
      }
    }

    method DropStale(account: string, models: seq<Model>)
      modifies `sources, `routes
      ensures State() == StaleDropped(old(State()), account, models)
    {
      var stale := set k | k in sources && k.1 == account && !Listed(models, k.0) :: k.0;
      var left := stale;
      ghost var gone := {};
      WithoutNone(State(), account);
      while left != {}
        invariant left + gone == stale
        invariant State() == Without(old(State()), account, gone)
        decreases |left|
      {
        var modelId :| modelId in left;
        WithoutOneMore(old(State()), account, gone, modelId);
        ghost var now := State();
        sources := sources - {(modelId, account)};
        routes := DeleteRoutes(routes, modelId, account);
        assert State() == Dropped(now, account, modelId);
        left := left - {modelId};
        gone := gone + {modelId};
      }
      WithoutAllStale(old(State()), account, models, stale);
    }

    method Reconcile(account: string, models: seq<Model>, now: int)
      modifies this
      ensures State() == Reconciled(old(State()), account, models, now)
    {
      var i := 0;
      while i < |models|
        invariant 0 <= i <= |models|
        invariant State() == UpsertedAll(old(State()), account, models[..i], now)
      {
        UpsertModel(account, models[i], now);
        i := i + 1;
        assert models[..i][..i - 1] == models[..i - 1];
      }
      assert models[..i] == models;
      DropStale(account, models);
      catalog := OrphansDisabled(State()).catalog;
    }
  }
}
