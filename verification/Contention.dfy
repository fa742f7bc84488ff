/** When the queue never drains: two live claims of one name, in different namespaces, apply the same
    Namespace object and take it from each other forever. Together with Quiescence this says exactly when
    an operator that starts with every claim queued comes to rest. */
module Contention {
  import opened Builders
  import opened Outcomes
  import opened Passes
  import opened Quiescence
  import opened Readiness
  import opened Reconciles
  import opened ServerSideApply
  import opened World
  import Alerts
  import Budget
  import Numbers
  import opened PromQL

  predicate Rivals(w: World, a: ClaimId, b: ClaimId) {
    Applies(w, a) && Applies(w, b) && a != b && a.name == b.name
  }

  /** One of two rivals has the namespace, or is about to take it, and the other waits in the queue. */
  predicate Contended(w: World, holder: ClaimId, waiting: ClaimId) {
    Rivals(w, holder, waiting) && waiting in w.queue && (holder in w.queue || OwnsNamespace(w, holder))
  }

  /** A reconcile without failures takes the namespace. */
  lemma AppliedHolds(w: World, id: ClaimId, env: Env, config: Config)
    requires Applies(w, id) && Calm(env) && NamedClaims(w)
    ensures OwnsNamespace(After(w, id, env, config), id)
  {
    hide After, Started, Objects, Buildable, Visible, ClaimForObject, BelongsTo;
    CalmReach(env, |ManifestsOf(w, id, config)|);
    BuiltObjects(id, w.claims[id].spec, config.linked);
    NamespaceApplied(w, id, env, config);
    OwnerIsMine(After(w, id, env, config).objects[NamespaceKey(id)].fields, id);
  }

  lemma TakenOver(w: World, id: ClaimId, env: Env, config: Config, holder: ClaimId)
    requires Rivals(w, id, holder) && Calm(env) && NamedClaims(w) && OwnsNamespace(w, holder)
    ensures holder in After(w, id, env, config).queue
  {
    hide After, Calm, Started, Objects, ApplyPrefix, Buildable, DistinctKeys, PatchOf, ClaimForObject, Visible,
        OwnsNamespace,
         Routes, Get;
    var spec, s := w.claims[id].spec, Started(w, id);
    var ms := ManifestsOf(w, id, config);
    CalmBuilt(w, id, env, config);
    BuiltObjects(id, spec, config.linked);
    PatchesCarryLabels(id, spec, config.linked);
    AppliedHolds(w, id, env, config);
    UniverseHolds(s);
    assert id in Universe(s);
    PassEvents(s, ms, env, |ms|, id, Universe(s), NamespaceKey(id));
    assert NamespaceKey(id) == NamespaceKey(holder);
    OwnerRoutes(w, holder);
    OwnerRoutes(After(w, id, env, config), id);
    assert id !in {holder};
  }

  /** A reconcile of a claim that is not live and buildable leaves a live claim's hold on its namespace;
      so does one of a claim with another name. */
  lemma HoldStays(w: World, id: ClaimId, env: Env, config: Config, holder: ClaimId)
    requires Applies(w, holder) && Calm(env) && NamedClaims(w) && OwnsNamespace(w, holder)
    requires !Applies(w, id) || id.name != holder.name
    ensures OwnsNamespace(After(w, id, env, config), holder)
  {
    hide After, Calm, Started, Objects, ApplyPrefix, Buildable, BelongsTo, Visible, Routes;
    if Applies(w, id) {
      CalmBuilt(w, id, env, config);
      KeysByName(NamespaceKey(holder), holder, id);
      PassElsewhere(Started(w, id), id, w.claims[id].spec, config.linked, env, NamespaceKey(holder));
    } else if Live(w, id) {
      CalmUnbuilt(w, id, env, config);
    } else if Finalizing(w, id) {
      CalmFinalizing(w, id, env, config);
      if NamespaceKey(id) == NamespaceKey(holder) {
        OneOwner(w, id, holder);
      }
    } else {
      CalmGone(w, id, env, config);
    }
  }

  lemma OneOwner(w: World, a: ClaimId, b: ClaimId)
    requires a != b && NamespaceKey(a) == NamespaceKey(b) && OwnsNamespace(w, b)
    requires a.name != "" && a.namespace != "" && b.name != "" && b.namespace != ""
    ensures !OwnsNamespace(w, a)
  {
    var fields := w.objects[NamespaceKey(b)].fields;
    OwnerIsMine(fields, a);
    OwnerIsMine(fields, b);
    hide Visible, NamespaceKey, ClaimForObject, BelongsTo;
  }

  /** Whatever the queue lets the controller reconcile next, the contention goes on. */
  lemma ContentionStays(w: World, holder: ClaimId, waiting: ClaimId, id: ClaimId, env: Env, config: Config)
      returns (h: ClaimId, y: ClaimId)
    requires Contended(w, holder, waiting) && Calm(env) && NamedClaims(w) && id in w.queue
    ensures Contended(After(w, id, env, config), h, y)
    ensures NamedClaims(After(w, id, env, config))
  {
    hide After, Calm, OwnsNamespace, Buildable, Routes;
    UniverseHolds(w);
    assert id in Universe(w);
    StepKeeps(w, id, env, config, Universe(w));
    if Applies(w, id) && id.name == holder.name {
      AppliedHolds(w, id, env, config);
      if id == holder {
        h, y := holder, waiting;
      } else {
        h, y := id, holder;
        if holder !in w.queue {
          TakenOver(w, id, env, config, holder);
        }
      }
    } else {
      h, y := holder, waiting;
      if OwnsNamespace(w, holder) {
        HoldStays(w, id, env, config, holder);
      }
    }
  }

  /** So no schedule, however it goes, ever empties the queue. */
  lemma {:induction false} ContentionLasts(w: World, holder: ClaimId, waiting: ClaimId, ticks: seq<Tick>,
      config: Config)
    requires Contended(w, holder, waiting) && NamedClaims(w) && Schedule(w, ticks, config)
    ensures Ends(w, ticks, config).queue != {}
    decreases |ticks|
  {
    hide After, OwnsNamespace, Buildable, Calm;
    if ticks != [] {
      var h, y := holder, waiting;
      match ticks[0] {
        case Fires(id) => assert OwnsNamespace(Ticked(w, ticks[0], config), h) == OwnsNamespace(w, h) by {
            SameNamespace(w, Ticked(w, ticks[0], config), h);
          }
        case Reconciles(id, env) => h, y := ContentionStays(w, holder, waiting, id, env, config);
      }
      ContentionLasts(Ticked(w, ticks[0], config), h, y, ticks[1..], config);
    }
  }

  lemma SameNamespace(w: World, after: World, id: ClaimId)
    requires after.objects == w.objects
    ensures OwnsNamespace(after, id) == OwnsNamespace(w, id)
  {}

  const CALM_ENV := Env(false, false, [], 0, None, x => x, Missing, Missing, RolloutNotFound, false, false, false)

  /** And while rivals contend, a schedule can always go on without a timer, for as long as anyone likes. */
  lemma {:induction false} NeverDrains(w: World, holder: ClaimId, waiting: ClaimId, config: Config, n: nat)
      returns (ticks: seq<Tick>)
    requires Contended(w, holder, waiting) && NamedClaims(w)
    ensures Schedule(w, ticks, config) && Reconciliations(ticks) == n && Firings(ticks) == 0
    decreases n
  {
    hide After, OwnsNamespace, Buildable, Calm;
    if n == 0 {
      ticks := [];
    } else {
      assert Calm(CALM_ENV) by { CalmEnvIsCalm(); }
      var h, y := ContentionStays(w, holder, waiting, waiting, CALM_ENV, config);
      var rest := NeverDrains(After(w, waiting, CALM_ENV, config), h, y, config, n - 1);
      ticks := [Reconciles(waiting, CALM_ENV)] + rest;
      assert ticks[1..] == rest;
    }
  }

  lemma CalmEnvIsCalm()
    ensures Calm(CALM_ENV)
  {}

  /** No schedule from this world holds more reconciles than a bound, and one for each timer that fires. */
  ghost predicate DrainsWithin(w: World, config: Config, bound: nat) {
    forall ticks :: Schedule(w, ticks, config) ==> Reconciliations(ticks) <= bound + Firings(ticks)
  }

  /** An operator start, with every claim queued, ends in a drained queue exactly when no two live,
      buildable claims have the same name. The condition reads only the claims, before any reconcile. */
  lemma QuiescesIffNamesDistinct(w: World, config: Config)
    requires NamedClaims(w) && w.claims.Keys <= w.queue
    ensures (exists bound :: DrainsWithin(w, config, bound)) <==> LiveNamesDistinct(w)
  {
    hide Schedule, Ends, Buildable, Firings, Reconciliations;
    if LiveNamesDistinct(w) {
      var u := Universe(w);
      UniverseHolds(w);
      forall ticks | Schedule(w, ticks, config)
          ensures Reconciliations(ticks) <= Measure(w, u, config) + Firings(ticks) {
        Drains(w, ticks, config, u);
      }
      assert DrainsWithin(w, config, Measure(w, u, config));
    } else {
      var a, b :| Applies(w, a) && Applies(w, b) && a.name == b.name && a != b;
      forall bound: nat ensures !DrainsWithin(w, config, bound) {
        var ticks := NeverDrains(w, a, b, config, bound + 1);
      }
    }
  }

  /** A spec that builds. */
  const SPEC := Spec("owner", "image", TIER_BATCH, false, 1, Availability([200]), "99.5", "28d", map[], map[])

  lemma TwentyEightDays()
    ensures Alerts.SloWindow("28d").Some?
  {
    assert "28" + "d" == "28d" && Numbers.DigitsValue("28") == 28;
    assert Alerts.DaysText("28d", "28");
    Alerts.SloWindowExact("28d");
  }

  lemma SpecBuilds(id: ClaimId)
    ensures Buildable(id, SPEC)
  {
    Budget.BudgetOfNinetyNinePointFive();
    TwentyEightDays();
    hide Alerts.SloWindow, NamespaceName, Join, Codes, Budget.ErrorBudget;
  }

  lemma TwoClaimsNeverRest(a: ClaimId, b: ClaimId, claim: Claim, w: World, config: Config)
    requires a != b && a.name == b.name != "" && a.namespace != "" && b.namespace != ""
    requires !claim.deleting && Buildable(a, claim.spec) && Buildable(b, claim.spec)
    requires w.claims == map[a := claim, b := claim] && w.queue == {a, b}
    ensures NamedClaims(w) && w.claims.Keys <= w.queue && !LiveNamesDistinct(w)
    ensures forall bound: nat :: !DrainsWithin(w, config, bound)
  {
    hide Buildable, DrainsWithin;
    assert Applies(w, a) && Applies(w, b);
    QuiescesIffNamesDistinct(w, config);
  }

  /** Such claims exist: two of one name, in two namespaces, both accepted and both queued. The operator
      that starts with them never comes to rest. */
  lemma SomeStartNeverRests(config: Config) returns (w: World)
    ensures NamedClaims(w) && w.claims.Keys <= w.queue && !LiveNamesDistinct(w)
    ensures forall bound: nat :: !DrainsWithin(w, config, bound)
  {
    hide *;
    var a, b := ClaimId("x", "n"), ClaimId("y", "n");
    var claim := Claim(SPEC, 1, false, false, false, map[], map[], [], ClaimStatus(0, 0, 0, false, false, None));
    w := World(map[], map[a := claim, b := claim], {a, b}, {}, []);
    SpecBuilds(a);
    SpecBuilds(b);
    assert a.namespace[0] == 'x' && b.namespace[0] == 'y';
    TwoClaimsNeverRest(a, b, claim, w, config);
  }
}
