/** Quiescence: once other parties stop writing and requests succeed, the controller's own writes do not
    keep it busy, exactly when no two live claims it can build share a name. */
module Quiescence {
  import opened Builders
  import opened Drift
  import opened Outcomes
  import opened Passes
  import opened Reconciles
  import opened ServerSideApply
  import opened World

  /** No request of the reconcile fails. What Prometheus, ACK and Argo Rollouts answer is arbitrary. */
  predicate Calm(env: Env) {
    && !env.claimReadFails && !env.finalizerFails && !env.statusFails && !env.namespaceReadFails && !env.deleteFails
    && !env.rollout.RolloutUnreadable?
    && forall i :: 0 <= i < |env.turns| ==> env.turns[i].fault == NoFault
  }

  lemma CalmReach(env: Env, n: nat)
    requires Calm(env)
    ensures Reach(env, n) == n
  {}

  predicate Live(w: World, id: ClaimId) {
    id in w.claims && !w.claims[id].deleting
  }

  /** A live claim whose objects are built and applied. */
  predicate Applies(w: World, id: ClaimId) {
    Live(w, id) && Buildable(id, w.claims[id].spec)
  }

  ghost predicate LiveNamesDistinct(w: World) {
    forall a, b :: Applies(w, a) && Applies(w, b) && a.name == b.name ==> a == b
  }

  /** The API server accepts no claim without a name or a namespace. */
  predicate NamedClaims(w: World) {
    forall id :: id in w.claims ==> id.name != "" && id.namespace != ""
  }

  // ----- What is still to be done -----

  ghost predicate Unsettled(w: World, id: ClaimId, config: Config) {
    Live(w, id) && (!w.claims[id].finalizer || (Applies(w, id) && !AllSettled(w, ManifestsOf(w, id, config))))
  }

  predicate NamespaceTerminating(w: World, id: ClaimId) {
    NamespaceKey(id) in w.objects && w.objects[NamespaceKey(id)].terminating
  }

  predicate Finalizing(w: World, id: ClaimId) {
    id in w.claims && w.claims[id].deleting && w.claims[id].finalizer
  }

  ghost function UnsettledIds(w: World, config: Config): set<ClaimId> {
    set id | id in w.claims && Unsettled(w, id, config)
  }

  function FinalizingIds(w: World): set<ClaimId> {
    set id | id in w.claims && Finalizing(w, id)
  }

  function UndeletedIds(w: World): set<ClaimId> {
    set id | id in w.claims && Finalizing(w, id) && !NamespaceTerminating(w, id)
  }

  ghost function Work(w: World, config: Config): nat {
    |UnsettledIds(w, config)| + |FinalizingIds(w)| + |UndeletedIds(w)|
  }

  /** Every claim the controller could ever be told of: queued, timed, existing, or named by some object's
      labels. */
  function Universe(w: World): set<ClaimId> {
    w.queue + w.timers + w.claims.Keys + set k, id | k in w.objects && id in Routes(Some(w.objects[k])) :: id
  }

  ghost predicate Within(w: World, u: set<ClaimId>) {
    && w.queue <= u && w.timers <= u && w.claims.Keys <= u
    && forall k :: Routes(Get(w.objects, k)) <= u
  }

  lemma UniverseHolds(w: World)
    ensures Within(w, Universe(w))
  {}

  /** The termination measure. */
  ghost function Measure(w: World, u: set<ClaimId>, config: Config): nat {
    Work(w, config) * (|u| + 1) + |w.queue|
  }

  /** A reconcile of the claim would raise no event. */
  ghost predicate Idle(w: World, id: ClaimId, config: Config) {
    && !Unsettled(w, id, config)
    && (Finalizing(w, id) ==> OwnsNamespace(w, id) && NamespaceTerminating(w, id))
  }

  // ----- Events a pass raises -----

  lemma AppliedRoutes(live: Option<Object>, patch: Fields, now: nat, id: ClaimId)
    requires ClaimForObject(patch) == Some(id) && Visible(patch)
    ensures Routes(Some(ApplyPatch(live, patch, now))) == {id}
  {}

  ghost predicate AllRouteTo(ms: seq<Manifest>, id: ClaimId) {
    forall m :: m in ms ==> ClaimForObject(PatchOf(m.content)) == Some(id) && Visible(PatchOf(m.content))
  }

  /** A pass enqueues the claims named by the objects it changes, before and after the change, and no
      others. */
  lemma {:induction false} PassEvents(w: World, ms: seq<Manifest>, env: Env, n: nat, id: ClaimId, u: set<ClaimId>,
      k: Key)
    requires n <= |ms| && DistinctKeys(ms) && AllRouteTo(ms, id) && id in u && Within(w, u)
    ensures Within(ApplyPrefix(w, ms, env, n), u)
    ensures w.queue <= ApplyPrefix(w, ms, env, n).queue
    ensures Get(ApplyPrefix(w, ms, env, n).objects, k) != Get(w.objects, k) ==>
              Routes(Get(w.objects, k)) + Routes(Get(ApplyPrefix(w, ms, env, n).objects, k)) <= ApplyPrefix(w, ms, env,
                  n).queue
  {
    hide ApplyPatch, PatchOf, TurnAt, Visible, ClaimForObject, Routes, DistinctKeys;
    if n > 0 {
      var before, m := ApplyPrefix(w, ms, env, n - 1), ms[n - 1];
      PassEvents(w, ms, env, n - 1, id, u, k);
      assert m in ms;
      AppliedRoutes(Get(before.objects, m.key), PatchOf(m.content), TurnAt(env, n - 1).now, id);
      StoreWithin(before, m.key, Applied(before, m, TurnAt(env, n - 1).now), u);
    }
  }

  lemma StoreWithin(w: World, key: Key, o: Object, u: set<ClaimId>)
    requires Within(w, u) && Routes(Some(o)) <= u
    ensures Within(StoreObject(w, key, Some(o)), u)
  {
    hide Routes;
    var after := StoreObject(w, key, Some(o));
    assert Routes(Get(w.objects, key)) <= u;
    forall k ensures Routes(Get(after.objects, k)) <= u {
      StoreObjectGets(w, key, o, k);
    }
  }

  // ----- One calm reconcile of a live claim -----

  /** Nothing about the claims changed but one claim's status and finalizer. */
  predicate SameButStatus(w: World, after: World, id: ClaimId) {
    && after.claims.Keys == w.claims.Keys
    && forall b :: b in w.claims ==>
         && after.claims[b].spec == w.claims[b].spec && after.claims[b].deleting == w.claims[b].deleting
         && (b != id ==> after.claims[b] == w.claims[b])
         && (b == id ==> after.claims[b].finalizer)
  }

  lemma StatusOnly(w: World, after: World, id: ClaimId, c: Claim)
    requires id in w.claims && after.claims == w.claims[id := c]
    requires c.spec == w.claims[id].spec && c.deleting == w.claims[id].deleting && c.finalizer
    ensures SameButStatus(w, after, id)
  {}

  lemma CalmBuilt(w: World, id: ClaimId, env: Env, config: Config)
    requires Applies(w, id) && Calm(env)
    ensures var s, ms, after := Started(w, id), ManifestsOf(w, id, config), After(w, id, env, config);
            var pass := ApplyPrefix(s, ms, env, |ms|);
            && SameButStatus(w, after, id)
            && after.objects == pass.objects && after.queue == pass.queue && after.timers == w.timers + {id}
  {
    hide After, Started, Objects, ApplyPrefix, Buildable, Reach, Corrections, StatusWritten, SameButStatus, InSync,
        DriftEvents;
    var held := Held(w, id);
    var c := StatusWritten(id, held, env, config);
    CalmReach(env, |ManifestsOf(w, id, config)|);
    StatusKeepsClaim(id, held, env, config);
    BuiltShape(w, id, env, config);
    assert After(w, id, env, config).claims == w.claims[id := c];
    StatusOnly(w, After(w, id, env, config), id, c);
  }

  lemma CalmUnbuilt(w: World, id: ClaimId, env: Env, config: Config)
    requires Live(w, id) && !Applies(w, id) && Calm(env)
    ensures var s, after := Started(w, id), After(w, id, env, config);
            && SameButStatus(w, after, id)
            && after.objects == w.objects && after.queue == s.queue && after.timers == w.timers
  {
    InvalidShape(w, id, env, config);
    var after := After(w, id, env, config);
    hide After, Buildable, InvalidConditions, Started;
    assert after.claims == w.claims[id := after.claims[id]];
    StatusOnly(w, after, id, after.claims[id]);
  }

  /** What a pass of claim id leaves of another object. */
  lemma PassElsewhere(w: World, id: ClaimId, spec: Spec, linked: bool, env: Env, k: Key)
    requires id.name != "" && id.namespace != ""
    ensures var ms := Objects(id, spec, linked);
            var pass := ApplyPrefix(w, ms, env, |ms|);
            && (!KeyOfClaim(k, id) ==> Get(pass.objects, k) == Get(w.objects, k))
            && (Get(w.objects, k).Some? ==>
                Get(pass.objects, k).Some?
                    && Get(pass.objects, k).value.terminating == Get(w.objects, k).value.terminating)
  {
    var ms := Objects(id, spec, linked);
    BuiltObjects(id, spec, linked);
    hide Objects, ApplyPrefix, PatchOf, KeyOfClaim;
    PassExact(w, ms, env, |ms|, k);
    if AmongFirst(ms, |ms|, k) {
      var i :| 0 <= i < |ms| && ms[i].key == k;
      assert WellPlaced(ms[i], id, linked);
    }
  }

  /** Claims of different names share no object. */
  lemma SettledElsewhere(w: World, after: World, b: ClaimId, spec: Spec, linked: bool)
    requires b.name != "" && b.namespace != ""
    requires forall k :: KeyOfClaim(k, b) ==> Get(after.objects, k) == Get(w.objects, k)
    ensures AllSettled(after, Objects(b, spec, linked)) == AllSettled(w, Objects(b, spec, linked))
  {
    BuiltObjects(b, spec, linked);
    hide Objects, Settled, PatchOf, KeyOfClaim;
    forall m | m in Objects(b, spec, linked) ensures Get(after.objects, m.key) == Get(w.objects, m.key) {
      assert WellPlaced(m, b, linked);
    }
  }

  lemma OtherUnsettled(w: World, id: ClaimId, env: Env, config: Config, b: ClaimId)
    requires Live(w, id) && Calm(env) && NamedClaims(w) && LiveNamesDistinct(w) && b in w.claims && b != id
    ensures Unsettled(After(w, id, env, config), b, config) <==> Unsettled(w, b, config)
  {
    hide After, Buildable, Calm, Started, ApplyPrefix, Objects, AllSettled, KeyOfClaim, Get;
    var after := After(w, id, env, config);
    if Applies(w, id) {
      CalmBuilt(w, id, env, config);
    } else {
      CalmUnbuilt(w, id, env, config);
    }
    if Applies(w, b) {
      var spec := w.claims[b].spec;
      forall k | KeyOfClaim(k, b) ensures Get(after.objects, k) == Get(w.objects, k) {
        if Applies(w, id) {
          KeysByName(k, b, id);
          PassElsewhere(Started(w, id), id, w.claims[id].spec, config.linked, env, k);
        }
      }
      SettledElsewhere(w, after, b, spec, config.linked);
    }
  }

  // ----- One calm reconcile of a claim that is gone or going -----

  lemma CalmGone(w: World, id: ClaimId, env: Env, config: Config)
    requires Calm(env) && !Live(w, id) && !Finalizing(w, id)
    ensures After(w, id, env, config) == w.(queue := w.queue - {id})
  {
    hide ReconcileLive;
  }

  /** A namespace that is not the claim's, or is gone, releases the finalizer; the claim's own namespace
      is deleted once, and then waited for. */
  lemma CalmFinalizing(w: World, id: ClaimId, env: Env, config: Config)
    requires Calm(env) && Finalizing(w, id)
    ensures var after := After(w, id, env, config);
            after ==
              if !OwnsNamespace(w, id) then
                w.(claims := if w.claims[id].others then w.claims[id := w.claims[id].(finalizer := false)]
                    else w.claims - {id},
                   queue := w.queue + {id})
              else if NamespaceTerminating(w, id) then w.(queue := w.queue - {id}, timers := w.timers + {id})
              else
                var ns := w.objects[NamespaceKey(id)];
                w.(objects := w.objects[NamespaceKey(id) := ns.(terminating := true)],
                   queue := w.queue - {id} + Routes(Some(ns)), timers := w.timers + {id})
  {
    hide ReconcileLive, BelongsTo, Visible, ClaimForObject, Routes;
    var ns := Get(w.objects, NamespaceKey(id));
    if ns.Some? {
      assert Routes(Some(ns.value.(terminating := true))) == Routes(ns) by { RoutesOfFields(ns.value, true); }
      assert w.queue - {id} + {id} == w.queue + {id};
      assert (w.queue - {id} + Routes(ns)) + Routes(ns) == w.queue - {id} + Routes(ns);
    }
  }

  lemma RoutesOfFields(o: Object, terminating: bool)
    ensures Routes(Some(o.(terminating := terminating))) == Routes(Some(o))
  {}

  // ----- What is still to be done shrinks -----

  predicate Shrinks(before: set<ClaimId>, after: set<ClaimId>, id: ClaimId, strictly: bool) {
    after <= before && (strictly ==> id in before && id !in after)
  }

  lemma ShrinksCount(before: set<ClaimId>, after: set<ClaimId>, id: ClaimId, strictly: bool)
    requires Shrinks(before, after, id, strictly)
    ensures |after| <= |before| && (strictly ==> |after| < |before|)
  {
    var rest := before - after;
    assert before == after + rest;
    if strictly {
      assert id in rest;
    }
  }

  lemma LiveStepShrinks(w: World, id: ClaimId, env: Env, config: Config)
    requires Live(w, id) && Calm(env) && NamedClaims(w) && LiveNamesDistinct(w)
    ensures var after := After(w, id, env, config);
            && Shrinks(UnsettledIds(w, config), UnsettledIds(after, config), id, Unsettled(w, id, config))
            && !Unsettled(after, id, config)
            && Shrinks(FinalizingIds(w), FinalizingIds(after), id, false)
            && Shrinks(UndeletedIds(w), UndeletedIds(after), id, false)
  {
    hide After, Buildable, Calm, Started, ApplyPrefix, Objects, AllSettled, Unsettled, Get;
    var after := After(w, id, env, config);
    LiveStepSettles(w, id, env, config);
    forall b | b in w.claims && b != id ensures Unsettled(after, b, config) <==> Unsettled(w, b, config) {
      OtherUnsettled(w, id, env, config, b);
    }
    LiveStepFinalizing(w, id, env, config);
    assert Unsettled(w, id, config) ==> id in w.claims;
  }

  lemma LiveStepSettles(w: World, id: ClaimId, env: Env, config: Config)
    requires Live(w, id) && Calm(env) && NamedClaims(w)
    ensures var after := After(w, id, env, config);
            after.claims.Keys == w.claims.Keys && !Unsettled(after, id, config)
  {
    hide After, Buildable, Calm, Started, ApplyPrefix, Objects, IsSettled;
    var after := After(w, id, env, config);
    if Applies(w, id) {
      CalmBuilt(w, id, env, config);
      BuiltObjects(id, w.claims[id].spec, config.linked);
      PassSettles(Started(w, id), ManifestsOf(w, id, config), env);
    } else {
      CalmUnbuilt(w, id, env, config);
    }
  }

  lemma LiveStepFinalizing(w: World, id: ClaimId, env: Env, config: Config)
    requires Live(w, id) && Calm(env) && NamedClaims(w)
    ensures var after := After(w, id, env, config);
            && FinalizingIds(after) == FinalizingIds(w)
            && UndeletedIds(after) <= UndeletedIds(w)
  {
    hide After, Buildable, Calm, Started, ApplyPrefix, Objects;
    var after := After(w, id, env, config);
    if Applies(w, id) {
      CalmBuilt(w, id, env, config);
      forall b | b in w.claims && NamespaceTerminating(w, b) ensures NamespaceTerminating(after, b) {
        PassElsewhere(Started(w, id), id, w.claims[id].spec, config.linked, env, NamespaceKey(b));
      }
    } else {
      CalmUnbuilt(w, id, env, config);
    }
    assert forall b :: b in w.claims ==> (Finalizing(after, b) <==> Finalizing(w, b));
  }

  lemma SettledIgnoresTerminating(w: World, after: World, ms: seq<Manifest>)
    requires forall k :: Get(after.objects, k).Some? <==> Get(w.objects, k).Some?
    requires forall k :: Get(w.objects, k).Some? ==>
               Get(after.objects, k).value.fields == Get(w.objects, k).value.fields
                   && Get(after.objects, k).value.managed == Get(w.objects, k).value.managed
    ensures AllSettled(after, ms) == AllSettled(w, ms)
  {}

  lemma FinalizingKeepsUnsettled(w: World, id: ClaimId, env: Env, config: Config, b: ClaimId)
    requires Finalizing(w, id) && Calm(env)
    ensures var after := After(w, id, env, config);
            b in after.claims ==>
              && b in w.claims && (b != id ==> after.claims[b] == w.claims[b])
              && (Unsettled(after, b, config) <==> Unsettled(w, b, config))
  {
    hide After, Calm, BelongsTo, Visible, Routes, Buildable, Objects, AllSettled;
    CalmFinalizing(w, id, env, config);
    var after := After(w, id, env, config);
    if b in after.claims && Applies(w, b) {
      SettledIgnoresTerminating(w, after, ManifestsOf(w, b, config));
    }
  }

  lemma FinalizingStepShrinks(w: World, id: ClaimId, env: Env, config: Config)
    requires Finalizing(w, id) && Calm(env)
    ensures var after := After(w, id, env, config);
            && Shrinks(UnsettledIds(w, config), UnsettledIds(after, config), id, false)
            && Shrinks(FinalizingIds(w), FinalizingIds(after), id, !OwnsNamespace(w, id))
            && Shrinks(UndeletedIds(w), UndeletedIds(after), id, OwnsNamespace(w, id) && !NamespaceTerminating(w, id))
  {
    hide After, Calm, OwnsNamespace, Routes, Unsettled;
    CalmFinalizing(w, id, env, config);
    forall b | b in After(w, id, env, config).claims
      ensures b in w.claims && (Unsettled(After(w, id, env, config), b, config) ==> Unsettled(w, b, config))
    {
      FinalizingKeepsUnsettled(w, id, env, config, b);
    }
  }

  // ----- One calm reconcile -----

  ghost predicate WorkDone(w: World, after: World, id: ClaimId, config: Config) {
    || Work(after, config) < Work(w, config)
    || (Work(after, config) == Work(w, config) && after.queue == w.queue - {id})
  }

  lemma LiveStepWorks(w: World, id: ClaimId, env: Env, config: Config)
    requires Live(w, id) && Calm(env) && NamedClaims(w) && LiveNamesDistinct(w)
    ensures WorkDone(w, After(w, id, env, config), id, config)
  {
    hide After, Calm, UnsettledIds, FinalizingIds, UndeletedIds, Started, Objects, ApplyPrefix, Buildable;
    var after := After(w, id, env, config);
    LiveStepShrinks(w, id, env, config);
    ShrinksCount(UnsettledIds(w, config), UnsettledIds(after, config), id, Unsettled(w, id, config));
    ShrinksCount(FinalizingIds(w), FinalizingIds(after), id, false);
    ShrinksCount(UndeletedIds(w), UndeletedIds(after), id, false);
    if !Unsettled(w, id, config) {
      LiveStepQuiet(w, id, env, config);
    }
  }

  /** A settled claim's reconcile raises no event: no object changes, and the status write is dropped by
      the predicate. */
  lemma LiveStepQuiet(w: World, id: ClaimId, env: Env, config: Config)
    requires Live(w, id) && Calm(env) && !Unsettled(w, id, config)
    ensures After(w, id, env, config).queue == w.queue - {id} && After(w, id, env, config).objects == w.objects
  {
    hide After, Calm, Objects, ApplyPrefix, Buildable, AllSettled;
    assert Started(w, id).queue == w.queue - {id};
    if Applies(w, id) {
      CalmBuilt(w, id, env, config);
      var s, ms := Started(w, id), ManifestsOf(w, id, config);
      assert AllSettled(s, ms) by { SettledSameObjects(w, s, ms); }
      SettledPass(s, ms, env, |ms|);
    } else {
      CalmUnbuilt(w, id, env, config);
    }
  }

  lemma SettledSameObjects(w: World, s: World, ms: seq<Manifest>)
    requires s.objects == w.objects
    ensures AllSettled(s, ms) == AllSettled(w, ms)
  {}

  lemma FinalizingStepWorks(w: World, id: ClaimId, env: Env, config: Config)
    requires Finalizing(w, id) && Calm(env)
    ensures WorkDone(w, After(w, id, env, config), id, config)
  {
    hide After, Calm, UnsettledIds, FinalizingIds, UndeletedIds, OwnsNamespace, Finalizing, NamespaceTerminating,
        Routes;
    var after := After(w, id, env, config);
    FinalizingStepShrinks(w, id, env, config);
    ShrinksCount(UnsettledIds(w, config), UnsettledIds(after, config), id, false);
    ShrinksCount(FinalizingIds(w), FinalizingIds(after), id, !OwnsNamespace(w, id));
    ShrinksCount(UndeletedIds(w), UndeletedIds(after), id, OwnsNamespace(w, id) && !NamespaceTerminating(w, id));
    CalmFinalizing(w, id, env, config);
  }

  lemma StepWorks(w: World, id: ClaimId, env: Env, config: Config)
    requires Calm(env) && NamedClaims(w) && LiveNamesDistinct(w)
    ensures WorkDone(w, After(w, id, env, config), id, config)
  {
    hide After, Calm;
    if Live(w, id) {
      LiveStepWorks(w, id, env, config);
    } else if Finalizing(w, id) {
      FinalizingStepWorks(w, id, env, config);
    } else {
      CalmGone(w, id, env, config);
      SameWork(w, After(w, id, env, config), config);
    }
  }

  lemma SameWork(w: World, after: World, config: Config)
    requires after.objects == w.objects && after.claims == w.claims
    ensures Work(after, config) == Work(w, config)
  {
    hide Buildable, Objects;
    forall id | id in w.claims ensures Unsettled(after, id, config) == Unsettled(w, id, config) {
      SettledSameObjects(w, after, ManifestsOf(w, id, config));
    }
    hide Unsettled;
    assert UnsettledIds(after, config) == UnsettledIds(w, config);
    assert FinalizingIds(after) == FinalizingIds(w);
    assert UndeletedIds(after) == UndeletedIds(w);
  }

  /** What every calm reconcile keeps: the claims the controller can be told of, and every claim's spec
      and deletion mark. */
  ghost predicate Keeps(w: World, after: World, id: ClaimId, u: set<ClaimId>) {
    && Within(after, u) && w.queue - {id} <= after.queue
    && (forall b :: b in after.claims ==>
          && b in w.claims
          && after.claims[b].spec == w.claims[b].spec && after.claims[b].deleting == w.claims[b].deleting)
    && (forall b :: Live(w, b) ==> Live(after, b))
  }

  lemma LiveStepKeeps(w: World, id: ClaimId, env: Env, config: Config, u: set<ClaimId>)
    requires Live(w, id) && Calm(env) && NamedClaims(w) && Within(w, u) && id in u
    ensures Keeps(w, After(w, id, env, config), id, u)
  {
    hide After, Calm, Routes, Started, Objects, ApplyPrefix, Buildable, ClaimForObject, Visible, PatchOf,
        DistinctKeys, Get;
    var after, spec, s := After(w, id, env, config), w.claims[id].spec, Started(w, id);
    assert Within(s, u);
    if Applies(w, id) {
      CalmBuilt(w, id, env, config);
      BuiltObjects(id, spec, config.linked);
      PatchesCarryLabels(id, spec, config.linked);
      PassEvents(s, ManifestsOf(w, id, config), env, |ManifestsOf(w, id, config)|, id, u, NamespaceKey(id));
    } else {
      CalmUnbuilt(w, id, env, config);
    }
  }

  lemma ObjectWithin(w: World, after: World, key: Key, o: Object, u: set<ClaimId>)
    requires Within(w, u) && after.objects == w.objects[key := o] && Routes(Some(o)) <= u
    ensures forall k :: Routes(Get(after.objects, k)) <= u
  {
    hide Routes;
    forall k ensures Routes(Get(after.objects, k)) <= u {
      assert Routes(Get(w.objects, k)) <= u;
    }
  }

  lemma SameObjectsWithin(w: World, after: World, u: set<ClaimId>)
    requires Within(w, u) && after.objects == w.objects
    ensures forall k :: Routes(Get(after.objects, k)) <= u
  {
    hide Routes;
  }

  lemma FinalizingStepKeeps(w: World, id: ClaimId, env: Env, config: Config, u: set<ClaimId>)
    requires Finalizing(w, id) && Calm(env) && Within(w, u) && id in u
    ensures Keeps(w, After(w, id, env, config), id, u)
  {
    hide After, Calm, Routes, BelongsTo, Visible;
    CalmFinalizing(w, id, env, config);
    var after := After(w, id, env, config);
    if OwnsNamespace(w, id) && !NamespaceTerminating(w, id) {
      var ns := w.objects[NamespaceKey(id)];
      assert Routes(Get(w.objects, NamespaceKey(id))) <= u;
      RoutesOfFields(ns, true);
      ObjectWithin(w, after, NamespaceKey(id), ns.(terminating := true), u);
    } else {
      SameObjectsWithin(w, after, u);
    }
    hide Get, OwnsNamespace, NamespaceTerminating;
  }

  lemma StepKeeps(w: World, id: ClaimId, env: Env, config: Config, u: set<ClaimId>)
    requires Calm(env) && NamedClaims(w) && Within(w, u) && id in u
    ensures var after := After(w, id, env, config);
            && Keeps(w, after, id, u) && NamedClaims(after)
            && (LiveNamesDistinct(w) ==> LiveNamesDistinct(after))
  {
    hide After, Calm, Routes, Buildable;
    if Live(w, id) {
      LiveStepKeeps(w, id, env, config, u);
    } else if Finalizing(w, id) {
      FinalizingStepKeeps(w, id, env, config, u);
    } else {
      CalmGone(w, id, env, config);
    }
  }

  // ----- Who has a namespace -----

  lemma OwnerIsMine(fields: Fields, id: ClaimId)
    requires id.name != "" && id.namespace != ""
    ensures BelongsTo(fields, id) <==> ClaimForObject(fields) == Some(id)
  {}

  /** The claim a namespace is labelled as belonging to is the one its events go to. */
  lemma OwnerRoutes(w: World, b: ClaimId)
    requires OwnsNamespace(w, b) && b.name != "" && b.namespace != ""
    ensures Routes(Get(w.objects, NamespaceKey(b))) == {b}
  {}

  /** The namespace is the first object applied. */
  lemma NamespaceApplied(w: World, id: ClaimId, env: Env, config: Config)
    requires Proceeds(w, id, env) && Applies(w, id) && NamedClaims(w) && Effects(w, id, env, config) > 0
    ensures var o, after := Get(w.objects, NamespaceKey(id)), Get(After(w, id, env, config).objects, NamespaceKey(id));
            && after.Some? && Visible(after.value.fields) && ClaimForObject(after.value.fields) == Some(id)
            && after.value.terminating == (o.Some? && o.value.terminating)
  {
    hide After, Started, Objects, ApplyPrefix, Buildable, DistinctKeys, PatchOf, Corrections, InSync, DriftEvents,
        StatusWritten, TurnAt;
    var spec, s, ms := w.claims[id].spec, Started(w, id), ManifestsOf(w, id, config);
    BuiltShape(w, id, env, config);
    BuiltObjects(id, spec, config.linked);
    PatchesCarryLabels(id, spec, config.linked);
    PassExact(s, ms, env, Effects(w, id, env, config), NamespaceKey(id));
    assert ms[0] == BuildNamespace(id, spec) && ms[0] in ms;
    AppliedRoutes(Get(s.objects, ms[0].key), PatchOf(ms[0].content), TurnAt(env, 0).now, id);
    hide Visible, ClaimForObject;
  }

  // ----- Whole schedules -----

  /** A timer puts its claim back in the queue; a claim the queue holds is reconciled. */
  datatype Tick = Fires(id: ClaimId) | Reconciles(id: ClaimId, env: Env)

  function Ticked(w: World, t: Tick, config: Config): World {
    match t
    case Fires(id) => w.(queue := w.queue + {id}, timers := w.timers - {id})
    case Reconciles(id, env) => After(w, id, env, config)
  }

  predicate Possible(w: World, t: Tick) {
    match t
    case Fires(id) => id in w.timers
    case Reconciles(id, env) => id in w.queue && Calm(env)
  }

  /** A run of calm reconciles, each of some claim the queue holds at that time, in any order, with timers
      firing at any time in between. */
  ghost predicate Schedule(w: World, ticks: seq<Tick>, config: Config)
    decreases |ticks|
  {
    ticks == [] || (Possible(w, ticks[0]) && Schedule(Ticked(w, ticks[0], config), ticks[1..], config))
  }

  function Ends(w: World, ticks: seq<Tick>, config: Config): World
    decreases |ticks|
  {
    if ticks == [] then w else Ends(Ticked(w, ticks[0], config), ticks[1..], config)
  }

  function Firings(ticks: seq<Tick>): nat {
    if ticks == [] then 0 else (if ticks[0].Fires? then 1 else 0) + Firings(ticks[1..])
  }

  function Reconciliations(ticks: seq<Tick>): nat {
    if ticks == [] then 0 else (if ticks[0].Reconciles? then 1 else 0) + Reconciliations(ticks[1..])
  }

  lemma MeasureDrops(w: World, id: ClaimId, env: Env, config: Config, u: set<ClaimId>)
    requires id in w.queue && Calm(env) && NamedClaims(w) && LiveNamesDistinct(w) && Within(w, u)
    ensures Measure(After(w, id, env, config), u, config) < Measure(w, u, config)
  {
    hide After, Calm, Work, NamedClaims, LiveNamesDistinct, Routes;
    StepWorks(w, id, env, config);
    StepKeeps(w, id, env, config, u);
    var after := After(w, id, env, config);
    ShrinksCount(u, after.queue, id, false);
    if Work(after, config) < Work(w, config) {
      LessWork(Work(after, config), Work(w, config), |u| + 1, |after.queue|);
    } else {
      ShrinksCount(w.queue, after.queue, id, true);
    }
  }

  lemma LessWork(less: nat, more: nat, unit: nat, queued: nat)
    requires less < more && queued < unit
    ensures less * unit + queued < more * unit
  {
    assert (less + 1) * unit <= more * unit;
  }

  /** A timer that fires adds one to the measure, and touches nothing else it is made of. */
  lemma FiringKeeps(w: World, id: ClaimId, config: Config, u: set<ClaimId>)
    requires id in w.timers && Within(w, u)
    ensures var after := Ticked(w, Fires(id), config);
            && Within(after, u) && Measure(after, u, config) <= Measure(w, u, config) + 1
            && (NamedClaims(w) ==> NamedClaims(after)) && (LiveNamesDistinct(w) ==> LiveNamesDistinct(after))
  {
    hide Routes, Buildable, Work;
    var after := Ticked(w, Fires(id), config);
    SameWork(w, after, config);
    assert |w.queue + {id}| <= |w.queue| + 1 by { ShrinksCount(w.queue + {id}, w.queue, id, false); AddedOne(w.queue,
        id); }
  }

  lemma AddedOne(s: set<ClaimId>, id: ClaimId)
    ensures |s + {id}| <= |s| + 1
  {
    if id in s {
      assert s + {id} == s;
    }
  }

  lemma TickKeeps(w: World, t: Tick, config: Config, u: set<ClaimId>)
    requires Possible(w, t) && NamedClaims(w) && Within(w, u)
    ensures var after := Ticked(w, t, config);
            && NamedClaims(after) && Within(after, u) && (LiveNamesDistinct(w) ==> LiveNamesDistinct(after))
  {
    hide After, Calm, NamedClaims, LiveNamesDistinct, Routes;
    match t {
      case Fires(id) => FiringKeeps(w, id, config, u);
      case Reconciles(id, env) => StepKeeps(w, id, env, config, u);
    }
  }

  /** The queue drains: when live claims' names are distinct, no schedule holds more reconciles than the
      measure of the world it starts from, and one for each timer that fires on the way. */
  lemma {:induction false} Drains(w: World, ticks: seq<Tick>, config: Config, u: set<ClaimId>)
    requires Schedule(w, ticks, config) && NamedClaims(w) && LiveNamesDistinct(w) && Within(w, u)
    ensures Reconciliations(ticks) <= Measure(w, u, config) + Firings(ticks)
    decreases |ticks|
  {
    hide After, Calm, Measure, Routes, LiveNamesDistinct, NamedClaims;
    if ticks != [] {
      TickKeeps(w, ticks[0], config, u);
      match ticks[0] {
        case Fires(id) => FiringKeeps(w, id, config, u);
        case Reconciles(id, env) => MeasureDrops(w, id, env, config, u);
      }
      Drains(Ticked(w, ticks[0], config), ticks[1..], config, u);
    }
  }
}
