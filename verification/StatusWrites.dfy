/** What the status a reconcile writes says: that everything is in sync, that the claim is ready, that
    deploys are frozen. */
module StatusWrites {
  import opened Builders
  import opened Conditions
  import opened Outcomes
  import opened Passes
  import opened Readiness
  import opened Reconciles
  import opened ServerSideApply
  import opened SloStatus
  import opened World
  import opened Budget
  import opened Spending
  import Alerts
  import Drift
  import FreezeProtocol
  import Numbers
  import PromQL

  lemma KindsDiffer()
    ensures RESOURCES_SYNCED != SLO_HEALTHY && RESOURCES_SYNCED != DEPLOYS_FROZEN && RESOURCES_SYNCED != STORAGE_READY
    ensures RESOURCES_SYNCED != READY && SLO_HEALTHY != DEPLOYS_FROZEN && SLO_HEALTHY != STORAGE_READY
        && SLO_HEALTHY != READY
    ensures DEPLOYS_FROZEN != STORAGE_READY && DEPLOYS_FROZEN != READY && STORAGE_READY != READY
  {}

  /** Of a list of updates ending in the conditions of other kinds, the one of this kind is found. */
  lemma LatestSkips(cs: seq<Condition>, updates: seq<Condition>, c: Condition, kind: string)
    ensures Latest(cs, updates + [c], kind) == if c.kind == kind then Some(c) else Latest(cs, updates, kind)
  {}

  /** Merging the five conditions of a reconcile: each is found afterwards. */
  lemma FiveFound(cs: seq<Condition>, synced: Condition, slo: Condition, frozen: Condition,
      storage: Option<Condition>, ready: Condition)
    requires synced.kind == RESOURCES_SYNCED && slo.kind == SLO_HEALTHY && frozen.kind == DEPLOYS_FROZEN
        && ready.kind == READY
    requires storage.Some? ==> storage.value.kind == STORAGE_READY
    ensures var updates := [synced, slo, frozen] + (if storage.Some? then [storage.value] else []) + [ready];
            var merged := UpsertAll(cs, updates);
            && Find(merged, RESOURCES_SYNCED) == Some(synced) && Find(merged, DEPLOYS_FROZEN) == Some(frozen)
            && Find(merged, READY) == Some(ready) && Find(merged, SLO_HEALTHY) == Some(slo)
            && Find(merged, STORAGE_READY) == if storage.Some? then storage else Find(cs, STORAGE_READY)
  {
    KindsDiffer();
    var first := [synced, slo, frozen];
    var most := first + if storage.Some? then [storage.value] else [];
    var updates := most + [ready];
    hide Find, UpsertAll, Latest;
    forall kind | kind in {RESOURCES_SYNCED, DEPLOYS_FROZEN, READY, SLO_HEALTHY, STORAGE_READY}
      ensures Find(UpsertAll(cs, updates), kind) ==
              if kind == READY then Some(ready)
              else if kind == STORAGE_READY && storage.Some? then storage
              else if kind == DEPLOYS_FROZEN then Some(frozen)
              else if kind == SLO_HEALTHY then Some(slo)
              else if kind == RESOURCES_SYNCED then Some(synced)
              else Find(cs, kind)
    {
      FindUpsertAll(cs, updates, kind);
      LatestSkips(cs, most, ready, kind);
      if storage.Some? {
        LatestSkips(cs, first, storage.value, kind);
      } else {
        assert most == first;
      }
      LatestOfThree(cs, synced, slo, frozen, kind);
    }
  }

  lemma LatestOfThree(cs: seq<Condition>, a: Condition, b: Condition, c: Condition, kind: string)
    ensures Latest(cs, [a, b, c], kind) ==
            if c.kind == kind then Some(c) else if b.kind == kind then Some(b) else if a.kind == kind then Some(a)
                else Find(cs, kind)
  {
    LatestSkips(cs, [], a, kind);
    LatestSkips(cs, [a], b, kind);
    LatestSkips(cs, [a, b], c, kind);
    assert [a] + [b] == [a, b] && [a, b] + [c] == [a, b, c] && [] + [a] == [a];
  }

  /** The storage a claim asked for is there: the cluster is linked to AWS, and every object ACK makes of
      it exists, could be read, is not failed for good, and is in sync. */
  predicate StorageThere(claim: Claim, env: Env, config: Config) {
    claim.spec.storage ==> config.linked && Provisioned(env.role) && Provisioned(env.bucket)
  }

  /** The Rollout, read past the cache, is healthy, and what its controller observed is the generation it
      has. */
  ghost predicate RolloutUpToDate(rollout: RolloutRead) {
    rollout.Rollout? && rollout.phase == PHASE_HEALTHY && rollout.observedGeneration == Numbers.Itoa(rollout.generation)
  }

  lemma StorageTold(claim: Claim, env: Env, config: Config)
    ensures var storage := StorageConditionOf(claim, env, config);
            && (storage.Some? ==> storage.value.kind == STORAGE_READY)
            && ((storage.Some? ==> storage.value.status == True) <==> StorageThere(claim, env, config))
            && (storage.Some? <==> claim.spec.storage)
            && (storage.Some? ==> storage.value.observedGeneration == claim.generation)
            && (storage.Some? && !config.linked ==> storage.value.reason == STORAGE_UNAVAILABLE)
  {
    StorageMeaning(StorageReads(env));
    assert StorageReads(env)[0] == env.role && StorageReads(env)[1] == env.bucket;
    hide StorageVerdict, Provisioned;
  }

  lemma ReadyTold(claim: Claim, synced: Condition, env: Env, config: Config)
    ensures ReadyCondition(claim.generation, synced, StorageConditionOf(claim, env, config),
        env.rollout).status == True <==>
              synced.status == True && StorageThere(claim, env, config) && RolloutUpToDate(env.rollout)
  {
    StorageTold(claim, env, config);
    hide StorageThere, StorageConditionOf, Numbers.Itoa;
  }

  /** The conditions a reconcile that applied its objects, or failed to, leaves on the claim: synced
      exactly when every object was applied; ready exactly when, besides, the storage asked for is
      there and the Rollout is up to date; healthy as this reconcile's report says, and the freeze as decided
      on it. Storage nobody asks for any more keeps the condition it had. */
  lemma StatusConditions(id: ClaimId, claim: Claim, env: Env, config: Config)
    ensures var cs := StatusWritten(id, claim, env, config).conditions;
            && (IsTrue(cs, RESOURCES_SYNCED) <==> AllApplied(id, claim, env, config))
            && Find(cs, RESOURCES_SYNCED).Some?
                && Find(cs, RESOURCES_SYNCED).value.observedGeneration == claim.generation
            && var report := Evaluate(InputsOf(id, claim, env));
            && Find(cs, SLO_HEALTHY) == Some(Condition(SLO_HEALTHY, report.status, report.reason, claim.generation))
            && (IsTrue(cs, READY) <==>
                  AllApplied(id, claim, env, config) && StorageThere(claim, env, config)
                      && RolloutUpToDate(env.rollout))
            && Find(cs, DEPLOYS_FROZEN) == Some(FreezeCondition(claim.generation, claim.conditions, report))
            && (!claim.spec.storage ==> Find(cs, STORAGE_READY) == Find(claim.conditions, STORAGE_READY))
            && (claim.spec.storage ==>
                  && Find(cs, STORAGE_READY).Some? && (IsTrue(cs, STORAGE_READY) <==> StorageThere(claim, env, config))
                  && Find(cs, STORAGE_READY).value.observedGeneration == claim.generation
                  && (!config.linked ==> Find(cs, STORAGE_READY).value.reason == STORAGE_UNAVAILABLE))
  {
    hide Objects, Reach, Evaluate, InputsOf, Find, StatusWritten, ReadyCondition, StorageConditionOf, StorageThere,
        RolloutUpToDate, FreezeCondition;
    var wanted := |Objects(id, claim.spec, config.linked)|;
    StatusFound(id, claim, env, config);
    StorageTold(claim, env, config);
    ReadyTold(claim, SyncedCondition(claim, Reach(env, wanted), wanted), env, config);
  }

  /** Each of the conditions such a reconcile makes is found in the status it writes. */
  lemma StatusFound(id: ClaimId, claim: Claim, env: Env, config: Config)
    ensures var cs := StatusWritten(id, claim, env, config).conditions;
            var wanted, report := |Objects(id, claim.spec, config.linked)|, Evaluate(InputsOf(id, claim, env));
            var synced := SyncedCondition(claim, Reach(env, wanted), wanted);
            var storage := StorageConditionOf(claim, env, config);
            && Find(cs, RESOURCES_SYNCED) == Some(synced) && Find(cs, SLO_HEALTHY) == Some(SloCondition(claim, report))
            && Find(cs, DEPLOYS_FROZEN) == Some(FreezeCondition(claim.generation, claim.conditions, report))
            && Find(cs, STORAGE_READY) == (if storage.Some? then storage else Find(claim.conditions, STORAGE_READY))
            && Find(cs, READY) == Some(ReadyCondition(claim.generation, synced, storage, env.rollout))
  {
    hide Objects, Reach, Evaluate, InputsOf, Find, UpsertAll, ReadyCondition, StorageConditionOf, StorageThere,
        FreezeCondition;
    var wanted := |Objects(id, claim.spec, config.linked)|;
    var synced := SyncedCondition(claim, Reach(env, wanted), wanted);
    var report := Evaluate(InputsOf(id, claim, env));
    var storage := StorageConditionOf(claim, env, config);
    StorageTold(claim, env, config);
    FiveFound(claim.conditions, synced, SloCondition(claim, report),
        FreezeCondition(claim.generation, claim.conditions, report), storage,
        ReadyCondition(claim.generation, synced, storage, env.rollout));
  }

  /** The conditions written for a spec that cannot be built. */
  lemma InvalidStatusConditions(claim: Claim, now: nat)
    ensures var report := Fails(Unknown, INVALID_SPEC);
            var cs := InvalidWritten(claim, now).conditions;
            && !IsTrue(cs, READY)
            && Find(cs, RESOURCES_SYNCED)
                == Some(Condition(RESOURCES_SYNCED, False, INVALID_SPEC, claim.generation))
            && Find(cs, SLO_HEALTHY) == Some(Condition(SLO_HEALTHY, Unknown, INVALID_SPEC, claim.generation))
            && Find(cs, DEPLOYS_FROZEN) == Some(FreezeCondition(claim.generation, claim.conditions, report))
  {
    var invalid := Condition(RESOURCES_SYNCED, False, INVALID_SPEC, claim.generation);
    var report := Fails(Unknown, INVALID_SPEC);
    var frozen := FreezeCondition(claim.generation, claim.conditions, report);
    var ready := ReadyCondition(claim.generation, invalid, None, RolloutNotFound);
    hide Find, UpsertAll, FreezeCondition;
    FiveFound(claim.conditions, invalid, SloCondition(claim, report), frozen, None, ready);
    assert InvalidConditions(claim) == [invalid, SloCondition(claim, report), frozen] + [] + [ready];
  }

  // ----- On whole reconciles -----

  /** The report a reconcile of this claim makes. */
  function ReportOf(w: World, id: ClaimId, env: Env): SloReport
    requires id in w.claims
  {
    var held := Held(w, id);
    if Buildable(id, held.spec) then Evaluate(InputsOf(id, held, env)) else Fails(Unknown, INVALID_SPEC)
  }

  /** The one stored freeze bit, one reconcile later: whatever else the reconcile does, a report that
      found the budget exhausted sets it, one that found 5% back clears it, and any other keeps it. */
  lemma FreezeWritten(w: World, id: ClaimId, env: Env, config: Config)
    requires Proceeds(w, id, env)
    ensures var after := After(w, id, env, config);
            && id in after.claims
            && (Frozen(after.claims[id].conditions) <==>
                  if env.statusFails then Frozen(w.claims[id].conditions)
                  else Exhausted(ReportOf(w, id,
                      env)) || (Frozen(w.claims[id].conditions) && !Recovered(ReportOf(w, id, env))))
  {
    var held := Held(w, id);
    if Buildable(id, held.spec) {
      BuiltShape(w, id, env, config);
      StatusConditions(id, held, env, config);
    } else {
      InvalidShape(w, id, env, config);
      InvalidStatusConditions(held, env.now);
    }
    FreezeDecides(held.generation, held.conditions, ReportOf(w, id, env));
    hide After, StatusWritten, WithStatus, Buildable, Evaluate, InputsOf, Find, Exhausted, Recovered,
        FreezeCondition, Started;
  }

  lemma FreezeDecides(generation: int, stored: seq<Condition>, report: SloReport)
    ensures FreezeCondition(generation, stored, report).status == True <==>
        Exhausted(report) || (Frozen(stored) && !Recovered(report))
  {}

  /** Ready and ResourcesSynced are never True by mistake. Once a reconcile has written its status, Ready
      is True exactly when the spec can be built, every object was applied in this reconcile, the
      storage asked for is there and the Rollout is healthy at its own generation; and then every
      object is stored as desired. */
  lemma ReadyWritten(w: World, id: ClaimId, env: Env, config: Config)
    requires Proceeds(w, id, env) && !env.statusFails && id.name != "" && id.namespace != ""
    ensures var after, held := After(w, id, env, config), Held(w, id);
            && id in after.claims
            && (IsTrue(after.claims[id].conditions, READY) <==>
                  && Buildable(id, held.spec) && AllApplied(id, held, env, config)
                  && StorageThere(held, env, config) && RolloutUpToDate(env.rollout))
            && var synced := Find(after.claims[id].conditions, RESOURCES_SYNCED);
            && synced.Some? && synced.value.observedGeneration == after.claims[id].generation == held.generation
            && (synced.value.status == True <==> Buildable(id, held.spec) && AllApplied(id, held, env, config))
            && (synced.value.status == True ==> AllSettled(after, ManifestsOf(w, id, config)))
  {
    var held := Held(w, id);
    if Buildable(id, held.spec) {
      BuiltShape(w, id, env, config);
      StatusConditions(id, held, env, config);
      BuiltObjects(id, held.spec, config.linked);
      hide Objects, DistinctKeys, ApplyPrefix, After, StatusWritten, Buildable, StorageThere, RolloutUpToDate, Started;
      PassSettles(Started(w, id), ManifestsOf(w, id, config), env);
      assert StatusWritten(id, held, env, config).generation == held.generation;
    } else {
      InvalidShape(w, id, env, config);
      InvalidStatusConditions(held, env.now);
      hide InvalidConditions, After, Buildable, StorageThere, RolloutUpToDate, Started, Objects;
    }
  }

  lemma QueryBuilds(id: ClaimId, spec: Spec)
    requires Buildable(id, spec)
    ensures ErrorBudget(spec.objective).Ok?
    ensures PromQL.ErrorRatioExpr(spec.sli, NamespaceName(id), spec.window).Some?
  {
    hide ErrorBudget, Alerts.SloWindow, NamespaceName;
  }

  /** Health in the stored status, in exact arithmetic, from what Prometheus answered to the number in the
      first alert's text. */
  lemma HealthWritten(w: World, id: ClaimId, env: Env, config: Config, window: real)
    requires Proceeds(w, id, env) && !env.statusFails && Buildable(id, w.claims[id].spec)
    requires env.rnd == Exactly && env.prometheus.Some? && !env.prometheus.value.hour.QueryFailed?
    requires env.prometheus.value.window == Sample(Finite(window))
    ensures var after, hour := After(w, id, env, config), env.prometheus.value.hour;
            && id in after.claims && ErrorBudget(w.claims[id].spec.objective).Ok?
            && var budget := ErrorBudget(w.claims[id].spec.objective).value;
            && budget.den > 0 && PlainDecimal(Alerts.BURN_RATE_ALERTS[0].burnRate)
            && var threshold := Threshold(Alerts.BURN_RATE_ALERTS[0].burnRate, budget);
            && PlainDecimal(threshold) && SetString(threshold).den > 0
            && var healthy := Find(after.claims[id].conditions, SLO_HEALTHY);
               var unusable := hour.Sample? && !hour.value.Finite?;
               var gone := Max(window, 0.0) >= Value(budget);
               var fast := hour.Sample? && hour.value.Finite?
                   && Max(hour.value.value, 0.0) >= Value(SetString(threshold));
            && healthy.Some? && healthy.value.observedGeneration == w.claims[id].generation
            && (healthy.value.status == Unknown <==> unusable)
            && (healthy.value.status == False <==> !unusable && (gone || fast))
  {
    hide After, StatusWritten, Buildable, Evaluate, Find, AllApplied, StorageThere, RolloutUpToDate, Threshold,
        SetString, PlainDecimal, ErrorBudget, Value, Max, AtMost, FreezeCondition, NamespaceName;
    var held := Held(w, id);
    BuiltShape(w, id, env, config);
    StatusConditions(id, held, env, config);
    QueryBuilds(id, held.spec);
    assert InputsOf(id, held, env) == SloInputs(
        Some(Prometheus(Sample(Finite(window)), env.prometheus.value.hour)), held.spec.objective, true, Exactly);
    MeasuredExactly(held.spec.objective, window, env.prometheus.value.hour);
    HealthExactly(held.spec.objective, window, env.prometheus.value.hour);
    Alerts.HealthFollowsTheAlert(held.spec.objective, window, env.prometheus.value.hour);
  }

  /** The other fields of the status a reconcile writes: how many objects were applied before a request
      failed, the claim's generation and the time; a budget exactly when it was measured, and a burn rate
      exactly when the hour was too; and where the storage is, when there is any. */
  lemma FieldsWritten(w: World, id: ClaimId, env: Env, config: Config)
    requires Proceeds(w, id, env) && !env.statusFails
    ensures var after, spec := After(w, id, env, config), w.claims[id].spec;
            && id in after.claims
            && var status, managed := after.claims[id].status, after.claims[id].status.managed;
            && status.observedGeneration == w.claims[id].generation && status.reconciledAt == env.now
            && (if !Buildable(id, spec) then
                  managed == 0 && !status.budgetShown && !status.burnRateShown && status.storage == None
                else
                  && managed <= |ManifestsOf(w, id, config)|
                  && (forall i :: 0 <= i < managed ==> TurnAt(env, i).fault == NoFault)
                  && (managed < |ManifestsOf(w, id, config)| ==> TurnAt(env, managed).fault != NoFault)
                  && status.storage == (if spec.storage && config.linked then Some(config.storageOf(id)) else None)
                  && var p := env.prometheus;
                  && (status.budgetShown <==>
                        && p.Some? && p.value.window.Sample? && p.value.window.value.Finite?
                        && !p.value.hour.QueryFailed?)
                  && (status.burnRateShown <==>
                        status.budgetShown && p.value.hour.Sample? && p.value.hour.value.Finite?))
  {
    var held := Held(w, id);
    if Buildable(id, held.spec) {
      BuiltShape(w, id, env, config);
      QueryBuilds(id, held.spec);
      FailsOpen(InputsOf(id, held, env));
    } else {
      InvalidShape(w, id, env, config);
    }
    hide After, Buildable, Started, Objects, Evaluate, ErrorBudget, UpsertAll, ConditionsOf, InvalidConditions,
        NamespaceName, PromQL.ErrorRatioExpr, TurnAt, Reach, AtMost;
  }

  /** From one reconcile to the next. A reconcile that applied everything and wrote its status, then any
      edits by other parties, and perhaps a restart of the operator with other settings, then another
      reconcile: that one records exactly the objects the edits disturbed, as far as its applies get,
      and of the objects that are new, or newly made up, with those settings, the ones that are missing
      or whose entry the apply changes. */
  lemma DriftBetweenReconciles(
      w: World, id: ClaimId, first: Env, edits: seq<(Key, Timed)>, second: Env, config: Config, restarted: Config)
    requires restarted.hasReader && restarted.hasRecorder && id.name != "" && id.namespace != ""
    requires Proceeds(w, id, first) && Buildable(id, w.claims[id].spec)
    requires AllApplied(id, Held(w, id), first, config) && !first.statusFails && !second.claimReadFails
    requires var w1 := After(w, id, first, config);
             forall m :: m in ManifestsOf(w, id, config) ==> AllForeign(Get(w1.objects, m.key), EditsTo(edits, m.key))
    ensures var w1 := After(w, id, first, config);
            var w2 := w1.(objects := EditObjects(w1.objects, edits));
            var known, ms := ManifestsOf(w, id, config), ManifestsOf(w, id, restarted);
            After(w2, id, second, restarted).drift
            == w1.drift + DriftEvents(id, Disturbances(w1.objects, edits, known, ms, second, Reach(second, |ms|)))
  {
    hide After, Buildable, Objects, ApplyPrefix, Corrections, AllForeign, EditObjects, EditsTo, Disturbances,
        DriftEvents,
         Find, AllApplied, Reach, StorageThere, RolloutUpToDate, Started, StatusWritten, PatchOf, Settled;
    var w1 := After(w, id, first, config);
    var w2 := w1.(objects := EditObjects(w1.objects, edits));
    AfterFullReconcile(w, id, first, config);
    var known := ManifestsOf(w, id, config);
    assert ManifestsOf(w2, id, restarted) == ManifestsOf(w, id, restarted);
    assert SettledThenEdited(w1.objects, edits, known) by {
      forall m | m in known ensures Drift.IsSettled(Get(w1.objects, m.key), PatchOf(m.content)) {}
    }
    DriftReportedExactly(w1.objects, edits, known, w2, id, second, restarted);
  }

  /** A reconcile that applied everything and wrote its status leaves the claim live, held, in sync and
      settled. */
  lemma AfterFullReconcile(w: World, id: ClaimId, env: Env, config: Config)
    requires Proceeds(w, id, env) && Buildable(id, w.claims[id].spec) && id.name != "" && id.namespace != ""
    requires AllApplied(id, Held(w, id), env, config) && !env.statusFails
    ensures var after := After(w, id, env, config);
            && id in after.claims && after.claims[id].spec == w.claims[id].spec && !after.claims[id].deleting
            && after.claims[id].finalizer && AllSettled(after, ManifestsOf(w, id, config))
            && var synced := Find(after.claims[id].conditions, RESOURCES_SYNCED);
               synced.Some? && synced.value.status == True
                   && synced.value.observedGeneration == after.claims[id].generation
  {
    hide After, Buildable, Objects, ApplyPrefix, Corrections, Find, InSync, DriftEvents, AllApplied, Reach,
         StorageThere, RolloutUpToDate, Started, StatusWritten, PatchOf, Settled;
    ReadyWritten(w, id, env, config);
    BuiltShape(w, id, env, config);
    StatusKeepsClaim(id, Held(w, id), env, config);
    assert After(w, id, env, config).claims[id] == StatusWritten(id, Held(w, id), env, config);
  }

  lemma RoleIsThird(id: ClaimId, spec: Spec)
    requires spec.storage
    ensures |Objects(id, spec, true)| > 2 && Objects(id, spec, true)[2].key == KeyOf(id, Role, "")
  {
    hide Core, Trailing, HasCanaryAnalysis, Labels, Payload;
  }

  /** Linking a running operator to AWS counts as drift: of a claim with storage that was in sync before, the
      next reconcile records the Role as recreated, though it never was there. */
  lemma NewStorageIsRecordedAsRecreated(
      w: World, id: ClaimId, first: Env, second: Env, config: Config, restarted: Config)
    requires restarted.hasReader && restarted.hasRecorder && id.name != "" && id.namespace != ""
    requires Proceeds(w, id, first) && Buildable(id, w.claims[id].spec) && w.claims[id].spec.storage
    requires !config.linked && restarted.linked
    requires AllApplied(id, Held(w, id), first, config) && !first.statusFails && !second.claimReadFails
    requires Get(w.objects, KeyOf(id, Role, "")).None? && Reach(second, |ManifestsOf(w, id, restarted)|) > 2
    ensures var w1 := After(w, id, first, config);
            var after := After(w1, id, second, restarted);
            |w1.drift| <= |after.drift| && (id, Correction(KeyOf(id, Role, ""), true)) in after.drift[|w1.drift|..]
  {
    hide After, Buildable, Objects, Find, AllApplied, Reach, KeyOf;
    var w1 := After(w, id, first, config);
    AfterFullReconcile(w, id, first, config);
    RoleIsThird(id, w.claims[id].spec);
    RoleStaysMissing(w, id, first, config);
    assert ManifestsOf(w1, id, restarted) == ManifestsOf(w, id, restarted);
    MissingIsRecorded(w1, id, second, restarted, 2);
  }

  lemma RoleStaysMissing(w: World, id: ClaimId, env: Env, config: Config)
    requires Proceeds(w, id, env) && Buildable(id, w.claims[id].spec) && id.name != "" && id.namespace != ""
        && !config.linked
    ensures Get(After(w, id, env, config).objects, KeyOf(id, Role, "")) == Get(w.objects, KeyOf(id, Role, ""))
  {
    hide After, Buildable, Objects, ApplyPrefix, Corrections, Landed, Started, StatusWritten, PatchOf, Get, InSync,
        DriftEvents;
    var k, ms, l := KeyOf(id, Role, ""), ManifestsOf(w, id, config), Effects(w, id, env, config);
    BuiltShape(w, id, env, config);
    BuiltObjects(id, w.claims[id].spec, config.linked);
    NoRoleUnlinked(id, w.claims[id].spec);
    assert !AmongFirst(ms, l, k);
    PassExact(Started(w, id), ms, env, l, k);
  }

  lemma NoRoleUnlinked(id: ClaimId, spec: Spec)
    requires id.name != "" && id.namespace != ""
    ensures forall m :: m in Objects(id, spec, false) ==> m.key.kind != Role
  {
    BuiltObjects(id, spec, false);
    hide Objects;
    forall m | m in Objects(id, spec, false) ensures m.key.kind != Role {
      assert WellPlaced(m, id, false);
    }
  }

  // ----- The freeze protocol -----

  /** The conditions a reconcile writes before and after the freeze. */
  function Around(w: World, id: ClaimId, env: Env, config: Config): (seq<Condition>, seq<Condition>)
    requires id in w.claims
  {
    var claim, report := Held(w, id), ReportOf(w, id, env);
    if Buildable(id, claim.spec) then
      var wanted := |Objects(id, claim.spec, config.linked)|;
      var synced, storage := SyncedCondition(claim, Reach(env, wanted), wanted), StorageConditionOf(claim, env, config);
      ([synced, SloCondition(claim, report)],
       (if storage.Some? then [storage.value]
           else []) + [ReadyCondition(claim.generation, synced, storage, env.rollout)])
    else
      var invalid := Condition(RESOURCES_SYNCED, False, INVALID_SPEC, claim.generation);
      ([invalid, SloCondition(claim, report)], [ReadyCondition(claim.generation, invalid, None, RolloutNotFound)])
  }

  lemma AroundIsOther(w: World, id: ClaimId, env: Env, config: Config)
    requires id in w.claims
    ensures FreezeProtocol.OtherKinds(Around(w, id, env, config).0)
        && FreezeProtocol.OtherKinds(Around(w, id, env, config).1)
  {
    hide Objects, Reach, Buildable, ReportOf, StorageVerdict, Held;
    KindsDiffer();
  }

  /** What a reconcile leaves in the claim's conditions, in one list of updates. */
  lemma ConditionsWritten(w: World, id: ClaimId, env: Env, config: Config)
    requires Proceeds(w, id, env)
    ensures var after, claim, around := After(w, id, env, config), w.claims[id], Around(w, id, env, config);
            var freeze := FreezeCondition(claim.generation, claim.conditions, ReportOf(w, id, env));
            && id in after.claims
            && after.claims[id].conditions ==
               if env.statusFails then claim.conditions
               else UpsertAll(claim.conditions, around.0 + [freeze] + around.1)
  {
    hide After, Objects, Reach, Buildable, Started, Evaluate, InputsOf, FreezeCondition, ReadyCondition,
        StorageConditionOf, UpsertAll;
    var held, around, report := Held(w, id), Around(w, id, env, config), ReportOf(w, id, env);
    var freeze := FreezeCondition(held.generation, held.conditions, report);
    if Buildable(id, held.spec) {
      BuiltShape(w, id, env, config);
      var wanted := |Objects(id, held.spec, config.linked)|;
      assert ConditionsOf(id, held, Reach(env, wanted), wanted, env, config) == around.0 + [freeze] + around.1;
    } else {
      InvalidShape(w, id, env, config);
      assert InvalidConditions(held) == around.0 + [freeze] + around.1;
    }
  }

  /** The freeze protocol's reconcile is this one: beginning it reads the stored conditions, and writing its
      status, with this reconcile's report, stores the conditions this reconcile stores; a reconcile
      whose status write fails abandons it. */
  lemma FreezeProtocolRefined(s: FreezeProtocol.State, w: World, id: ClaimId, env: Env, config: Config)
      returns (step: FreezeProtocol.Step)
    requires Proceeds(w, id, env) && s.stored.conditions == w.claims[id].conditions
    ensures FreezeProtocol.WellFormed(step)
    ensures if env.statusFails then step.AbandonReconcile?
            else step.WriteStatus? && step.generation == w.claims[id].generation && step.report == ReportOf(w, id, env)
    ensures var t := FreezeProtocol.Next(FreezeProtocol.Next(s, FreezeProtocol.BeginReconcile), step);
            var after := After(w, id, env, config);
            id in after.claims && t.stored.conditions == after.claims[id].conditions && t.reading.None?
  {
    hide After, Around, ReportOf, UpsertAll, FreezeCondition, FreezeProtocol.OtherKinds;
    ConditionsWritten(w, id, env, config);
    AroundIsOther(w, id, env, config);
    var around := Around(w, id, env, config);
    step := if env.statusFails then FreezeProtocol.AbandonReconcile
            else FreezeProtocol.WriteStatus(w.claims[id].generation, ReportOf(w, id, env), around.0, around.1);
  }
}
