/** ServiceClaimReconciler: the same reconcile as World describes, carried out step by step on mutable
    cluster state (internal/controller/serviceclaim_controller.go). */
module Reconciler {
  import opened Builders
  import opened Conditions
  import opened Drift
  import opened Outcomes
  import opened Readiness
  import opened ServerSideApply
  import opened SloStatus
  import opened World
  import PromQL

  /** The unstructured body of an apply request, edited in place. */
  class ApplyObject {
    var content: Fields

    constructor (built: Fields)
      ensures content == built
    {
      content := built;
    }

    method RemoveNestedField(prefix: Path)
      modifies this
      ensures content == Without(old(content), prefix)
      ensures forall f :: f in content <==> f in old(content) && !(prefix <= f)
      ensures forall f :: f in content ==> content[f] == old(content)[f]
    {
      content := map f | f in content && !(prefix <= f) :: content[f];
    }
  }

  /** toApplyObject: the request never carries the fields a typed object always serialises but no
      builder sets. */
  method ToApplyObject(built: Fields) returns (u: ApplyObject)
    ensures fresh(u) && u.content == PatchOf(built)
    ensures forall f :: f in u.content ==>
              && f in built && u.content[f] == built[f]
              && !(CREATION_TIMESTAMP <= f) && !(TEMPLATE_TIMESTAMP <= f) && !(STATUS <= f)
  {
    u := new ApplyObject(built);
    u.RemoveNestedField(CREATION_TIMESTAMP);
    u.RemoveNestedField(TEMPLATE_TIMESTAMP);
    u.RemoveNestedField(STATUS);
  }

  class Controller {
    const config: Config
    var objects: map<Key, Object>
    var claims: map<ClaimId, Claim>
    var queue: set<ClaimId>
    var timers: set<ClaimId>
    var drift: seq<(ClaimId, Correction)>

    function State(): World
      reads this
    {
      World(objects, claims, queue, timers, drift)
    }

    constructor (config: Config)
      ensures this.config == config && State() == World(map[], map[], {}, {}, [])
    {
      this.config := config;
      objects, claims, queue, timers, drift := map[], map[], {}, {}, [];
    }

    method WriteObject(key: Key, after: Option<Object>)
      modifies this`objects, this`queue
      ensures State() == StoreObject(old(State()), key, after)
    {
      var before := Get(objects, key);
      if before != after {
        queue := queue + Routes(before) + Routes(after);
        objects := Put(objects, key, after);
      }
    }

    method WriteClaim(id: ClaimId, after: Option<Claim>)
      modifies this`claims, this`queue
      ensures State() == StoreClaim(old(State()), id, after)
    {
      if !(id in claims && after.Some?) || ClaimChanged(claims[id], after.value) {
        queue := queue + {id};
      }
      claims := if after.Some? then claims[id := after.value] else claims - {id};
    }

    /** applyObjects: applies in order, stops at the first failure, and says how many were applied and
        which the applies had to put back. */
    method ApplyObjects(ms: seq<Manifest>, env: Env) returns (applied: nat, corrections: seq<Correction>, failed: bool)
      modifies this`objects, this`queue
      ensures applied <= |ms| && applied == Reach(env, |ms|) && (failed <==> applied < |ms|)
      ensures State() == ApplyPrefix(old(State()), ms, env, Landed(env, |ms|))
      ensures corrections == Corrections(old(State()), ms, env, applied, config.hasReader)
    {
      hide ApplyPatch, PatchOf, StoreObject, ControllerOwnership, SameOwnership, Reach, TurnAt, Put;
      corrections := [];
      ghost var start := State();
      for i := 0 to |ms|
        invariant State() == ApplyPrefix(start, ms, env, i)
        invariant corrections == Corrections(start, ms, env, i, config.hasReader)
        invariant forall j :: 0 <= j < i ==> TurnAt(env, j).fault == NoFault
      {
        var turn := TurnAt(env, i);
        if turn.fault.ConversionFails? || turn.fault.ReadFails? || turn.fault.ApplyFails? {
          ReachIs(env, |ms|, i);
          return i, corrections, true;
        }
        var u := ToApplyObject(ms[i].content);
        var live := Get(objects, ms[i].key);
        var after := ApplyPatch(live, u.content, turn.now);
        WriteObject(ms[i].key, Some(after));
        if turn.fault.ResponseLost? {
          ReachIs(env, |ms|, i);
          return i, corrections, true;
        }
        if config.hasReader && (live.None?
            || !SameOwnership(ControllerOwnership(live.value), ControllerOwnership(after))) {
          corrections := corrections + [Correction(ms[i].key, live.None?)];
        }
      }
      ReachIs(env, |ms|, |ms|);
      return |ms|, corrections, false;
    }

    /** reportDrift: one event for each correction. */
    method ReportDrift(id: ClaimId, corrections: seq<Correction>)
      modifies this`drift
      ensures drift == old(drift) + if config.hasRecorder then DriftEvents(id, corrections) else []
    {
      ghost var start := drift;
      for i := 0 to |corrections|
        invariant drift == start + if config.hasRecorder then DriftEvents(id, corrections[..i]) else []
      {
        if config.hasRecorder {
          assert DriftEvents(id, corrections[..i + 1]) == DriftEvents(id, corrections[..i]) + [(id, corrections[i])];
          drift := drift + [(id, corrections[i])];
        }
      }
      assert corrections[..|corrections|] == corrections;
    }

    /** applyFinalizer. Present adds the finalizer to a claim that exists; absent releases a deleted one. */
    method ApplyFinalizer(id: ClaimId, present: bool)
      requires id in claims && (present || claims[id].deleting)
      modifies this`claims, this`queue
      ensures var claim := old(claims)[id];
              State() == StoreClaim(old(State()), id, if present then Some(claim.(finalizer := true)) else LetGo(claim))
    {
      WriteClaim(id, if present then Some(claims[id].(finalizer := true)) else LetGo(claims[id]));
    }

    method ApplyStatus(id: ClaimId, claim: Claim, updates: seq<Condition>, managed: nat, report: SloReport,
                       storage: Option<StorageStatus>, now: nat)
      modifies this`claims, this`queue
      ensures State() == StoreClaim(old(State()), id, Some(WithStatus(claim, updates, managed, report, storage, now)))
    {
      var conditions := Merge(claim.conditions, updates);
      var status := ClaimStatus(managed, claim.generation, now, report.budgetShown, report.burnRateShown, storage);
      WriteClaim(id, Some(claim.(conditions := conditions, status := status)));
    }

    method FinalizeClaim(id: ClaimId, env: Env) returns (result: ReconcileResult)
      requires id in claims && claims[id].deleting
      modifies this`objects, this`claims, this`queue
      ensures (State(), result) == Finalize(old(State()), id, old(claims)[id], env)
    {
      if !claims[id].finalizer {
        return Done;
      }
      if env.namespaceReadFails {
        return Failed;
      }
      var ns := CachedNamespace(State(), id);
      if ns.None? || !BelongsTo(ns.value.fields, id) {
        if env.finalizerFails {
          return Failed;
        }
        ApplyFinalizer(id, false);
        return Done;
      }
      if !ns.value.terminating {
        if env.deleteFails {
          return Failed;
        }
        WriteObject(NamespaceKey(id), Some(ns.value.(terminating := true)));
      }
      return RequeueAfter(NAMESPACE_POLL_SECONDS);
    }

    method ReconcileObjects(id: ClaimId, claim: Claim, env: Env) returns (result: ReconcileResult)
      requires Buildable(id, claim.spec)
      modifies this
      ensures (State(), result) == ReconcileBuilt(old(State()), id, claim, env, config)
    {
      hide Buildable, Objects, ApplyPrefix, Corrections, InSync, DriftEvents, SyncedCondition, SloCondition;
      hide InputsOf, Evaluate, FreezeCondition, StorageOutcome, ReadyCondition, WithStatus, StoreClaim, Reach;
      var built := Build(id, claim.spec, config.linked);
      var ms := built.value;
      var wasInSync := InSync(claim);
      var applied, corrections, failed := ApplyObjects(ms, env);
      ghost var seen := drift;
      if wasInSync {
        ReportDrift(id, corrections);
      }
      assert drift == if wasInSync && config.hasRecorder then seen + DriftEvents(id, corrections) else seen;
      var synced := SyncedCondition(claim, applied, |ms|);
      var report := EvaluateSLO(InputsOf(id, claim, env));
      var frozen := FreezeCondition(claim.generation, claim.conditions, report);
      var storage: Option<Condition>, where: Option<StorageStatus> := None, None;
      if claim.spec.storage {
        if !config.linked {
          storage := Some(Condition(STORAGE_READY, False, STORAGE_UNAVAILABLE, claim.generation));
        } else {
          var c := StorageCondition(StorageReads(env), claim.generation);
          storage, where := Some(c), Some(config.storageOf(id));
        }
      }
      var ready := ReadyCondition(claim.generation, synced, storage, env.rollout);
      var conditions := [synced, SloCondition(claim, report), frozen];
      if storage.Some? {
        conditions := conditions + [storage.value];
      }
      conditions := conditions + [ready];
      if env.statusFails {
        return Failed;
      }
      assert conditions == ConditionsOf(id, claim, applied, |ms|, env, config);
      ApplyStatus(id, claim, conditions, applied, report, where, env.now);
      if failed || env.rollout.RolloutUnreadable? {
        return Failed;
      }
      return RequeueAfter(SLO_REFRESH_SECONDS);
    }

    /** Reconcile, with the bookkeeping of the queue around it. */
    method Reconcile(id: ClaimId, env: Env) returns (result: ReconcileResult)
      modifies this
      ensures (State(), result) == Reconciled(old(State()), id, env, config)
    {
      queue := queue - {id};
      if env.claimReadFails {
        result := Failed;
      } else if id !in claims {
        result := Done;
      } else if claims[id].deleting {
        result := FinalizeClaim(id, env);
      } else {
        result := ReconcileExisting(id, env);
      }
      match result {
        case Done =>
        case RequeueAfter(_) => timers := timers + {id};
        case Failed => queue := queue + {id};
      }
    }

    method ReconcileExisting(id: ClaimId, env: Env) returns (result: ReconcileResult)
      requires id in claims && !claims[id].deleting
      modifies this
      ensures (State(), result) == ReconcileLive(old(State()), id, old(claims)[id], env, config)
    {
      var claim := claims[id].(finalizer := true);
      if !claims[id].finalizer {
        if env.finalizerFails {
          return Failed;
        }
        ApplyFinalizer(id, true);
      }
      if !Buildable(id, claim.spec) {
        if env.statusFails {
          return Failed;
        }
        ApplyStatus(id, claim, InvalidConditions(claim), 0, Fails(Unknown, INVALID_SPEC), None, env.now);
        return Done;
      }
      result := ReconcileObjects(id, claim, env);
    }
  }

  lemma ReachIs(env: Env, n: nat, r: nat)
    requires r <= n && forall i :: 0 <= i < r ==> TurnAt(env, i).fault == NoFault
    requires r < n ==> TurnAt(env, r).fault != NoFault
    ensures Reach(env, n) == r
  {}
}
