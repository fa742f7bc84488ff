/** Where a draining queue ends: nothing is forgotten on the way, and once the queue is empty, timers alone
    never fill it again. */
module Resting {
  import opened Builders
  import opened Drift
  import opened Outcomes
  import opened Passes
  import opened Quiescence
  import opened Reconciles
  import opened ServerSideApply
  import opened World

  /** The claim waits in the queue, or a reconcile of it would raise no event and, if it must be looked at
      again, a timer is set. */
  ghost predicate Attended(w: World, b: ClaimId, config: Config) {
    || b in w.queue
    || (Idle(w, b, config) && (Applies(w, b) || Finalizing(w, b) ==> b in w.timers))
  }

  ghost predicate AllAttended(w: World, config: Config) {
    forall b :: b in w.claims ==> Attended(w, b, config)
  }

  lemma FinalizingThroughPass(w: World, id: ClaimId, env: Env, config: Config, b: ClaimId)
    requires Live(w, id) && Calm(env) && NamedClaims(w) && Finalizing(w, b) && Idle(w, b, config)
    ensures var after := After(w, id, env, config);
            b in after.queue || (Finalizing(after, b) && OwnsNamespace(after, b) && NamespaceTerminating(after, b))
  {
    hide After, Calm, Routes, Started, Objects, ApplyPrefix, Buildable, ClaimForObject, Visible, BelongsTo, PatchOf,
        DistinctKeys;
    var after, s, spec := After(w, id, env, config), Started(w, id), w.claims[id].spec;
    if Applies(w, id) {
      CalmBuilt(w, id, env, config);
      BuiltObjects(id, spec, config.linked);
      PatchesCarryLabels(id, spec, config.linked);
      UniverseHolds(s);
      assert id in Universe(s);
      PassEvents(s, ManifestsOf(w, id, config), env, |ManifestsOf(w, id, config)|, id, Universe(s), NamespaceKey(b));
      OwnerRoutes(w, b);
    } else {
      CalmUnbuilt(w, id, env, config);
    }
  }

  lemma LiveStepAttends(w: World, id: ClaimId, env: Env, config: Config, b: ClaimId)
    requires Live(w, id) && Calm(env) && NamedClaims(w) && LiveNamesDistinct(w)
    requires b in w.claims && Attended(w, b, config)
    ensures Attended(After(w, id, env, config), b, config)
  {
    hide After, Calm, Started, Objects, ApplyPrefix, Buildable, OwnsNamespace, NamespaceTerminating, Unsettled, Routes;
    var after := After(w, id, env, config);
    UniverseHolds(w);
    StepKeeps(w, id, env, config, Universe(w) + {id});
    LiveStepSettles(w, id, env, config);
    if Applies(w, id) {
      CalmBuilt(w, id, env, config);
    } else {
      CalmUnbuilt(w, id, env, config);
    }
    if b != id {
      OtherUnsettled(w, id, env, config, b);
      if Finalizing(w, b) && b !in w.queue {
        FinalizingThroughPass(w, id, env, config, b);
      }
    }
  }

  lemma FinalizingStepAttends(w: World, id: ClaimId, env: Env, config: Config, b: ClaimId)
    requires Finalizing(w, id) && Calm(env) && b in w.claims && Attended(w, b, config)
    ensures b in After(w, id, env, config).claims ==> Attended(After(w, id, env, config), b, config)
  {
    hide After, Calm, Routes, Unsettled, BelongsTo, Visible, Buildable, LabelOf;
    CalmFinalizing(w, id, env, config);
    FinalizingKeepsUnsettled(w, id, env, config, b);
    if b == id {
      FinalizingIsSettled(w, id, config);
    }
  }

  lemma FinalizingIsSettled(w: World, id: ClaimId, config: Config)
    requires Finalizing(w, id)
    ensures !Unsettled(w, id, config)
  {}

  lemma GoneStepAttends(w: World, id: ClaimId, env: Env, config: Config, b: ClaimId)
    requires !Live(w, id) && !Finalizing(w, id) && Calm(env) && b in w.claims && Attended(w, b, config)
    ensures After(w, id, env, config).claims == w.claims && Attended(After(w, id, env, config), b, config)
  {
    hide After, Calm, Buildable, Objects, OwnsNamespace;
    CalmGone(w, id, env, config);
    var after := After(w, id, env, config);
    SettledSameObjects(w, after, ManifestsOf(w, b, config));
    assert OwnsNamespace(after, b) == OwnsNamespace(w, b) by { OwnsSameObjects(w, after, b); }
  }

  lemma OwnsSameObjects(w: World, after: World, b: ClaimId)
    requires after.objects == w.objects
    ensures OwnsNamespace(after, b) == OwnsNamespace(w, b)
  {}

  lemma StepAttends(w: World, id: ClaimId, env: Env, config: Config)
    requires Calm(env) && NamedClaims(w) && LiveNamesDistinct(w) && AllAttended(w, config)
    ensures AllAttended(After(w, id, env, config), config)
  {
    hide After, Calm, Attended, Finalizing, Live, NamedClaims, LiveNamesDistinct;
    UniverseHolds(w);
    var u := Universe(w) + {id};
    assert Within(w, u);
    StepKeeps(w, id, env, config, u);
    forall b | b in After(w, id, env, config).claims ensures Attended(After(w, id, env, config), b, config) {
      if Live(w, id) {
        LiveStepAttends(w, id, env, config, b);
      } else if Finalizing(w, id) {
        FinalizingStepAttends(w, id, env, config, b);
      } else {
        GoneStepAttends(w, id, env, config, b);
      }
    }
  }

  lemma FiringAttends(w: World, id: ClaimId, config: Config)
    requires AllAttended(w, config)
    ensures AllAttended(Ticked(w, Fires(id), config), config)
  {
    hide Buildable, Objects, OwnsNamespace, AllSettled;
    var after := Ticked(w, Fires(id), config);
    forall b | b in after.claims ensures Attended(after, b, config) {
      assert Attended(w, b, config);
      SettledSameObjects(w, after, ManifestsOf(w, b, config));
      OwnsSameObjects(w, after, b);
    }
  }

  /** No claim is forgotten: along every schedule each claim is queued, or needs nothing but its timer. */
  lemma {:induction false} ScheduleAttends(w: World, ticks: seq<Tick>, config: Config)
    requires Schedule(w, ticks, config) && NamedClaims(w) && LiveNamesDistinct(w) && AllAttended(w, config)
    ensures AllAttended(Ends(w, ticks, config), config)
    decreases |ticks|
  {
    hide After, Calm, AllAttended, LiveNamesDistinct, NamedClaims;
    if ticks != [] {
      UniverseHolds(w);
      TickKeeps(w, ticks[0], config, Universe(w));
      match ticks[0] {
        case Fires(id) => FiringAttends(w, id, config);
        case Reconciles(id, env) => StepAttends(w, id, env, config);
      }
      ScheduleAttends(Ticked(w, ticks[0], config), ticks[1..], config);
    }
  }

  /** No reconcile would raise an event, and every claim still to be looked at is queued or has a timer. */
  ghost predicate Still(w: World, config: Config) {
    forall b :: b in w.claims ==> Idle(w, b, config) && (Applies(w, b) || Finalizing(w, b) ==> b in w.queue + w.timers)
  }

  /** At rest: besides, the queue is empty. */
  ghost predicate AtRest(w: World, config: Config) {
    w.queue == {} && Still(w, config)
  }

  /** From an operator start, when every claim is queued, a schedule that leaves the queue empty has brought
      the cluster to rest: live claims settled, and deleted ones waiting for a namespace already being
      deleted. */
  lemma DrainedIsAtRest(w: World, ticks: seq<Tick>, config: Config)
    requires Schedule(w, ticks, config) && NamedClaims(w) && LiveNamesDistinct(w) && w.claims.Keys <= w.queue
    requires Ends(w, ticks, config).queue == {}
    ensures AtRest(Ends(w, ticks, config), config)
  {
    ScheduleAttends(w, ticks, config);
    hide Ends, Idle, Applies, Finalizing;
  }

  /** A still world stays so, and its objects as they are, whatever its next reconcile. */
  lemma StillThroughReconcile(w: World, id: ClaimId, env: Env, config: Config)
    requires Still(w, config) && Calm(env)
    ensures var after := After(w, id, env, config);
            after.objects == w.objects && after.claims.Keys == w.claims.Keys && after.queue == w.queue - {id}
                && Still(after, config)
  {
    hide After, Calm, Buildable, Objects, OwnsNamespace, ApplyPrefix, Started;
    var after := After(w, id, env, config);
    if Live(w, id) {
      LiveStepQuiet(w, id, env, config);
      if Applies(w, id) {
        CalmBuilt(w, id, env, config);
      } else {
        CalmUnbuilt(w, id, env, config);
      }
    } else if Finalizing(w, id) {
      CalmFinalizing(w, id, env, config);
    } else {
      CalmGone(w, id, env, config);
    }
    assert after.objects == w.objects && after.queue == w.queue - {id} && w.timers <= after.timers;
    assert Applies(w, id) || Finalizing(w, id) ==> id in after.timers;
    forall b | b in after.claims
      ensures Idle(after, b, config) && (Applies(after, b) || Finalizing(after, b) ==> b in after.queue + after.timers)
    {
      IdleStays(w, after, b, config);
    }
  }

  lemma StillThroughFiring(w: World, id: ClaimId, config: Config)
    requires Still(w, config)
    ensures Still(Ticked(w, Fires(id), config), config)
  {
    hide Buildable, Objects, OwnsNamespace, Idle;
    var after := Ticked(w, Fires(id), config);
    forall b | b in after.claims
      ensures Idle(after, b, config) && (Applies(after, b) || Finalizing(after, b) ==> b in after.queue + after.timers)
    {
      IdleStays(w, after, b, config);
    }
  }

  /** At rest timers never start anything: over every schedule from a still world no object changes, and the
      only reconciles are those queued at first, and one for each timer that fires. */
  lemma {:induction false} TimersKeepRest(w: World, ticks: seq<Tick>, config: Config)
    requires Still(w, config) && Schedule(w, ticks, config)
    ensures var end := Ends(w, ticks, config);
            && Still(end, config) && end.objects == w.objects
            && Reconciliations(ticks) + |end.queue| <= |w.queue| + Firings(ticks)
    decreases |ticks|
  {
    hide After, Calm, Still;
    if ticks != [] {
      match ticks[0] {
        case Fires(id) =>
          StillThroughFiring(w, id, config);
          AddedOne(w.queue, id);
        case Reconciles(id, env) =>
          StillThroughReconcile(w, id, env, config);
          ShrinksCount(w.queue, w.queue - {id}, id, true);
      }
      TimersKeepRest(Ticked(w, ticks[0], config), ticks[1..], config);
    }
  }

  lemma IdleStays(w: World, after: World, b: ClaimId, config: Config)
    requires b in w.claims && b in after.claims && after.objects == w.objects && Idle(w, b, config)
    requires after.claims[b].spec == w.claims[b].spec && after.claims[b].deleting == w.claims[b].deleting
    requires w.claims[b].finalizer ==> after.claims[b].finalizer
    requires after.claims[b].deleting ==> after.claims[b].finalizer == w.claims[b].finalizer
    ensures Idle(after, b, config)
  {
    hide Buildable, Objects, OwnsNamespace;
    SettledSameObjects(w, after, ManifestsOf(w, b, config));
    OwnsSameObjects(w, after, b);
  }
}
