/** Finalization makes progress: a deleted claim's finalizer is released after finitely many reconciles,
    whether its namespace is its own, another claim's, or gone. Also, the reconcile of Reconciler takes
    the steps of the finer protocol in Finalizer. */
module Release {
  import opened Builders
  import opened Contention
  import opened Frame
  import opened Outcomes
  import opened Passes
  import opened Quiescence
  import opened Reconciles
  import opened ServerSideApply
  import opened World
  import Finalizer

  // ----- Progress -----

  /** How far a deleted claim is from being released: 3 while its own namespace is there, 2 while that is
      being deleted, 1 once it is gone or another claim's, 0 when the finalizer, or the claim, is gone. */
  function Level(w: World, id: ClaimId): nat {
    if !Finalizing(w, id) then 0
    else if !OwnsNamespace(w, id) then 1
    else if NamespaceTerminating(w, id) then 2
    else 3
  }

  /** Anything that can happen meanwhile: a reconcile of any claim, failed or not; the namespace
      controller finishing a deletion; any change whatever by anyone else. */
  datatype Happening =
    | Reconcile(id: ClaimId, env: Env)
    | Completes(id: ClaimId)
    | Elsewhere(world: World)

  function Happens(w: World, h: Happening, config: Config): World {
    match h
    case Reconcile(id, env) => After(w, id, env, config)
    case Completes(id) =>
      if NamespaceTerminating(w, id) then StoreObject(w, NamespaceKey(id), None) else w
    case Elsewhere(world) => world
  }

  /** The claim is deleted: gone, or marked for deletion. */
  predicate Going(w: World, id: ClaimId) {
    NamedClaims(w) && id.name != "" && id.namespace != "" && (id in w.claims ==> w.claims[id].deleting)
  }

  /** What others must not do: take the deletion back, or add the finalizer again, which the API server
      refuses; or give the claim a namespace that is not already its own and on its way out as far as
      before. They may edit the claim and the namespace, relabel or delete the namespace, and strip the
      finalizer. */
  predicate Allowed(w: World, h: Happening, id: ClaimId) {
    match h
    case Elsewhere(world) =>
      && NamedClaims(world)
      && (id in world.claims ==> world.claims[id].deleting && (world.claims[id].finalizer ==> Finalizing(w, id)))
      && (Finalizing(world, id) && OwnsNamespace(world, id) ==>
            OwnsNamespace(w, id) && (NamespaceTerminating(w, id) ==> NamespaceTerminating(world, id)))
    case _ => true
  }

  function HappenAll(w: World, hs: seq<Happening>, config: Config): World
    decreases |hs|
  {
    if hs == [] then w else HappenAll(Happens(w, hs[0], config), hs[1..], config)
  }

  ghost predicate AllAllowed(w: World, hs: seq<Happening>, id: ClaimId, config: Config)
    decreases |hs|
  {
    hs != [] ==> Allowed(w, hs[0], id) && AllAllowed(Happens(w, hs[0], config), hs[1..], id, config)
  }

  lemma GoingReconcileFailed(w: World, id: ClaimId, env: Env, config: Config)
    requires Finalizing(w, id)
    ensures var after := After(w, id, env, config);
            || (after.claims == w.claims && after.objects == w.objects)
            || (env.namespaceReadFails == env.claimReadFails == false && after == After(w, id, Calmed(env), config))
  {
    hide ReconcileLive, BelongsTo, Visible, Routes;
  }

  /** The same environment without failures. */
  function Calmed(env: Env): Env {
    env.(claimReadFails := false, finalizerFails := false, statusFails := false, namespaceReadFails := false,
        deleteFails := false,
         turns := [], rollout := Readiness.RolloutNotFound)
  }

  /** The claim's own reconcile never takes it further away, and without failures brings it nearer, unless
      it waits for its namespace to go. */
  lemma OwnReconcile(w: World, id: ClaimId, env: Env, config: Config)
    requires Going(w, id)
    ensures var after := After(w, id, env, config);
            && Going(after, id) && Level(after, id) <= Level(w, id)
            && (Calm(env) && Level(w, id) in {1, 3} ==> Level(after, id) < Level(w, id))
  {
    hide After, Calm, Routes, Visible, BelongsTo;
    if Finalizing(w, id) {
      GoingReconcileFailed(w, id, env, config);
      assert Calm(Calmed(env)) by { CalmedIsCalm(env); }
      CalmFinalizing(w, id, Calmed(env), config);
      if Calm(env) {
        CalmFinalizing(w, id, env, config);
      }
    } else {
      GoneReconcile(w, id, env, config);
    }
  }

  lemma CalmedIsCalm(env: Env)
    ensures Calm(Calmed(env))
  {}

  lemma GoneReconcile(w: World, id: ClaimId, env: Env, config: Config)
    requires !Live(w, id) && !Finalizing(w, id)
    ensures After(w, id, env, config).claims == w.claims && After(w, id, env, config).objects == w.objects
  {
    hide ReconcileLive;
  }

  /** A reconcile touches no claim but its own, and creates none. */
  lemma OtherClaims(w: World, c: ClaimId, env: Env, config: Config, id: ClaimId)
    requires c != id
    ensures var after := After(w, c, env, config);
            && (id in after.claims <==> id in w.claims) && (id in w.claims ==> after.claims[id] == w.claims[id])
            && after.claims.Keys <= w.claims.Keys
  {
    hide Buildable, Objects, ApplyPrefix, Corrections, StatusWritten, InvalidConditions, Reach, InSync, OwnsNamespace;
    if Proceeds(w, c, env) {
      OtherClaimsLive(w, c, env, config);
    } else {
      var after := After(w, c, env, config);
      assert after.claims == w.claims || after.claims == w.claims - {c}
          || after.claims == w.claims[c := w.claims[c].(finalizer := false)];
    }
  }

  lemma OtherClaimsLive(w: World, c: ClaimId, env: Env, config: Config)
    requires Proceeds(w, c, env)
    ensures var after := After(w, c, env, config);
            c in after.claims && after.claims == w.claims[c := after.claims[c]]
  {
    hide After, Buildable, Objects, ApplyPrefix, Corrections, StatusWritten, InvalidConditions, Reach, InSync,
        Started, DriftEvents;
    if Applies(w, c) {
      BuiltShape(w, c, env, config);
    } else {
      InvalidShape(w, c, env, config);
    }
  }

  /** A reconcile of another claim can only take the namespace away from this one, never give it. */
  lemma OtherNamespace(w: World, c: ClaimId, env: Env, config: Config, id: ClaimId)
    requires c != id && Going(w, id) && id in w.claims
    ensures var after := After(w, c, env, config);
            OwnsNamespace(after, id) ==>
                OwnsNamespace(w, id) && (NamespaceTerminating(w, id) ==> NamespaceTerminating(after, id))
  {
    hide After, Objects, Buildable, PatchOf, TurnAt, Visible, BelongsTo, ClaimForObject, DistinctKeys;
    var k, after := NamespaceKey(id), After(w, c, env, config);
    var i := ObjectAfter(w, c, env, config, k);
    if SameBody(Get(w.objects, k), Get(after.objects, k)) {
      MarksStay(w, c, env, config, k);
    } else {
      var ms := ManifestsOf(w, c, config);
      PatchesCarryLabels(c, w.claims[c].spec, config.linked);
      assert ms[i] in ms;
      AppliedRoutes(Get(w.objects, k), PatchOf(ms[i].content), TurnAt(env, i).now, c);
      if OwnsNamespace(after, id) {
        OwnerRoutes(after, id);
        assert false;
      }
    }
  }

  /** No reconcile clears a deletion mark. */
  lemma MarksStay(w: World, c: ClaimId, env: Env, config: Config, k: Key)
    requires NamedClaims(w)
    ensures Get(w.objects, k).Some? && Get(w.objects, k).value.terminating ==>
              Get(After(w, c, env, config).objects, k).Some?
                  && Get(After(w, c, env, config).objects, k).value.terminating
  {
    if Proceeds(w, c, env) {
      hide After, Objects, Buildable, PatchOf, TurnAt, DistinctKeys, ApplyPrefix, Started, Corrections, InSync,
          DriftEvents, StatusWritten, InvalidConditions;
      if Applies(w, c) {
        var i := BuiltObjectAfter(w, c, env, config, k);
      } else {
        InvalidShape(w, c, env, config);
      }
    } else {
      hide ReconcileBuilt, ReconcileInvalid, Buildable, BelongsTo, Visible, Routes;
    }
  }

  lemma HappeningKeeps(w: World, h: Happening, id: ClaimId, config: Config)
    requires Going(w, id) && Allowed(w, h, id)
    ensures var after := Happens(w, h, config);
            && Going(after, id) && Level(after, id) <= Level(w, id)
            && (h.Completes? && h.id == id && Level(w, id) == 2 ==> Level(after, id) == 1)
  {
    hide After, Visible, BelongsTo, Routes;
    match h {
      case Reconcile(c, env) =>
        if c == id {
          OwnReconcile(w, id, env, config);
        } else {
          OtherClaims(w, c, env, config, id);
          if Finalizing(w, id) {
            OtherNamespace(w, c, env, config, id);
          }
        }
      case Completes(c) =>
        if NamespaceTerminating(w, c) {
          CompletedNamespace(w, c, id);
        }
      case Elsewhere(world) =>
    }
  }

  lemma CompletedNamespace(w: World, c: ClaimId, id: ClaimId)
    requires NamespaceTerminating(w, c)
    ensures var after := StoreObject(w, NamespaceKey(c), None);
            && after.claims == w.claims
            && (NamespaceKey(c) == NamespaceKey(id) ==> !OwnsNamespace(after, id))
            && (NamespaceKey(c) != NamespaceKey(id) ==>
                Get(after.objects, NamespaceKey(id)) == Get(w.objects, NamespaceKey(id)))
  {}

  lemma {:induction false} HappeningsKeep(w: World, hs: seq<Happening>, id: ClaimId, config: Config)
    requires Going(w, id) && AllAllowed(w, hs, id, config)
    ensures Going(HappenAll(w, hs, config), id) && Level(HappenAll(w, hs, config), id) <= Level(w, id)
    decreases |hs|
  {
    hide Going, Level, Happens, Allowed;
    if hs != [] {
      HappeningKeeps(w, hs[0], id, config);
      HappeningsKeep(Happens(w, hs[0], config), hs[1..], id, config);
    }
  }

  /** Every deleted claim is released after finitely many reconciles: whatever else happens before, between
      and after, two reconciles of it that do not fail, with the namespace controller finishing its work
      in between, are enough, even when the namespace is gone or another claim's from the start. Nobody
      else can delay that, short of giving the claim its namespace back. */
  lemma FinalizerReleased(
      w: World, id: ClaimId, config: Config, first: Env, second: Env,
      before: seq<Happening>, between: seq<Happening>, later: seq<Happening>)
    requires Going(w, id) && Calm(first) && Calm(second)
    requires AllAllowed(w, before, id, config)
    requires var w1 := After(HappenAll(w, before, config), id, first, config);
             && AllAllowed(w1, between, id, config)
             && AllAllowed(Happens(HappenAll(w1, between, config), Completes(id), config), later, id, config)
    ensures var w1 := After(HappenAll(w, before, config), id, first, config);
            var w2 := Happens(HappenAll(w1, between, config), Completes(id), config);
            !Finalizing(After(HappenAll(w2, later, config), id, second, config), id)
  {
    var w0 := HappenAll(w, before, config);
    var w1 := After(w0, id, first, config);
    var w2 := Happens(HappenAll(w1, between, config), Completes(id), config);
    var w3 := HappenAll(w2, later, config);
    hide After, HappenAll, Happens, Going, OwnsNamespace, NamespaceTerminating, Calm, AllAllowed;
    HappeningsKeep(w, before, id, config);
    OwnReconcile(w0, id, first, config);
    HappeningsKeep(w1, between, id, config);
    HappeningKeeps(HappenAll(w1, between, config), Completes(id), id, config);
    HappeningsKeep(w2, later, id, config);
    OwnReconcile(w3, id, second, config);
  }

  // ----- Those reconciles come -----

  /** The claim is released, or will be reconciled again: it is queued, or a timer will queue it. */
  predicate Due(w: World, id: ClaimId) {
    Finalizing(w, id) ==> id in w.queue + w.timers
  }

  /** Nobody but the controller takes the claim off its queue and its timers; a timer that fires moves it
      from one to the other. */
  predicate LeavesDue(w: World, h: Happening, id: ClaimId) {
    h.Elsewhere? && id in w.queue + w.timers ==> id in h.world.queue + h.world.timers
  }

  ghost predicate AllLeaveDue(w: World, hs: seq<Happening>, id: ClaimId, config: Config)
    decreases |hs|
  {
    hs != [] ==> LeavesDue(w, hs[0], id) && AllLeaveDue(Happens(w, hs[0], config), hs[1..], id, config)
  }

  /** A reconcile that leaves a deleted claim held has queued it again or set a timer. */
  lemma StaysScheduled(w: World, id: ClaimId, env: Env, config: Config)
    requires Finalizing(w, id)
    ensures Due(After(w, id, env, config), id)
  {
    hide ReconcileLive, BelongsTo, Visible, Routes;
  }

  lemma {:induction false} PassOnlyQueues(w: World, ms: seq<Manifest>, env: Env, n: nat)
    requires n <= |ms|
    ensures w.queue <= ApplyPrefix(w, ms, env, n).queue && ApplyPrefix(w, ms, env, n).timers == w.timers
  {
    hide ApplyPatch, PatchOf, Routes, TurnAt;
    if n > 0 {
      PassOnlyQueues(w, ms, env, n - 1);
    }
  }

  lemma WorkedOnlyQueues(w: World, c: ClaimId, claim: Claim, env: Env, config: Config)
    ensures var r := ReconcileBuilt(w, c, claim, env, config).0;
            w.queue <= r.queue && w.timers <= r.timers
  {
    hide Objects, ApplyPrefix, Landed, Reach, Corrections, DriftEvents, InSync, StatusWritten, AllApplied, ClaimChanged;
    var ms := Objects(c, claim.spec, config.linked);
    PassOnlyQueues(w, ms, env, Landed(env, |ms|));
  }

  /** A reconcile, failed or not, takes no claim but its own off the queue, and stops no timer. */
  lemma OtherStaysDue(w: World, c: ClaimId, env: Env, config: Config)
    ensures var after := After(w, c, env, config);
            w.queue - {c} <= after.queue && w.timers <= after.timers
  {
    hide After, ReconcileBuilt, ReconcileInvalid, Buildable, Started, Objects;
    if !Proceeds(w, c, env) {
      StoppedStaysDue(w, c, env, config);
    } else {
      Proceeding(w, c, env, config);
      if Buildable(c, Held(w, c).spec) {
        WorkedOnlyQueues(Started(w, c), c, Held(w, c), env, config);
      } else {
        InvalidOnlyQueues(Started(w, c), c, Held(w, c), env);
      }
    }
  }

  lemma StoppedStaysDue(w: World, c: ClaimId, env: Env, config: Config)
    requires !Proceeds(w, c, env)
    ensures w.queue - {c} <= After(w, c, env, config).queue && w.timers <= After(w, c, env, config).timers
  {
    hide ReconcileBuilt, ReconcileInvalid, Buildable, OwnsNamespace, Routes;
  }

  lemma InvalidOnlyQueues(w: World, c: ClaimId, claim: Claim, env: Env)
    ensures w.queue <= ReconcileInvalid(w, c, claim, env).0.queue
        && w.timers == ReconcileInvalid(w, c, claim, env).0.timers
  {
    hide InvalidWritten, ClaimChanged;
  }

  lemma DueThrough(w: World, h: Happening, id: ClaimId, config: Config)
    requires Going(w, id) && Allowed(w, h, id) && LeavesDue(w, h, id) && Due(w, id)
    ensures Due(Happens(w, h, config), id)
  {
    hide After, OwnsNamespace, Routes;
    match h {
      case Reconcile(c, env) =>
        if c == id && Finalizing(w, id) {
          StaysScheduled(w, id, env, config);
        } else if c == id {
          GoneReconcile(w, id, env, config);
        } else {
          OtherClaims(w, c, env, config, id);
          OtherStaysDue(w, c, env, config);
        }
      case Completes(c) =>
      case Elsewhere(world) =>
    }
  }

  /** From its deletion, which queues it, until it is released, a claim is always queued or has a timer: over
      every run of reconciles of any claim, failed or not, and of anything else that may happen. So the
      reconciles its release takes are never left out for want of an event. */
  lemma {:induction false} DueOverRuns(w: World, hs: seq<Happening>, id: ClaimId, config: Config)
    requires Going(w, id) && Due(w, id) && AllAllowed(w, hs, id, config) && AllLeaveDue(w, hs, id, config)
    ensures Due(HappenAll(w, hs, config), id)
    decreases |hs|
  {
    hide Going, Due, Happens, Allowed, LeavesDue;
    if hs != [] {
      HappeningKeeps(w, hs[0], id, config);
      DueThrough(w, hs[0], id, config);
      DueOverRuns(Happens(w, hs[0], config), hs[1..], id, config);
    }
  }

  // ----- The finer protocol -----

  /** The finer protocol's state shows this claim and its namespace as the cluster has them. */
  predicate Shows(s: Finalizer.State, w: World, id: ClaimId) {
    var o, ns := Get(w.objects, NamespaceKey(id)), Finalizer.NamespaceAt(s, id);
    && s.phase.Idle?
    && (id in s.claims <==> id in w.claims)
    && (id in w.claims ==> s.claims[id] == Finalizer.Life(w.claims[id].deleting, w.claims[id].finalizer,
        w.claims[id].others))
    && (ns.Some? <==> o.Some?)
    && (o.Some? ==>
          && ns.value.terminating == o.value.terminating && ns.value.managed == Visible(o.value.fields)
          && ns.value.owner == ClaimForObject(o.value.fields))
  }

  /** The reconcile of a deleted claim, failed or not, takes the finer protocol's steps one after the
      other: it reads the claim and the namespace and decides, or a request fails first. */
  lemma FinalizeRefines(s: Finalizer.State, w: World, id: ClaimId, env: Env, config: Config)
      returns (actions: seq<Finalizer.Action>)
    requires Finalizing(w, id) && id.name != "" && id.namespace != "" && Shows(s, w, id)
    ensures Shows(Finalizer.Run(s, actions), After(w, id, env, config), id)
    ensures actions in {[Finalizer.Fetch(id), Finalizer.Fail],
                        [Finalizer.Fetch(id), Finalizer.ReadNamespace, Finalizer.Decide]}
    ensures Calm(env) ==> |actions| == 3
  {
    hide After, Calm, Shows, Finalizer.Next, Finalizer.Run, Calmed;
    var after := After(w, id, env, config);
    GoingReconcileFailed(w, id, env, config);
    if !Calm(env) && after.claims == w.claims && after.objects == w.objects {
      actions := [Finalizer.Fetch(id), Finalizer.Fail];
      Finalizer.RunTwo(s, actions);
      FetchThenFail(s, w, after, id);
    } else {
      actions := [Finalizer.Fetch(id), Finalizer.ReadNamespace, Finalizer.Decide];
      Finalizer.RunThree(s, actions);
      CalmedIsCalm(env);
      if Calm(env) {
        CalmFinalizeRefines(s, w, id, env, config);
      } else {
        CalmFinalizeRefines(s, w, id, Calmed(env), config);
      }
    }
  }

  /** A reconcile that stops at a failed request leaves what the finer protocol shows. */
  lemma FetchThenFail(s: Finalizer.State, w: World, after: World, id: ClaimId)
    requires Shows(s, w, id) && after.claims == w.claims && after.objects == w.objects
    ensures Shows(Finalizer.Next(Finalizer.Next(s, Finalizer.Fetch(id)), Finalizer.Fail), after, id)
  {
    hide ClaimForObject, Visible, NamespaceKey, NamespaceName;
  }

  lemma CalmFinalizeRefines(s: Finalizer.State, w: World, id: ClaimId, env: Env, config: Config)
    requires Finalizing(w, id) && Calm(env) && id.name != "" && id.namespace != "" && Shows(s, w, id)
    ensures var t := Finalizer.Next(Finalizer.Next(Finalizer.Next(s, Finalizer.Fetch(id)), Finalizer.ReadNamespace),
        Finalizer.Decide);
            Shows(t, After(w, id, env, config), id)
  {
    hide After, Calm, Routes, BelongsTo, ClaimForObject, Visible, NamespaceName;
    CalmFinalizing(w, id, env, config);
    var o := Get(w.objects, NamespaceKey(id));
    if o.Some? {
      OwnerIsMine(o.value.fields, id);
    }
    assert NamespaceKey(id).name == NamespaceName(id);
  }

  /** So does the reconcile of a live claim: the finalizer first, then the namespace, unless a request
      fails first or the spec cannot be built. */
  lemma HoldRefines(s: Finalizer.State, w: World, id: ClaimId, env: Env, config: Config)
      returns (actions: seq<Finalizer.Action>)
    requires Live(w, id) && NamedClaims(w) && Shows(s, w, id)
    ensures Shows(Finalizer.Run(s, actions), After(w, id, env, config), id)
    ensures actions in {[Finalizer.Fetch(id), Finalizer.Fail],
                        [Finalizer.Fetch(id), Finalizer.AddFinalizer, Finalizer.Fail],
                        [Finalizer.Fetch(id), Finalizer.AddFinalizer, Finalizer.ApplyNamespace]}
    ensures Calm(env) && Applies(w, id) ==>
        actions == [Finalizer.Fetch(id), Finalizer.AddFinalizer, Finalizer.ApplyNamespace]
  {
    hide After, Shows, Finalizer.Next, Finalizer.Run, Buildable, Objects, Landed;
    var after := After(w, id, env, config);
    if !Proceeds(w, id, env) {
      actions := [Finalizer.Fetch(id), Finalizer.Fail];
      Finalizer.RunTwo(s, actions);
      NotProceeding(w, id, env, config);
      FetchThenFail(s, w, after, id);
    } else {
      var applied := Applies(w, id) && Effects(w, id, env, config) > 0;
      actions := [Finalizer.Fetch(id), Finalizer.AddFinalizer, if applied then Finalizer.ApplyNamespace
          else Finalizer.Fail];
      Finalizer.RunThree(s, actions);
      HeldThroughout(w, id, env, config);
      if applied {
        NamespaceApplied(w, id, env, config);
        HoldsThenApplies(s, w, after, id);
      } else {
        NamespaceUntouched(w, id, env, config);
        HoldsThenFails(s, w, after, id);
      }
      if Calm(env) && Applies(w, id) {
        CalmReach(env, |ManifestsOf(w, id, config)|);
        BuiltObjects(id, w.claims[id].spec, config.linked);
      }
    }
  }

  lemma NotProceeding(w: World, id: ClaimId, env: Env, config: Config)
    requires Live(w, id) && !Proceeds(w, id, env)
    ensures After(w, id, env, config).claims == w.claims && After(w, id, env, config).objects == w.objects
  {
    hide Buildable, ReconcileBuilt, ReconcileInvalid;
  }

  /** Past its finalizer, a reconcile of a live claim leaves the claim live and held. */
  lemma HeldThroughout(w: World, id: ClaimId, env: Env, config: Config)
    requires Proceeds(w, id, env)
    ensures var after := After(w, id, env, config);
            id in after.claims && !after.claims[id].deleting && after.claims[id].finalizer
            && after.claims[id].others == w.claims[id].others
  {
    hide After, Started, Objects, Reach, Landed, ApplyPrefix, Corrections, InSync, DriftEvents, Buildable,
        StatusWritten, InvalidConditions;
    if Applies(w, id) {
      BuiltShape(w, id, env, config);
      StatusKeepsClaim(id, Held(w, id), env, config);
    } else {
      InvalidShape(w, id, env, config);
    }
  }

  lemma NamespaceUntouched(w: World, id: ClaimId, env: Env, config: Config)
    requires Proceeds(w, id, env) && !(Applies(w, id) && Effects(w, id, env, config) > 0)
    ensures Get(After(w, id, env, config).objects, NamespaceKey(id)) == Get(w.objects, NamespaceKey(id))
  {
    hide After, Started, Objects, Buildable, Corrections, InSync, DriftEvents, StatusWritten, InvalidConditions;
    if Applies(w, id) {
      BuiltShape(w, id, env, config);
    } else {
      InvalidShape(w, id, env, config);
    }
  }

  lemma HoldsThenApplies(s: Finalizer.State, w: World, after: World, id: ClaimId)
    requires Live(w, id) && Shows(s, w, id) && HeldAfter(w, after, id)
    requires var o, n := Get(w.objects, NamespaceKey(id)), Get(after.objects, NamespaceKey(id));
             && n.Some? && Visible(n.value.fields) && ClaimForObject(n.value.fields) == Some(id)
             && n.value.terminating == (o.Some? && o.value.terminating)
    ensures var t := Finalizer.Next(Finalizer.Next(Finalizer.Next(s, Finalizer.Fetch(id)), Finalizer.AddFinalizer),
        Finalizer.ApplyNamespace);
            Shows(t, after, id)
  {
    hide ClaimForObject, Visible, NamespaceName;
    assert NamespaceKey(id).name == NamespaceName(id);
  }

  lemma HoldsThenFails(s: Finalizer.State, w: World, after: World, id: ClaimId)
    requires Live(w, id) && Shows(s, w, id) && HeldAfter(w, after, id)
    requires Get(after.objects, NamespaceKey(id)) == Get(w.objects, NamespaceKey(id))
    ensures var t := Finalizer.Next(Finalizer.Next(Finalizer.Next(s, Finalizer.Fetch(id)), Finalizer.AddFinalizer),
        Finalizer.Fail);
            Shows(t, after, id)
  {
    hide ClaimForObject, Visible, NamespaceName;
    assert NamespaceKey(id).name == NamespaceName(id);
  }

  predicate HeldAfter(w: World, after: World, id: ClaimId)
    requires id in w.claims
  {
    id in after.claims && !after.claims[id].deleting && after.claims[id].finalizer
        && after.claims[id].others == w.claims[id].others
  }
}
