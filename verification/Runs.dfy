/** Whole runs of the operator, with failing requests, restarts, timers, and everything users and other
    parties may write in between: no claim is ever forgotten, and what the stored status says about sync,
    and so which reconciles record drift, is a matter of history. */
module Runs {
  import opened Builders
  import opened Conditions
  import opened Outcomes
  import opened Passes
  import opened Quiescence
  import opened Reconciles
  import opened ServerSideApply
  import opened SloStatus
  import opened World
  import Release
  import StatusWrites

  // ----- What a reconcile asks for -----

  lemma ReachFails(env: Env, n: nat)
    ensures Reach(env, n) < n <==> exists i :: 0 <= i < n && TurnAt(env, i).fault != NoFault
  {
    hide TurnAt;
  }

  /** An error puts the claim back in the queue, and a wait sets its timer. */
  lemma ResultKept(w: World, id: ClaimId, env: Env, config: Config)
    ensures var r := Reconciled(w, id, env, config);
            (r.1.Failed? ==> id in r.0.queue) && (r.1.RequeueAfter? ==> id in r.0.timers)
  {
    hide Finalize, ReconcileLive;
  }

  /** The reconcile of a live claim ends in an error, and so is queued again, exactly when a request of it failed:
      reading the claim, adding the finalizer, any apply, reading the Rollout, or writing the status. Else it
      asks to be run again in a minute, or, for a spec that cannot be built, not at all. */
  lemma LiveResult(w: World, id: ClaimId, env: Env, config: Config)
    requires Live(w, id)
    ensures var ms, buildable := ManifestsOf(w, id, config), Buildable(id, w.claims[id].spec);
            var failed := || env.claimReadFails || (!w.claims[id].finalizer && env.finalizerFails) || env.statusFails
                || (buildable && exists i :: 0 <= i < |ms| && TurnAt(env, i).fault != NoFault)
                || (buildable && env.rollout.RolloutUnreadable?);
            var r := Reconciled(w, id, env, config);
            && r.1 == (if failed then Failed else if buildable then RequeueAfter(60) else Done)
            && (failed ==> id in r.0.queue) && (r.1.RequeueAfter? ==> id in r.0.timers)
  {
    ResultKept(w, id, env, config);
    ReachFails(env, |ManifestsOf(w, id, config)|);
    hide Buildable, Objects, Worked, StatusWritten, InvalidWritten, StoreClaim, Reach, Conclude, TurnAt;
  }

  /** The reconcile of a deleted claim ends in an error exactly when a request it makes failed, polls every
      five seconds for its own namespace to go, and is done once the finalizer is released. */
  lemma DeletedResult(w: World, id: ClaimId, env: Env, config: Config)
    requires id in w.claims && w.claims[id].deleting
    ensures var own, held := OwnsNamespace(w, id), w.claims[id].finalizer;
            var failed := || env.claimReadFails || (held && env.namespaceReadFails)
                || (held && own && !NamespaceTerminating(w, id) && env.deleteFails)
                || (held && !own && env.finalizerFails);
            var r := Reconciled(w, id, env, config);
            && r.1 == (if failed then Failed else if held && own then RequeueAfter(5) else Done)
            && (failed ==> id in r.0.queue) && (r.1.RequeueAfter? ==> id in r.0.timers)
  {
    ResultKept(w, id, env, config);
    hide ReconcileLive, StoreClaim, StoreObject, Conclude, Visible, BelongsTo;
  }

  // ----- Runs -----

  /** One thing that happens: the controller tries to reconcile a claim, with whatever settings it was last
      started with; a timer fires; someone else creates, updates or removes a claim or an object; the
      operator restarts, forgets its timers and queues every claim there is. */
  datatype Act =
    | Attempt(id: ClaimId, env: Env, config: Config)
    | TimerFires(id: ClaimId)
    | ClaimWritten(id: ClaimId, claim: Option<Claim>)
    | ObjectWritten(key: Key, stored: Option<Object>)
    | Restart

  function Acted(w: World, act: Act): World {
    match act
    case Attempt(id, env, config) => After(w, id, env, config)
    case TimerFires(id) => if id in w.timers then w.(queue := w.queue + {id}, timers := w.timers - {id}) else w
    case ClaimWritten(id, claim) => StoreClaim(w, id, claim)
    case ObjectWritten(key, stored) => StoreObject(w, key, stored)
    case Restart => w.(queue := w.claims.Keys, timers := {})
  }

  /** What the API server holds writers of claims to. A claim is created with a name, without a status and
      not in deletion. An update leaves the status alone, a changed spec raises the generation, and neither
      a deletion is taken back nor a finalizer added to a deleted claim. */
  predicate Legal(w: World, act: Act) {
    act.ClaimWritten? && act.claim.Some? ==>
      var after := act.claim.value;
      if act.id !in w.claims then
        act.id.name != "" && act.id.namespace != "" && after.conditions == [] && !after.deleting
      else
        var before := w.claims[act.id];
        && after.conditions == before.conditions && after.status == before.status
        && before.generation <= after.generation
        && (after.spec != before.spec ==> before.generation < after.generation)
        && (before.deleting ==> after.deleting && (after.finalizer ==> before.finalizer))
  }

  function Run(w: World, acts: seq<Act>): World {
    if acts == [] then w else Acted(Run(w, acts[..|acts| - 1]), acts[|acts| - 1])
  }

  predicate AllLegal(w: World, acts: seq<Act>) {
    acts != [] ==>
      AllLegal(w, acts[..|acts| - 1]) && Legal(Run(w, acts[..|acts| - 1]), acts[|acts| - 1])
  }

  /** Of an update of a claim, the predicate drops exactly those that touch nothing but the status and the
      finalizers of a claim that is not being deleted. */
  lemma DroppedUpdates(w: World, id: ClaimId, after: Claim)
    requires id in w.claims && id !in w.queue
    requires after.spec != w.claims[id].spec ==> w.claims[id].generation != after.generation
    ensures id !in StoreClaim(w, id, Some(after)).queue <==>
              && !after.deleting
              && after.(conditions := w.claims[id].conditions, status := w.claims[id].status,
                        finalizer := w.claims[id].finalizer, others := w.claims[id].others)
                 == w.claims[id].(deleting := false)
  {}

  /** The object is one of the platform's, and its labels name the claim. */
  predicate Names(o: Option<Object>, id: ClaimId) {
    && o.Some? && LabelOf(o.value.fields, LABEL_MANAGED_BY) == "paved"
    && LabelOf(o.value.fields, LABEL_CLAIM) == id.name != ""
    && LabelOf(o.value.fields, LABEL_CLAIM_NAMESPACE) == id.namespace != ""
  }

  /** A write of an object enqueues a claim exactly when it changes the object, and the object named the claim
      before or does so now: an object that loses its labels still leads back once, and one that never
      carried the managed-by label never does. */
  lemma ObjectEvents(w: World, key: Key, after: Option<Object>, id: ClaimId)
    ensures var w1 := StoreObject(w, key, after);
            && Get(w1.objects, key) == after && w1.objects - {key} == w.objects - {key}
            && (id in w1.queue <==>
                  || id in w.queue
                  || (after != Get(w.objects, key) && (Names(Get(w.objects, key), id) || Names(after, id))))
  {
    hide LabelOf;
  }

  // ----- No claim is forgotten -----

  /** The status says that the spec of this generation cannot be built. */
  predicate Rejected(claim: Claim) {
    Find(claim.conditions, RESOURCES_SYNCED) ==
      Some(Condition(RESOURCES_SYNCED, False, INVALID_SPEC, claim.generation))
  }

  /** The claim will be reconciled again: it is queued, or a timer will queue it. Otherwise it needs no
      reconcile: it is deleted and released, or its spec cannot be built and its status says so. */
  predicate Accounted(w: World, id: ClaimId) {
    id in w.claims ==>
      || id in w.queue || id in w.timers
      || (if w.claims[id].deleting then !w.claims[id].finalizer
          else !Buildable(id, w.claims[id].spec) && Rejected(w.claims[id]))
  }

  /** Whatever its reconcile meets with, afterwards the claim is accounted for. */
  lemma OwnAttempt(w: World, id: ClaimId, env: Env, config: Config)
    ensures Accounted(After(w, id, env, config), id)
  {
    hide After, Reconciled, Buildable, Objects, Rejected, OwnsNamespace, TurnAt;
    ResultKept(w, id, env, config);
    assert After(w, id, env, config) == Reconciled(w, id, env, config).0 by { AfterIs(w, id, env, config); }
    if Live(w, id) {
      LiveResult(w, id, env, config);
      if Reconciled(w, id, env, config).1 == Done {
        RejectedWritten(w, id, env, config);
      }
    } else if id in w.claims {
      DeletedResult(w, id, env, config);
      if Reconciled(w, id, env, config).1 == Done {
        ReleasedOrFree(w, id, env, config);
      }
    } else {
      AbsentStays(w, id, env, config);
    }
  }

  lemma AfterIs(w: World, id: ClaimId, env: Env, config: Config)
    ensures After(w, id, env, config) == Reconciled(w, id, env, config).0
  {}

  lemma RejectedWritten(w: World, id: ClaimId, env: Env, config: Config)
    requires Proceeds(w, id, env) && !env.statusFails && !Buildable(id, w.claims[id].spec)
    ensures var after := After(w, id, env, config);
            id in after.claims && !after.claims[id].deleting && after.claims[id].spec == w.claims[id].spec
                && Rejected(after.claims[id])
  {
    hide After, Buildable, Started, Find, InvalidConditions, UpsertAll;
    InvalidShape(w, id, env, config);
    StatusWrites.InvalidStatusConditions(Held(w, id), env.now);
  }

  lemma ReleasedOrFree(w: World, id: ClaimId, env: Env, config: Config)
    requires id in w.claims && w.claims[id].deleting && Reconciled(w, id, env, config).1 == Done
    ensures var after := After(w, id, env, config);
            id in after.claims ==> after.claims[id].deleting && !after.claims[id].finalizer
  {
    hide ReconcileLive, OwnsNamespace, StoreObject;
  }

  lemma AbsentStays(w: World, id: ClaimId, env: Env, config: Config)
    requires id !in w.claims
    ensures id !in After(w, id, env, config).claims
  {
    hide Finalize, ReconcileLive;
  }

  lemma OtherAttempt(w: World, c: ClaimId, env: Env, config: Config, id: ClaimId)
    requires c != id && Accounted(w, id)
    ensures Accounted(After(w, c, env, config), id)
  {
    hide After, Buildable, Rejected;
    Release.OtherClaims(w, c, env, config, id);
    Release.OtherStaysDue(w, c, env, config);
  }

  lemma ActAccounts(w: World, act: Act, id: ClaimId)
    requires Legal(w, act) && Accounted(w, id)
    ensures Accounted(Acted(w, act), id)
  {
    hide After, Buildable, Find, Routes, Put;
    match act {
      case Attempt(c, env, config) =>
        if c == id {
          OwnAttempt(w, id, env, config);
        } else {
          OtherAttempt(w, c, env, config, id);
        }
      case _ =>
    }
  }

  /** No claim is ever forgotten. Over every run, whatever fails in it and whatever others write, a claim that
      is accounted for stays so; in an empty cluster every claim is. In particular a live claim whose spec
      can be built always is queued or has a timer. */
  lemma {:induction false} NoClaimForgotten(w: World, acts: seq<Act>, id: ClaimId)
    requires AllLegal(w, acts) && Accounted(w, id)
    ensures Accounted(Run(w, acts), id)
    ensures Applies(Run(w, acts), id) || Finalizing(Run(w, acts), id) ==>
              id in Run(w, acts).queue + Run(w, acts).timers
  {
    hide Acted, Legal, Buildable, Rejected;
    if acts != [] {
      NoClaimForgotten(w, acts[..|acts| - 1], id);
      ActAccounts(Run(w, acts[..|acts| - 1]), acts[|acts| - 1], id);
    }
  }

  // ----- Sync is history -----

  const EMPTY := World(map[], map[], {}, {}, [])

  /** One status write: the claim's generation, and whether the reconcile had applied everything. */
  datatype Written = Written(generation: int, full: bool)

  predicate WritesStatus(w: World, id: ClaimId, env: Env) {
    Proceeds(w, id, env) && !env.statusFails
  }

  ghost predicate AppliesAll(w: World, id: ClaimId, env: Env, config: Config)
    requires id in w.claims
  {
    && Buildable(id, w.claims[id].spec)
    && forall i :: 0 <= i < |ManifestsOf(w, id, config)| ==> TurnAt(env, i).fault == NoFault
  }

  /** The last status the controller wrote to the claim since it was created. */
  ghost function LastWrite(acts: seq<Act>, id: ClaimId): Option<Written> {
    if acts == [] then None
    else
      var w, earlier := Run(EMPTY, acts[..|acts| - 1]), LastWrite(acts[..|acts| - 1], id);
      match acts[|acts| - 1]
      case Attempt(c, env, config) =>
        if c == id && WritesStatus(w, id, env) then
          Some(Written(w.claims[id].generation, AppliesAll(w, id, env, config)))
        else earlier
      case ClaimWritten(c, claim) => if c == id && (id !in w.claims || claim.None?) then None else earlier
      case _ => earlier
  }

  /** The stored ResourcesSynced is what the last write says, if there was one. */
  predicate Tells(w: World, id: ClaimId, last: Option<Written>) {
    id in w.claims ==>
      var synced := Find(w.claims[id].conditions, RESOURCES_SYNCED);
      && id.name != "" && id.namespace != ""
      && (synced.Some? <==> last.Some?)
      && (last.Some? ==>
            && synced.value.observedGeneration == last.value.generation <= w.claims[id].generation
            && (synced.value.status == True <==> last.value.full))
  }

  lemma AttemptWrites(w: World, id: ClaimId, env: Env, config: Config)
    requires WritesStatus(w, id, env) && id.name != "" && id.namespace != ""
    ensures Tells(After(w, id, env, config), id,
        Some(Written(w.claims[id].generation, AppliesAll(w, id, env, config))))
  {
    hide After, Buildable, Find, Objects, StatusWrites.StorageThere, StatusWrites.RolloutUpToDate, AllSettled, TurnAt,
        Reach;
    StatusWrites.ReadyWritten(w, id, env, config);
    ReachFails(env, |ManifestsOf(w, id, config)|);
  }

  lemma AttemptWithoutWrite(w: World, id: ClaimId, env: Env, config: Config)
    requires !WritesStatus(w, id, env)
    ensures var after := After(w, id, env, config);
            id in after.claims ==>
              id in w.claims && after.claims[id] in {w.claims[id], w.claims[id].(finalizer := true),
                  w.claims[id].(finalizer := false)}
  {
    hide After, Buildable, Objects, Started, ApplyPrefix, Corrections, StatusWritten, InvalidWritten, InSync,
        DriftEvents, Reach, Landed;
    if Proceeds(w, id, env) {
      if Buildable(id, w.claims[id].spec) {
        BuiltShape(w, id, env, config);
      } else {
        InvalidShape(w, id, env, config);
      }
    } else {
      StoppedClaim(w, id, env, config);
    }
  }

  lemma StoppedClaim(w: World, id: ClaimId, env: Env, config: Config)
    requires !Proceeds(w, id, env)
    ensures var after := After(w, id, env, config);
            id in after.claims ==>
              id in w.claims && after.claims[id] in {w.claims[id], w.claims[id].(finalizer := false)}
    ensures After(w, id, env, config).drift == w.drift
  {
    hide ReconcileBuilt, ReconcileInvalid, Buildable, OwnsNamespace, Routes;
  }

  lemma AttemptTells(w: World, c: ClaimId, env: Env, config: Config, id: ClaimId, last: Option<Written>)
    requires Tells(w, id, last)
    ensures Tells(After(w, c, env, config), id,
        if c == id && WritesStatus(w, id, env)
        then Some(Written(w.claims[id].generation, AppliesAll(w, id, env, config))) else last)
  {
    hide After, Find, WritesStatus, AppliesAll;
    if c != id {
      Release.OtherClaims(w, c, env, config, id);
    } else if WritesStatus(w, id, env) {
      assert id in w.claims by { WritesExisting(w, id, env); }
      AttemptWrites(w, id, env, config);
    } else {
      AttemptWithoutWrite(w, id, env, config);
    }
  }

  lemma WritesExisting(w: World, id: ClaimId, env: Env)
    requires WritesStatus(w, id, env)
    ensures id in w.claims
  {}

  /** After every run that starts with an empty cluster, a claim has a stored ResourcesSynced exactly when the
      controller has written its status since it was created; the condition carries the generation of the
      last such write, and is True exactly when that reconcile had applied everything. */
  lemma {:induction false} SyncedIsHistory(acts: seq<Act>, id: ClaimId)
    requires AllLegal(EMPTY, acts)
    ensures Tells(Run(EMPTY, acts), id, LastWrite(acts, id))
  {
    hide After, WritesStatus, AppliesAll, Tells;
    if acts == [] {
      NothingTold(id);
    } else {
      var init, act := acts[..|acts| - 1], acts[|acts| - 1];
      SyncedIsHistory(init, id);
      if act.Attempt? {
        AttemptTells(Run(EMPTY, init), act.id, act.env, act.config, id, LastWrite(init, id));
      } else {
        WrittenTells(Run(EMPTY, init), act, id, LastWrite(init, id));
      }
    }
  }

  lemma NothingTold(id: ClaimId)
    ensures Tells(EMPTY, id, None)
  {}

  lemma WrittenTells(w: World, act: Act, id: ClaimId, last: Option<Written>)
    requires Legal(w, act) && !act.Attempt? && Tells(w, id, last)
    ensures Tells(Acted(w, act), id,
        if act.ClaimWritten? && act.id == id && (id !in w.claims || act.claim.None?) then None else last)
  {
    hide Routes, Put, ClaimChanged;
  }

  /** Which reconciles record drift: after every run, that of a live claim it can build, whose last status
      write was of a full pass at the generation the claim still has. It records what it put back; any
      other reconcile records nothing. */
  lemma DriftFollowsFullPass(acts: seq<Act>, id: ClaimId, env: Env, config: Config)
    requires AllLegal(EMPTY, acts)
    ensures var w := Run(EMPTY, acts);
            var live := Proceeds(w, id, env) && Buildable(id, w.claims[id].spec)
                && config.hasReader && config.hasRecorder;
            After(w, id, env, config).drift == w.drift
              + if live && LastWrite(acts, id) == Some(Written(w.claims[id].generation, true))
                then DriftEvents(id,
                    Expected(Started(w, id), ManifestsOf(w, id, config), env, Progress(w, id, env, config)))
                else []
  {
    hide After, Buildable, Objects, Find, Reach, Started, Expected, DriftEvents, LastWrite, Run, AllLegal;
    var w := Run(EMPTY, acts);
    SyncedIsHistory(acts, id);
    if !Proceeds(w, id, env) {
      StoppedClaim(w, id, env, config);
    } else if Buildable(id, w.claims[id].spec) {
      EventsRecorded(w, id, env, config);
    } else {
      InvalidShape(w, id, env, config);
    }
  }

  /** A spec edit is no drift: whatever came before it, the next reconcile after an update that raises the
      generation records nothing, whatever it has to change. */
  lemma SpecEditIsNoDrift(acts: seq<Act>, id: ClaimId, edited: Claim, env: Env, config: Config)
    requires AllLegal(EMPTY, acts) && id in Run(EMPTY, acts).claims
    requires Legal(Run(EMPTY, acts), ClaimWritten(id, Some(edited)))
    requires Run(EMPTY, acts).claims[id].generation < edited.generation
    ensures var w := Acted(Run(EMPTY, acts), ClaimWritten(id, Some(edited)));
            After(w, id, env, config).drift == w.drift
  {
    hide After, Buildable, Find, Expected, DriftEvents, LastWrite;
    SyncedIsHistory(acts, id);
    var more := acts + [ClaimWritten(id, Some(edited))];
    assert more[..|more| - 1] == acts;
    DriftFollowsFullPass(more, id, env, config);
    EditKeepsLastWrite(acts, id, edited);
  }

  lemma EditKeepsLastWrite(acts: seq<Act>, id: ClaimId, edited: Claim)
    requires id in Run(EMPTY, acts).claims
    ensures LastWrite(acts + [ClaimWritten(id, Some(edited))], id) == LastWrite(acts, id)
  {
    var more := acts + [ClaimWritten(id, Some(edited))];
    assert more[..|more| - 1] == acts && more[|more| - 1] == ClaimWritten(id, Some(edited));
  }
}
