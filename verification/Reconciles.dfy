/** What one whole reconcile of a live claim leaves in the cluster, in the claim's status and in the event
    log, as facts about the state before it. */
module Reconciles {
  import opened Builders
  import opened Conditions
  import opened Drift
  import opened Outcomes
  import opened Passes
  import opened Readiness
  import opened ServerSideApply
  import opened SloStatus
  import opened World

  /** The reconcile reads the claim, finds it not deleted, and holds its finalizer. */
  predicate Proceeds(w: World, id: ClaimId, env: Env) {
    && !env.claimReadFails && id in w.claims && !w.claims[id].deleting
    && (w.claims[id].finalizer || !env.finalizerFails)
  }

  function Held(w: World, id: ClaimId): Claim
    requires id in w.claims
  {
    w.claims[id].(finalizer := true)
  }

  /** The world once the finalizer is in place, before any object is applied. */
  function Started(w: World, id: ClaimId): (s: World)
    requires id in w.claims
    ensures s.objects == w.objects && s.drift == w.drift && s.timers == w.timers
    ensures id in s.claims && s.claims[id] == Held(w, id) && s.claims == w.claims[id := Held(w, id)]
    ensures s.queue <= w.queue + {id} && w.queue - {id} <= s.queue
  {
    var w0 := w.(queue := w.queue - {id});
    if w.claims[id].finalizer then w0 else StoreClaim(w0, id, Some(Held(w, id)))
  }

  function ManifestsOf(w: World, id: ClaimId, config: Config): seq<Manifest>
    requires id in w.claims
  {
    Objects(id, w.claims[id].spec, config.linked)
  }

  /** How many objects the reconcile applies. */
  function Progress(w: World, id: ClaimId, env: Env, config: Config): (n: nat)
    requires id in w.claims
    ensures n <= |ManifestsOf(w, id, config)|
  {
    Reach(env, |ManifestsOf(w, id, config)|)
  }

  /** How many of its applies take effect: one more when the response of the failing one was lost. */
  function Effects(w: World, id: ClaimId, env: Env, config: Config): (l: nat)
    requires id in w.claims
    ensures Progress(w, id, env, config) <= l <= |ManifestsOf(w, id, config)|
    ensures Progress(w, id, env, config) == |ManifestsOf(w, id, config)| ==> l == |ManifestsOf(w, id, config)|
  {
    Landed(env, |ManifestsOf(w, id, config)|)
  }

  function After(w: World, id: ClaimId, env: Env, config: Config): World {
    Reconciled(w, id, env, config).0
  }

  /** What a reconcile that proceeds does once the finalizer is in place. */
  lemma Proceeding(w: World, id: ClaimId, env: Env, config: Config)
    requires Proceeds(w, id, env)
    ensures var s, held := Started(w, id), Held(w, id);
            var r := if Buildable(id, held.spec) then ReconcileBuilt(s, id, held, env, config)
                else ReconcileInvalid(s, id, held, env);
            After(w, id, env, config) == Conclude(r.0, id, r.1)
  {
    hide Buildable, ReconcileBuilt, ReconcileInvalid, Conclude;
  }

  /** A reconcile that applies objects, taken apart. */
  lemma BuiltShape(w: World, id: ClaimId, env: Env, config: Config)
    requires Proceeds(w, id, env) && Buildable(id, w.claims[id].spec)
    ensures var ms, n, s, after := ManifestsOf(w, id, config), Progress(w, id, env, config), Started(w, id),
        After(w, id, env, config);
            var held := Held(w, id);
            && after.objects == ApplyPrefix(s, ms, env, Effects(w, id, env, config)).objects
            && after.drift == w.drift + (if InSync(held) && config.hasRecorder
                                         then DriftEvents(id, Corrections(s, ms, env, n, config.hasReader)) else [])
            && after.claims == (if env.statusFails then s.claims
                else s.claims[id := StatusWritten(id, held, env, config)])
            && (!env.statusFails && n == |ms| && !env.rollout.RolloutUnreadable? ==>
                  after.queue == ApplyPrefix(s, ms, env, |ms|).queue && after.timers == w.timers + {id})
  {
    hide Buildable, Started, Objects, Reach, Landed, ApplyPrefix, Corrections, DriftEvents, InSync, Worked,
        StatusWritten,
        After, StoreClaim, Conclude, ClaimChanged;
    Proceeding(w, id, env, config);
    var s, held := Started(w, id), Held(w, id);
    WorkedShape(s, id, held, env, config);
    UnadmittedStatus(id, held, env, config);
    EndingShape(Worked(s, id, held, env, config), id, StatusWritten(id, held, env, config), env,
        AllApplied(id, held, env, config));
  }

  /** The end of a reconcile that applied objects: the status write, and the requeue. */
  function Ending(worked: World, id: ClaimId, status: Claim, env: Env, applied: bool): World {
    if env.statusFails then Conclude(worked, id, Failed)
    else
      Conclude(StoreClaim(worked, id, Some(status)), id,
               if !applied || env.rollout.RolloutUnreadable? then Failed else RequeueAfter(SLO_REFRESH_SECONDS))
  }

  lemma EndingShape(worked: World, id: ClaimId, status: Claim, env: Env, applied: bool)
    requires id in worked.claims && !ClaimChanged(worked.claims[id], status)
    ensures var after := Ending(worked, id, status, env, applied);
            && after.objects == worked.objects && after.drift == worked.drift
            && after.claims == (if env.statusFails then worked.claims else worked.claims[id := status])
            && (!env.statusFails && applied && !env.rollout.RolloutUnreadable? ==>
                  after.queue == worked.queue && after.timers == worked.timers + {id})
  {}

  lemma WorkedShape(s: World, id: ClaimId, claim: Claim, env: Env, config: Config)
    ensures var ms := Objects(id, claim.spec, config.linked);
            var n := Reach(env, |ms|);
            var prefix, worked := ApplyPrefix(s, ms, env, Landed(env, |ms|)), Worked(s, id, claim, env, config);
            && worked.objects == prefix.objects && worked.queue == prefix.queue
            && worked.claims == s.claims && worked.timers == s.timers
            && worked.drift == s.drift + (if InSync(claim) && config.hasRecorder
                                          then DriftEvents(id, Corrections(s, ms, env, n, config.hasReader)) else [])
  {
    var ms := Objects(id, claim.spec, config.linked);
    PrefixKeepsRest(s, ms, env, Landed(env, |ms|));
    hide Objects, Reach, Landed, ApplyPrefix, Corrections, DriftEvents, InSync;
  }

  /** A status write to a claim that is not being deleted does not enqueue it. */
  lemma UnadmittedStatus(id: ClaimId, claim: Claim, env: Env, config: Config)
    requires !claim.deleting
    ensures !ClaimChanged(claim, StatusWritten(id, claim, env, config))
  {
    hide Objects, Reach, ConditionsOf, Evaluate, InputsOf;
  }

  lemma StatusKeepsClaim(id: ClaimId, claim: Claim, env: Env, config: Config)
    ensures var c := StatusWritten(id, claim, env, config);
            c.spec == claim.spec && c.deleting == claim.deleting && c.finalizer == claim.finalizer
                && c.others == claim.others
  {
    hide Objects, Reach, ConditionsOf, InputsOf;
  }

  lemma {:induction false} PrefixKeepsRest(w: World, ms: seq<Manifest>, env: Env, n: nat)
    requires n <= |ms|
    ensures ApplyPrefix(w, ms, env, n).(objects := w.objects, queue := w.queue) == w
  {
    hide ApplyPatch, PatchOf, TurnAt;
    if n > 0 {
      PrefixKeepsRest(w, ms, env, n - 1);
    }
  }

  /** A reconcile of a spec that cannot be built, taken apart. */
  lemma InvalidShape(w: World, id: ClaimId, env: Env, config: Config)
    requires Proceeds(w, id, env) && !Buildable(id, w.claims[id].spec)
    ensures var s, after, held := Started(w, id), After(w, id, env, config), Held(w, id);
            && after.objects == w.objects && after.drift == w.drift && after.timers == w.timers
            && after.claims ==
               (if env.statusFails then s.claims
                else s.claims[id := InvalidWritten(held, env.now)])
            && (!env.statusFails ==> after.queue == s.queue)
  {
    hide Buildable, InvalidConditions, After, Started, Reconciled, UpsertAll;
    Proceeding(w, id, env, config);
  }

  // ----- Drift, over everything that happens between two reconciles -----

  /** The objects after edits by other parties, in any interleaving. */
  function EditObjects(objects: map<Key, Object>, edits: seq<(Key, Timed)>): map<Key, Object> {
    if edits == [] then objects
    else
      var before, last := EditObjects(objects, edits[..|edits| - 1]), edits[|edits| - 1];
      Put(before, last.0, Edited(Get(before, last.0), last.1.edit, last.1.time))
  }

  /** The edits made to one object. */
  function EditsTo(edits: seq<(Key, Timed)>, k: Key): seq<Timed> {
    if edits == [] then []
    else EditsTo(edits[..|edits| - 1], k) + if edits[|edits| - 1].0 == k then [edits[|edits| - 1].1] else []
  }

  lemma {:induction false} EditsProject(objects: map<Key, Object>, edits: seq<(Key, Timed)>, k: Key)
    ensures Get(EditObjects(objects, edits), k) == EditedAll(Get(objects, k), EditsTo(edits, k))
  {
    hide Edited;
    if edits != [] {
      var init := edits[..|edits| - 1];
      EditsProject(objects, init, k);
      if edits[|edits| - 1].0 == k {
        assert EditsTo(edits, k)[..|EditsTo(edits, k)| - 1] == EditsTo(init, k);
      } else {
        assert EditsTo(edits, k) == EditsTo(init, k);
      }
    }
  }

  /** Some edit along the way took the object away, changed a desired value, or took away the
      controller's ownership of one. */
  ghost predicate Disturbed(start: map<Key, Object>, edits: seq<(Key, Timed)>, m: Manifest) {
    DisturbedWithin(Get(start, m.key), EditsTo(edits, m.key), |EditsTo(edits, m.key)|, PatchOf(m.content))
  }

  /** An object the apply has to put back. One of a manifest known from before, settled and then edited, is
      if the edits disturbed it; one of a new manifest if it is missing, or the apply changes its entry. */
  ghost predicate PutBack(start: map<Key, Object>, edits: seq<(Key, Timed)>, known: seq<Manifest>, m: Manifest,
      now: nat) {
    if m in known then Disturbed(start, edits, m)
        else Reported(Get(EditObjects(start, edits), m.key), PatchOf(m.content), now)
  }

  /** The first n manifests' objects to put back, in order, each with whether it is gone. */
  ghost function Disturbances(
      start: map<Key, Object>, edits: seq<(Key, Timed)>, known: seq<Manifest>, ms: seq<Manifest>, env: Env,
          n: nat): seq<Correction>
    requires n <= |ms|
  {
    if n == 0 then []
    else
      Disturbances(start, edits, known, ms, env, n - 1)
      + if PutBack(start, edits, known, ms[n - 1], TurnAt(env, n - 1).now)
        then [Correction(ms[n - 1].key, Get(EditObjects(start, edits), ms[n - 1].key).None?)] else []
  }

  /** Everything in the list was settled at the start, and only other parties have edited it since. */
  ghost predicate SettledThenEdited(start: map<Key, Object>, edits: seq<(Key, Timed)>, known: seq<Manifest>) {
    forall m :: m in known ==>
      && IsSettled(Get(start, m.key), PatchOf(m.content))
      && AllForeign(Get(start, m.key), EditsTo(edits, m.key))
  }

  lemma DisturbedIffReported(start: map<Key, Object>, edits: seq<(Key, Timed)>, m: Manifest, now: nat)
    requires PatchOf(m.content) != map[] && IsSettled(Get(start, m.key), PatchOf(m.content))
    requires AllForeign(Get(start, m.key), EditsTo(edits, m.key))
    ensures var live := Get(EditObjects(start, edits), m.key);
            && (Reported(live, PatchOf(m.content), now) <==> Disturbed(start, edits, m))
            && (!Disturbed(start, edits, m) ==> Some(ApplyPatch(live, PatchOf(m.content), now)) == live)
  {
    EditsProject(start, edits, m.key);
    hide Reported, DisturbedWithin, ApplyPatch, PatchOf, AllForeign, EditedAll, EditObjects, Settled;
    DriftHistory(Get(start, m.key).value, EditsTo(edits, m.key), PatchOf(m.content), now);
  }

  lemma {:induction false} ExpectedAreDisturbances(
      start: map<Key, Object>, edits: seq<(Key, Timed)>, known: seq<Manifest>, w: World, ms: seq<Manifest>, env: Env,
          n: nat)
    requires n <= |ms| && w.objects == EditObjects(start, edits) && SettledThenEdited(start, edits, known)
    requires forall m :: m in ms ==> PatchOf(m.content) != map[]
    ensures Expected(w, ms, env, n) == Disturbances(start, edits, known, ms, env, n)
  {
    hide Reported, DisturbedWithin, ApplyPatch, PatchOf, AllForeign, EditObjects, Settled, TurnAt, Disturbed;
    if n > 0 {
      ExpectedAreDisturbances(start, edits, known, w, ms, env, n - 1);
      assert ms[n - 1] in ms;
      if ms[n - 1] in known {
        DisturbedIffReported(start, edits, ms[n - 1], TurnAt(env, n - 1).now);
      }
    }
  }

  /** Every manifest carries its claim's labels, so no patch is empty. */
  lemma PatchesCarryLabels(id: ClaimId, spec: Spec, linked: bool)
    requires id.name != "" && id.namespace != ""
    ensures forall m :: m in Objects(id, spec, linked) ==> PatchOf(m.content) != map[]
    ensures forall m :: m in Objects(id, spec, linked) ==>
              ClaimForObject(PatchOf(m.content)) == Some(id) && BelongsTo(PatchOf(m.content), id)
                  && Visible(PatchOf(m.content))
  {
    BuiltObjects(id, spec, linked);
    hide Objects, PatchOf;
    forall m | m in Objects(id, spec, linked)
      ensures PatchOf(m.content) != map[]
      ensures ClaimForObject(PatchOf(m.content)) == Some(id) && BelongsTo(PatchOf(m.content), id)
          && Visible(PatchOf(m.content))
    {
      assert WellPlaced(m, id, linked);
      forall tag ensures LabelOf(PatchOf(m.content), tag) == LabelOf(m.content, tag) {
        PatchKeepsLabels(m.content, tag);
      }
      RoutesByLabels(PatchOf(m.content), m.content);
      assert LabelOf(PatchOf(m.content), LABEL_CLAIM) != "";
      assert LabelPath(LABEL_CLAIM) in PatchOf(m.content);
    }
  }

  /** Drift detection is exact. Whatever other parties did to the objects since the known ones among them
      were last settled, the reconcile of a claim whose stored ResourcesSynced is True and was observed at
      its current generation records, in list order, exactly the applied objects it put back, recreated
      when they were gone: known ones that were disturbed, new ones that are missing or whose entry the
      apply changes. A known object that was not disturbed, and any that was not reached, is stored
      unchanged; and for any other claim, or without an API reader or a recorder, nothing is recorded. */
  lemma DriftReportedExactly(
      start: map<Key, Object>, edits: seq<(Key, Timed)>, known: seq<Manifest>, w: World, id: ClaimId, env: Env,
          config: Config)
    requires w.objects == EditObjects(start, edits) && SettledThenEdited(start, edits, known)
    requires Proceeds(w, id, env) && Buildable(id, w.claims[id].spec)
    requires id.name != "" && id.namespace != ""
    ensures var ms, n := ManifestsOf(w, id, config), Progress(w, id, env, config);
            var after, synced := After(w, id, env, config), Find(w.claims[id].conditions, RESOURCES_SYNCED);
            && after.drift == w.drift
                 + (if && synced.Some? && synced.value.status == True
                       && synced.value.observedGeneration == w.claims[id].generation
                       && config.hasReader && config.hasRecorder
                    then DriftEvents(id, Disturbances(start, edits, known, ms, env, n)) else [])
            && (forall i :: 0 <= i < |ms| && (i < Effects(w, id, env, config) ==>
                ms[i] in known && !Disturbed(start, edits, ms[i])) ==>
                  Get(after.objects, ms[i].key) == Get(w.objects, ms[i].key))
  {
    var ms, n, s := ManifestsOf(w, id, config), Progress(w, id, env, config), Started(w, id);
    hide *;
    EventsRecorded(w, id, env, config);
    PassOf(w, id, env, config);
    ExpectedAreDisturbances(start, edits, known, s, ms, env, n);
    KeptObjects(start, edits, known, s, ms, env, Effects(w, id, env, config));
  }

  /** What a reconcile that applies objects records, read off the objects it started from. */
  lemma EventsRecorded(w: World, id: ClaimId, env: Env, config: Config)
    requires Proceeds(w, id, env) && Buildable(id, w.claims[id].spec) && id.name != "" && id.namespace != ""
    ensures var ms, n := ManifestsOf(w, id, config), Progress(w, id, env, config);
            var synced := Find(w.claims[id].conditions, RESOURCES_SYNCED);
            After(w, id, env, config).drift == w.drift
              + (if && synced.Some? && synced.value.status == True
                    && synced.value.observedGeneration == w.claims[id].generation
                    && config.hasReader && config.hasRecorder
                 then DriftEvents(id, Expected(Started(w, id), ms, env, n)) else [])
  {
    hide After, Buildable, Objects, ApplyPrefix, Expected, Started, Reach, Landed, StatusWritten,
        DistinctKeys, Find, WellPlaced;
    var ms, n, s := ManifestsOf(w, id, config), Progress(w, id, env, config), Started(w, id);
    BuiltShape(w, id, env, config);
    BuiltObjects(id, w.claims[id].spec, config.linked);
    if config.hasReader {
      CorrectionsReadStart(s, ms, env, n);
    } else {
      assert DriftEvents(id, Corrections(s, ms, env, n, false)) == [];
    }
  }

  lemma PassOf(w: World, id: ClaimId, env: Env, config: Config)
    requires Proceeds(w, id, env) && Buildable(id, w.claims[id].spec) && id.name != "" && id.namespace != ""
    ensures var ms := ManifestsOf(w, id, config);
            && After(w, id, env, config).objects
                == ApplyPrefix(Started(w, id), ms, env, Effects(w, id, env, config)).objects
            && DistinctKeys(ms) && forall m :: m in ms ==> PatchOf(m.content) != map[]
  {
    hide After, Buildable, Objects, ApplyPrefix, Started, Reach, Landed, StatusWritten, Corrections, InSync,
        DriftEvents, PatchOf, WellPlaced, DistinctKeys;
    BuiltShape(w, id, env, config);
    BuiltObjects(id, w.claims[id].spec, config.linked);
    PatchesCarryLabels(id, w.claims[id].spec, config.linked);
  }

  lemma KeptObjects(
      start: map<Key, Object>, edits: seq<(Key, Timed)>, known: seq<Manifest>, s: World, ms: seq<Manifest>, env: Env,
          n: nat)
    requires n <= |ms| && s.objects == EditObjects(start, edits) && SettledThenEdited(start, edits, known)
    requires DistinctKeys(ms) && forall m :: m in ms ==> PatchOf(m.content) != map[]
    ensures forall i :: 0 <= i < |ms| && (i < n ==> ms[i] in known && !Disturbed(start, edits, ms[i])) ==>
              Get(ApplyPrefix(s, ms, env, n).objects, ms[i].key) == Get(s.objects, ms[i].key)
  {
    hide ApplyPrefix, EditObjects, Disturbed, PatchOf, ApplyPatch, TurnAt, Get, Settled, AllForeign;
    forall i | 0 <= i < |ms| && (i < n ==> ms[i] in known && !Disturbed(start, edits, ms[i]))
      ensures Get(ApplyPrefix(s, ms, env, n).objects, ms[i].key) == Get(s.objects, ms[i].key)
    {
      PassExact(s, ms, env, n, ms[i].key);
      if i < n {
        assert ms[i] in ms;
        DisturbedIffReported(start, edits, ms[i], TurnAt(env, i).now);
      }
    }
  }

  lemma {:induction false} MissingExpected(w: World, ms: seq<Manifest>, env: Env, n: nat, i: nat)
    requires i < n <= |ms| && Get(w.objects, ms[i].key).None?
    ensures Correction(ms[i].key, true) in Expected(w, ms, env, n)
    decreases n
  {
    hide ApplyPatch, PatchOf, SameOwnership, TurnAt;
    if i < n - 1 {
      MissingExpected(w, ms, env, n - 1, i);
    }
  }

  /** The reconcile of an in-sync claim records every applied object that was missing, whoever is to blame:
      also one that never was there. */
  lemma MissingIsRecorded(w: World, id: ClaimId, env: Env, config: Config, i: nat)
    requires Proceeds(w, id, env) && Buildable(id, w.claims[id].spec)
    requires var synced := Find(w.claims[id].conditions, RESOURCES_SYNCED);
             synced.Some? && synced.value.status == True
                 && synced.value.observedGeneration == w.claims[id].generation
    requires config.hasReader && config.hasRecorder && id.name != "" && id.namespace != ""
    requires i < Progress(w, id, env, config) && Get(w.objects, ManifestsOf(w, id, config)[i].key).None?
    ensures var after := After(w, id, env, config);
            |w.drift| <= |after.drift|
                && (id, Correction(ManifestsOf(w, id, config)[i].key, true)) in after.drift[|w.drift|..]
  {
    hide After, Buildable, Objects, Expected, Started, Reach, DriftEvents, Find;
    var ms, n, s := ManifestsOf(w, id, config), Progress(w, id, env, config), Started(w, id);
    EventsRecorded(w, id, env, config);
    MissingExpected(s, ms, env, n, i);
    EventOf(id, Expected(s, ms, env, n), Correction(ms[i].key, true));
    assert After(w, id, env, config).drift[|w.drift|..] == DriftEvents(id, Expected(s, ms, env, n));
  }

  lemma EventOf(id: ClaimId, corrections: seq<Correction>, c: Correction)
    requires c in corrections
    ensures (id, c) in DriftEvents(id, corrections)
  {
    var i :| 0 <= i < |corrections| && corrections[i] == c;
    assert DriftEvents(id, corrections)[i] == (id, c);
  }
}
