/** The cluster as the operator sees it, and what one reconcile does to it
    (internal/controller/serviceclaim_controller.go, apply.go, drift.go). Every write raises the watch
    events that fill the work queue. Reads, clocks and failures come from an environment. */
module World {
  import opened Builders
  import opened Conditions
  import opened Drift
  import opened Outcomes
  import opened Readiness
  import opened ServerSideApply
  import opened SloStatus
  import PromQL

  // ----- State -----

  /** Where a claim's storage is. */
  datatype StorageStatus = StorageStatus(bucket: string, roleArn: string)

  datatype ClaimStatus = ClaimStatus(
    managed: nat, observedGeneration: int, reconciledAt: nat, budgetShown: bool, burnRateShown: bool,
    storage: Option<StorageStatus>)

  /** finalizer is the controller's; others is whether anyone else holds one. */
  datatype Claim = Claim(
    spec: Spec, generation: int, deleting: bool, finalizer: bool, others: bool,
    labels: map<string, string>, annotations: map<string, string>,
    conditions: seq<Condition>, status: ClaimStatus)

  /** A managed object the controller had to put back. */
  datatype Correction = Correction(key: Key, recreated: bool)

  datatype World = World(
    objects: map<Key, Object>,
    claims: map<ClaimId, Claim>,
    queue: set<ClaimId>,
    timers: set<ClaimId>,
    drift: seq<(ClaimId, Correction)>)

  /** How the operator was started: linked to an AWS account, with an API reader, with a recorder, and how
      the account's names are made. */
  datatype Config = Config(linked: bool, hasReader: bool, hasRecorder: bool, storageOf: ClaimId -> StorageStatus)

  // ----- The environment of one reconcile -----

  /** An apply that fails changes nothing, unless only its response was lost. */
  datatype Fault = NoFault | ConversionFails | ReadFails | ApplyFails | ResponseLost

  /** What happens when one object is applied, and the second it happens in. */
  datatype Turn = Turn(fault: Fault, now: nat)

  datatype Env = Env(
    claimReadFails: bool, finalizerFails: bool,
    turns: seq<Turn>, now: nat,
    prometheus: Option<Prometheus>, rnd: real -> real,
    role: Observed, bucket: Observed, rollout: RolloutRead,
    statusFails: bool, namespaceReadFails: bool, deleteFails: bool)

  function TurnAt(env: Env, i: nat): Turn {
    if i < |env.turns| then env.turns[i] else Turn(NoFault, env.now)
  }

  /** How many of the first n applies succeed before one fails. */
  function Reach(env: Env, n: nat): (r: nat)
    ensures r <= n && forall i :: 0 <= i < r ==> TurnAt(env, i).fault == NoFault
    ensures r < n ==> TurnAt(env, r).fault != NoFault
  {
    if n == 0 then 0
    else
      var r := Reach(env, n - 1);
      if r == n - 1 && TurnAt(env, n - 1).fault == NoFault then n else r
  }

  /** How many of the first n applies take effect: those that succeed, and a failing one whose response
      was lost. */
  function Landed(env: Env, n: nat): (l: nat)
    ensures Reach(env, n) <= l <= n && l <= Reach(env, n) + 1
    ensures Reach(env, n) == n ==> l == n
  {
    var r := Reach(env, n);
    if r < n && TurnAt(env, r).fault == ResponseLost then r + 1 else r
  }

  /** The claim's ACK objects as they were read, one for each storage kind. */
  function StorageReads(env: Env): seq<Observed> {
    [env.role, env.bucket]
  }

  datatype ReconcileResult = Done | RequeueAfter(seconds: nat) | Failed

  const SLO_REFRESH_SECONDS := 60
  const NAMESPACE_POLL_SECONDS := 5

  // ----- Writes and the events they raise -----

  function Get(objects: map<Key, Object>, key: Key): Option<Object> {
    if key in objects then Some(objects[key]) else None
  }

  function Put(objects: map<Key, Object>, key: Key, o: Option<Object>): map<Key, Object> {
    if o.Some? then objects[key := o.value] else objects - {key}
  }

  /** The claims a watch event for this version of an object enqueues. */
  function Routes(o: Option<Object>): set<ClaimId> {
    if o.Some? && Visible(o.value.fields) && ClaimForObject(o.value.fields).Some? then
      {ClaimForObject(o.value.fields).value}
    else {}
  }

  /** Stores an object. A changed object is an event that maps both its versions; storing what is
      stored already is no event. */
  function StoreObject(w: World, key: Key, after: Option<Object>): World {
    var before := Get(w.objects, key);
    if before == after then w
    else w.(objects := Put(w.objects, key, after), queue := w.queue + Routes(before) + Routes(after))
  }

  /** claimChanged, for an update. */
  predicate ClaimChanged(before: Claim, after: Claim) {
    || before.generation != after.generation
    || before.labels != after.labels
    || before.annotations != after.annotations
    || after.deleting
  }

  /** Stores or removes a claim. Creations and deletions are always admitted to the queue. */
  function StoreClaim(w: World, id: ClaimId, after: Option<Claim>): World {
    var admitted := !(id in w.claims && after.Some?) || ClaimChanged(w.claims[id], after.value);
    w.(claims := if after.Some? then w.claims[id := after.value] else w.claims - {id},
       queue := if admitted then w.queue + {id} else w.queue)
  }

  // ----- Applying objects -----

  /** unstructured.RemoveNestedField, on leaf paths. */
  function Without(content: Fields, prefix: Path): Fields {
    map f | f in content && !(prefix <= f) :: content[f]
  }

  const CREATION_TIMESTAMP: Path := ["metadata", "creationTimestamp"]
  const TEMPLATE_TIMESTAMP: Path := ["spec", "template", "metadata", "creationTimestamp"]
  const STATUS: Path := ["status"]

  /** toApplyObject: what an apply sends of a built object. */
  function PatchOf(content: Fields): Fields {
    Without(Without(Without(content, CREATION_TIMESTAMP), TEMPLATE_TIMESTAMP), STATUS)
  }

  function ApplyOne(w: World, m: Manifest, now: nat): World {
    StoreObject(w, m.key, Some(ApplyPatch(Get(w.objects, m.key), PatchOf(m.content), now)))
  }

  /** The world after the first n applies of a pass. */
  function ApplyPrefix(w: World, ms: seq<Manifest>, env: Env, n: nat): World
    requires n <= |ms|
  {
    if n == 0 then w else ApplyOne(ApplyPrefix(w, ms, env, n - 1), ms[n - 1], TurnAt(env, n - 1).now)
  }

  /** The correction an apply makes, with an API reader. */
  function CorrectionOf(w: World, m: Manifest, now: nat): seq<Correction> {
    var live := Get(w.objects, m.key);
    if Reported(live, PatchOf(m.content), now) then [Correction(m.key, live.None?)] else []
  }

  function Corrections(w: World, ms: seq<Manifest>, env: Env, n: nat, hasReader: bool): seq<Correction>
    requires n <= |ms|
  {
    if n == 0 || !hasReader then []
    else
      Corrections(w, ms, env, n - 1, hasReader)
      + CorrectionOf(ApplyPrefix(w, ms, env, n - 1), ms[n - 1], TurnAt(env, n - 1).now)
  }

  // ----- Reconciling a claim that is not being deleted -----

  /** inSyncAtGeneration. */
  predicate InSync(claim: Claim) {
    var synced := Find(claim.conditions, RESOURCES_SYNCED);
    synced.Some? && synced.value.status == True && synced.value.observedGeneration == claim.generation
  }

  function DriftEvents(id: ClaimId, corrections: seq<Correction>): seq<(ClaimId, Correction)> {
    seq(|corrections|, i requires 0 <= i < |corrections| => (id, corrections[i]))
  }

  const APPLIED := "Applied"
  const APPLY_FAILED := "ApplyFailed"

  function SyncedCondition(claim: Claim, applied: nat, wanted: nat): Condition {
    if applied == wanted then Condition(RESOURCES_SYNCED, True, APPLIED, claim.generation)
    else Condition(RESOURCES_SYNCED, False, APPLY_FAILED, claim.generation)
  }

  function SloCondition(claim: Claim, report: SloReport): Condition {
    Condition(SLO_HEALTHY, report.status, report.reason, claim.generation)
  }

  function InputsOf(id: ClaimId, claim: Claim, env: Env): SloInputs {
    SloInputs(env.prometheus, claim.spec.objective,
        PromQL.ErrorRatioExpr(claim.spec.sli, NamespaceName(id), claim.spec.window).Some?, env.rnd)
  }

  /** evaluateStorage's condition: none for a claim without storage. */
  function StorageConditionOf(claim: Claim, env: Env, config: Config): Option<Condition> {
    if !claim.spec.storage then None
    else if !config.linked then Some(Condition(STORAGE_READY, False, STORAGE_UNAVAILABLE, claim.generation))
    else Some(StorageOutcome(StorageReads(env), claim.generation))
  }

  /** evaluateStorage's status: where the storage of a claim that asked for it is, on a linked cluster. */
  function StorageStatusOf(id: ClaimId, claim: Claim, config: Config): Option<StorageStatus> {
    if claim.spec.storage && config.linked then Some(config.storageOf(id)) else None
  }

  /** The conditions a reconcile that applied its objects, or failed to, writes. */
  function ConditionsOf(id: ClaimId, claim: Claim, applied: nat, wanted: nat, env: Env,
      config: Config): seq<Condition> {
    var synced := SyncedCondition(claim, applied, wanted);
    var report := Evaluate(InputsOf(id, claim, env));
    var storage := StorageConditionOf(claim, env, config);
    [synced, SloCondition(claim, report), FreezeCondition(claim.generation, claim.conditions, report)]
    + (if storage.Some? then [storage.value] else [])
    + [ReadyCondition(claim.generation, synced, storage, env.rollout)]
  }

  /** The conditions of a spec that cannot be built. */
  function InvalidConditions(claim: Claim): seq<Condition> {
    var invalid := Condition(RESOURCES_SYNCED, False, INVALID_SPEC, claim.generation);
    var report := Fails(Unknown, INVALID_SPEC);
    [invalid, SloCondition(claim, report), FreezeCondition(claim.generation, claim.conditions, report),
     ReadyCondition(claim.generation, invalid, None, RolloutNotFound)]
  }

  function WithStatus(claim: Claim, updates: seq<Condition>, managed: nat, report: SloReport,
      storage: Option<StorageStatus>, now: nat): Claim {
    claim.(conditions := UpsertAll(claim.conditions, updates),
           status := ClaimStatus(managed, claim.generation, now, report.budgetShown, report.burnRateShown, storage))
  }

  /** A reconcile that ends in an error puts the claim back in the queue; one that asks to be run again
      later leaves a timer. */
  function Conclude(w: World, id: ClaimId, result: ReconcileResult): World {
    match result
    case Done => w
    case RequeueAfter(_) => w.(timers := w.timers + {id})
    case Failed => w.(queue := w.queue + {id})
  }

  /** A claim whose spec cannot be built, with the status a reconcile writes. */
  function InvalidWritten(claim: Claim, now: nat): Claim {
    WithStatus(claim, InvalidConditions(claim), 0, Fails(Unknown, INVALID_SPEC), None, now)
  }

  function ReconcileInvalid(w: World, id: ClaimId, claim: Claim, env: Env): (World, ReconcileResult) {
    if env.statusFails then (w, Failed)
    else
      (StoreClaim(w, id, Some(InvalidWritten(claim, env.now))), Done)
  }

  /** The world once the objects are applied, as far as that goes, and drift is reported. */
  function Worked(w: World, id: ClaimId, claim: Claim, env: Env, config: Config): World {
    var ms := Objects(id, claim.spec, config.linked);
    var n := Reach(env, |ms|);
    var applied := ApplyPrefix(w, ms, env, Landed(env, |ms|));
    var corrections := Corrections(w, ms, env, n, config.hasReader);
    if InSync(claim) && config.hasRecorder then applied.(drift := applied.drift + DriftEvents(id, corrections))
        else applied
  }

  /** The claim with the status such a reconcile writes. */
  function StatusWritten(id: ClaimId, claim: Claim, env: Env, config: Config): Claim {
    var wanted := |Objects(id, claim.spec, config.linked)|;
    var n := Reach(env, wanted);
    WithStatus(claim, ConditionsOf(id, claim, n, wanted, env, config), n, Evaluate(InputsOf(id, claim, env)),
               StorageStatusOf(id, claim, config), env.now)
  }

  predicate AllApplied(id: ClaimId, claim: Claim, env: Env, config: Config) {
    var wanted := |Objects(id, claim.spec, config.linked)|;
    Reach(env, wanted) == wanted
  }

  function ReconcileBuilt(w: World, id: ClaimId, claim: Claim, env: Env, config: Config): (World, ReconcileResult) {
    var worked := Worked(w, id, claim, env, config);
    if env.statusFails then (worked, Failed)
    else
      (StoreClaim(worked, id, Some(StatusWritten(id, claim, env, config))),
       if !AllApplied(id, claim, env, config) || env.rollout.RolloutUnreadable? then Failed
           else RequeueAfter(SLO_REFRESH_SECONDS))
  }

  function ReconcileLive(w: World, id: ClaimId, claim: Claim, env: Env, config: Config): (World, ReconcileResult) {
    if !claim.finalizer && env.finalizerFails then (w, Failed)
    else
      var held := claim.(finalizer := true);
      var w1 := if claim.finalizer then w else StoreClaim(w, id, Some(held));
      if Buildable(id, claim.spec) then ReconcileBuilt(w1, id, held, env, config)
          else ReconcileInvalid(w1, id, held, env)
  }

  // ----- Finalizing a deleted claim -----

  /** The namespace as the cached client returns it: an object without the managed-by label looks
      absent. */
  function CachedNamespace(w: World, id: ClaimId): Option<Object> {
    var ns := Get(w.objects, NamespaceKey(id));
    if ns.Some? && Visible(ns.value.fields) then ns else None
  }

  predicate OwnsNamespace(w: World, id: ClaimId) {
    CachedNamespace(w, id).Some? && BelongsTo(CachedNamespace(w, id).value.fields, id)
  }

  /** Releasing the finalizer of a deleted claim lets the API server remove it, once nobody else holds
      one. */
  function LetGo(claim: Claim): Option<Claim> {
    if claim.others then Some(claim.(finalizer := false)) else None
  }

  function Finalize(w: World, id: ClaimId, claim: Claim, env: Env): (World, ReconcileResult) {
    if !claim.finalizer then (w, Done)
    else if env.namespaceReadFails then (w, Failed)
    else if !OwnsNamespace(w, id) then
      if env.finalizerFails then (w, Failed) else (StoreClaim(w, id, LetGo(claim)), Done)
    else
      var ns := CachedNamespace(w, id).value;
      if ns.terminating then (w, RequeueAfter(NAMESPACE_POLL_SECONDS))
      else if env.deleteFails then (w, Failed)
      else (StoreObject(w, NamespaceKey(id), Some(ns.(terminating := true))), RequeueAfter(NAMESPACE_POLL_SECONDS))
  }

  /** Reconcile: takes the claim off the queue and does what its state calls for. */
  function Reconciled(w: World, id: ClaimId, env: Env, config: Config): (World, ReconcileResult) {
    var w0 := w.(queue := w.queue - {id});
    var r :=
      if env.claimReadFails then (w0, Failed)
      else if id !in w.claims then (w0, Done)
      else if w.claims[id].deleting then Finalize(w0, id, w.claims[id], env)
      else ReconcileLive(w0, id, w.claims[id], env, config);
    (Conclude(r.0, id, r.1), r.1)
  }
}
