/** What reconciles never touch: over every run of reconciles, failed or not, edits by other parties and
    changes to claims, a field the builders do not set keeps what other managers last wrote. */
module Frame {
  import opened Builders
  import opened Outcomes
  import opened Passes
  import opened Quiescence
  import opened Reconciles
  import opened ServerSideApply
  import opened World

  /** An object apart from its deletion mark. */
  predicate SameBody(before: Option<Object>, after: Option<Object>) {
    && (before.Some? <==> after.Some?)
    && (before.Some? ==> after.value.fields == before.value.fields && after.value.managed == before.value.managed)
  }

  /** Any reconcile, whatever fails in it, leaves each object's fields and owners as they were, or as one
      apply of the manifest with that key makes them. */
  lemma ObjectAfter(w: World, id: ClaimId, env: Env, config: Config, k: Key) returns (i: nat)
    requires NamedClaims(w)
    ensures var before, after := Get(w.objects, k), Get(After(w, id, env, config).objects, k);
            || SameBody(before, after)
            || (&& Applies(w, id) && i < |ManifestsOf(w, id, config)| && ManifestsOf(w, id, config)[i].key == k
                && after == Some(Applied(w, ManifestsOf(w, id, config)[i], TurnAt(env, i).now)))
  {
    hide After, Objects, Buildable, Applied, Get, TurnAt, Proceeds;
    i := 0;
    if !Proceeds(w, id, env) {
      WithoutProceeding(w, id, env, config, k);
    } else if Applies(w, id) {
      i := BuiltObjectAfter(w, id, env, config, k);
    } else {
      UnbuiltObjectAfter(w, id, env, config, k);
    }
  }

  lemma BuiltObjectAfter(w: World, id: ClaimId, env: Env, config: Config, k: Key) returns (i: nat)
    requires NamedClaims(w) && Proceeds(w, id, env) && Applies(w, id)
    ensures var before, after, ms := Get(w.objects, k), Get(After(w, id, env, config).objects, k),
        ManifestsOf(w, id, config);
            before == after || (i < |ms| && ms[i].key == k && after == Some(Applied(w, ms[i], TurnAt(env, i).now)))
  {
    hide After, Started, Objects, ApplyPrefix, Buildable, Corrections, InSync, DriftEvents, ApplyPatch, PatchOf,
        StatusWritten, DistinctKeys, TurnAt;
    i := 0;
    var ms, n := ManifestsOf(w, id, config), Effects(w, id, env, config);
    BuiltShape(w, id, env, config);
    BuiltObjects(id, w.claims[id].spec, config.linked);
    PassExact(Started(w, id), ms, env, n, k);
    if AmongFirst(ms, n, k) {
      i :| 0 <= i < n && ms[i].key == k;
    }
  }

  lemma UnbuiltObjectAfter(w: World, id: ClaimId, env: Env, config: Config, k: Key)
    requires Proceeds(w, id, env) && !Applies(w, id)
    ensures SameBody(Get(w.objects, k), Get(After(w, id, env, config).objects, k))
  {
    hide After, Started, Buildable, InvalidConditions;
    InvalidShape(w, id, env, config);
  }

  lemma WithoutProceeding(w: World, id: ClaimId, env: Env, config: Config, k: Key)
    requires !Proceeds(w, id, env)
    ensures SameBody(Get(w.objects, k), Get(After(w, id, env, config).objects, k))
  {
    hide Buildable, ReconcileBuilt, ReconcileInvalid, BelongsTo, Visible, Routes;
  }

  /** A field's stored value, if the object and the field are there. */
  function ValueAt(w: World, k: Key, f: Path): Option<string> {
    if k in w.objects && f in w.objects[k].fields then Some(w.objects[k].fields[f]) else None
  }

  /** No existing claim's manifests set the field. */
  ghost predicate NeverSent(w: World, config: Config, k: Key, f: Path) {
    forall id, m :: id in w.claims && m in ManifestsOf(w, id, config) && m.key == k ==> f !in PatchOf(m.content)
  }

  predicate Unowned(w: World, k: Key, f: Path) {
    k in w.objects ==> f !in Owned(w.objects[k])
  }

  /** One reconcile keeps the value of a field that is neither sent nor owned by the controller, and the
      field stays unowned. */
  lemma ReconcileKeepsValue(w: World, id: ClaimId, env: Env, config: Config, k: Key, f: Path)
    requires NamedClaims(w) && NeverSent(w, config, k, f) && Unowned(w, k, f)
    ensures var after := After(w, id, env, config);
            ValueAt(after, k, f) == ValueAt(w, k, f) && Unowned(after, k, f)
  {
    hide After, Objects, Buildable, PatchOf, TurnAt, OwnedByAnother;
    var i := ObjectAfter(w, id, env, config, k);
    if !SameBody(Get(w.objects, k), Get(After(w, id, env, config).objects, k)) {
      assert ManifestsOf(w, id, config)[i] in ManifestsOf(w, id, config);
    }
  }

  // ----- Runs -----

  /** Things that happen to a cluster: a reconcile, another party's edit of an object, any change to the
      claims by their users. */
  datatype Move =
    | Reconcile(id: ClaimId, env: Env)
    | EditObject(key: Key, edit: Edit, at: nat)
    | SetClaims(claims: map<ClaimId, Claim>)

  function Moved(w: World, move: Move, config: Config): World {
    match move
    case Reconcile(id, env) => After(w, id, env, config)
    case EditObject(key, edit, at) => w.(objects := Put(w.objects, key, Edited(Get(w.objects, key), edit, at)))
    case SetClaims(claims) => w.(claims := claims)
  }

  /** Along the run, edits are by other managers and no claim's manifests set the field. */
  ghost predicate Undisputed(w: World, moves: seq<Move>, config: Config, k: Key, f: Path)
    decreases |moves|
  {
    && NamedClaims(w) && NeverSent(w, config, k, f)
    && (moves != [] ==>
          && (moves[0].EditObject? ==> Foreign(moves[0].edit, Get(w.objects, moves[0].key)))
          && Undisputed(Moved(w, moves[0], config), moves[1..], config, k, f))
  }

  /** No reconcile of the run changes the field's value. */
  ghost predicate ReconcilesKeep(w: World, moves: seq<Move>, config: Config, k: Key, f: Path)
    decreases |moves|
  {
    moves != [] ==>
      var next := Moved(w, moves[0], config);
      && (moves[0].Reconcile? ==> ValueAt(next, k, f) == ValueAt(w, k, f))
      && ReconcilesKeep(next, moves[1..], config, k, f)
  }

  lemma EditKeepsUnowned(w: World, key: Key, e: Edit, at: nat, k: Key, f: Path)
    requires Unowned(w, k, f) && Foreign(e, Get(w.objects, key))
    ensures Unowned(w.(objects := Put(w.objects, key, Edited(Get(w.objects, key), e, at))), k, f)
  {}

  /** Over every run: a field no manifest sets, and the controller does not own at the start, is never
      changed by a reconcile; its value is always what others last wrote. */
  lemma {:induction false} OthersKeepTheirFields(w: World, moves: seq<Move>, config: Config, k: Key, f: Path)
    requires Undisputed(w, moves, config, k, f) && Unowned(w, k, f)
    ensures ReconcilesKeep(w, moves, config, k, f)
    decreases |moves|
  {
    hide After, NeverSent, Foreign, Edited, Unowned, ValueAt, NamedClaims;
    if moves != [] {
      var next := Moved(w, moves[0], config);
      match moves[0] {
        case Reconcile(id, env) => ReconcileKeepsValue(w, id, env, config, k, f);
        case EditObject(key, e, at) => EditKeepsUnowned(w, key, e, at, k, f);
        case SetClaims(claims) => assert Unowned(next, k, f) by { UnownedByObjects(w, next, k, f); }
      }
      OthersKeepTheirFields(next, moves[1..], config, k, f);
    }
  }

  lemma UnownedByObjects(w: World, next: World, k: Key, f: Path)
    requires Unowned(w, k, f) && next.objects == w.objects
    ensures Unowned(next, k, f)
  {}

  // ----- Two such fields -----

  /** The controller never sends a status, whatever the builders produce. */
  lemma StatusNeverSent(w: World, config: Config, k: Key, f: Path)
    requires STATUS <= f
    ensures NeverSent(w, config, k, f)
  {}

  /** The list has one Rollout. */
  lemma OnlyRollout(id: ClaimId, spec: Spec, linked: bool, m: Manifest)
    requires m in Objects(id, spec, linked) && m.key.kind == Kind.Rollout
    ensures m == BuildRollout(id, spec, linked)
  {
    hide Leading, Core, Trailing, BuildRollout, Ascending;
    ObjectsAscending(id, spec, linked);
    RolloutLeadsCore(id, spec, linked);
    var ms, r := Objects(id, spec, linked), |Leading(id, spec, linked)|;
    assert ms[r] == Core(id, spec, linked)[0];
    var i :| 0 <= i < |ms| && ms[i] == m;
    SameRank(ms, id, i, r);
  }

  lemma RolloutLeadsCore(id: ClaimId, spec: Spec, linked: bool)
    ensures Core(id, spec, linked) != [] && Core(id, spec, linked)[0] == BuildRollout(id, spec, linked)
        && BuildRollout(id, spec, linked).key.kind == Kind.Rollout
  {
    hide Labels, Payload;
  }

  lemma SameRank(ms: seq<Manifest>, id: ClaimId, i: nat, j: nat)
    requires Ascending(ms, id, 0, 15) && i < |ms| && j < |ms| && Rank(ms[i].key, id) == Rank(ms[j].key, id)
    ensures i == j
  {
    hide Rank;
  }

  /** While every claim of a name is autoscaled, the replica count of its Rollout is never sent. */
  lemma ReplicasNeverSent(w: World, config: Config, id: ClaimId)
    requires NamedClaims(w)
    requires forall c :: c in w.claims && c.name == id.name ==> HasAutoscaling(w.claims[c].spec)
    ensures NeverSent(w, config, KeyOf(id, Kind.Rollout, ""), REPLICAS)
  {
    var k := KeyOf(id, Kind.Rollout, "");
    hide Objects, PatchOf, HasAutoscaling, BuildRollout, NamespaceName;
    forall c, m | c in w.claims && m in ManifestsOf(w, c, config) && m.key == k
        ensures REPLICAS !in PatchOf(m.content) {
      OnlyRollout(c, w.claims[c].spec, config.linked, m);
      RolloutPlaced(c, w.claims[c].spec, config.linked);
      KeyNamesClaim(c, id);
      PatchIsSmaller(m.content);
    }
  }

  lemma KeyNamesClaim(c: ClaimId, id: ClaimId)
    ensures NamespaceName(c) == NamespaceName(id) ==> c.name == id.name
  {
    assert NamespaceName(c)[4..] == c.name && NamespaceName(id)[4..] == id.name;
  }

  lemma PatchIsSmaller(content: Fields)
    ensures PatchOf(content).Keys <= content.Keys
  {}

  /** Along the run, claims are named, and edits are by other managers. */
  ghost predicate ForeignRun(w: World, moves: seq<Move>, config: Config)
    decreases |moves|
  {
    && NamedClaims(w)
    && (moves != [] ==>
          && (moves[0].EditObject? ==> Foreign(moves[0].edit, Get(w.objects, moves[0].key)))
          && ForeignRun(Moved(w, moves[0], config), moves[1..], config))
  }

  /** Along the run, every claim of the name is autoscaled. */
  ghost predicate AutoscaledRun(w: World, moves: seq<Move>, config: Config, id: ClaimId)
    decreases |moves|
  {
    && (forall c :: c in w.claims && c.name == id.name ==> HasAutoscaling(w.claims[c].spec))
    && (moves != [] ==> AutoscaledRun(Moved(w, moves[0], config), moves[1..], config, id))
  }

  lemma {:induction false} StatusUndisputed(w: World, moves: seq<Move>, config: Config, k: Key, f: Path)
    requires ForeignRun(w, moves, config) && STATUS <= f
    ensures Undisputed(w, moves, config, k, f)
    decreases |moves|
  {
    hide Moved, NeverSent, NamedClaims, Foreign;
    StatusNeverSent(w, config, k, f);
    if moves != [] {
      StatusUndisputed(Moved(w, moves[0], config), moves[1..], config, k, f);
    }
  }

  /** Every path under an object's status that is not the controller's stays as others last wrote it. */
  lemma StatusIsOthers(w: World, moves: seq<Move>, config: Config, k: Key, f: Path)
    requires ForeignRun(w, moves, config) && STATUS <= f && Unowned(w, k, f)
    ensures ReconcilesKeep(w, moves, config, k, f)
  {
    StatusUndisputed(w, moves, config, k, f);
    hide *;
    OthersKeepTheirFields(w, moves, config, k, f);
  }

  lemma {:induction false} ReplicasUndisputed(w: World, moves: seq<Move>, config: Config, id: ClaimId)
    requires ForeignRun(w, moves, config) && AutoscaledRun(w, moves, config, id)
    ensures Undisputed(w, moves, config, KeyOf(id, Kind.Rollout, ""), REPLICAS)
    decreases |moves|
  {
    hide Moved, NeverSent, Foreign, KeyOf, HasAutoscaling;
    ReplicasNeverSent(w, config, id);
    if moves != [] {
      ReplicasUndisputed(Moved(w, moves[0], config), moves[1..], config, id);
    }
  }

  /** So does the replica count of a Rollout whose claims are autoscaled from the time it is missing, or the
      count is not the controller's. */
  lemma ReplicasAreTheAutoscalers(w: World, moves: seq<Move>, config: Config, id: ClaimId)
    requires ForeignRun(w, moves, config) && AutoscaledRun(w, moves, config, id)
    requires Unowned(w, KeyOf(id, Kind.Rollout, ""), REPLICAS)
    ensures ReconcilesKeep(w, moves, config, KeyOf(id, Kind.Rollout, ""), REPLICAS)
  {
    ReplicasUndisputed(w, moves, config, id);
    hide *;
    OthersKeepTheirFields(w, moves, config, KeyOf(id, Kind.Rollout, ""), REPLICAS);
  }

  // ----- Where the frame ends -----

  /** An apply for an autoscaled claim removes the replica count exactly when the controller alone owns it,
      and otherwise keeps it as it is: a claim that was autoscaled from the start never had that, one
      moved from the batch tier does. */
  lemma ReplicasKeptIff(o: Object, id: ClaimId, spec: Spec, linked: bool, now: nat)
    requires HasAutoscaling(spec) && id.name != "" && id.namespace != ""
    ensures var after := ApplyPatch(Some(o), PatchOf(BuildRollout(id, spec, linked).content), now);
            var alone := REPLICAS in Owned(o) && !OwnedByAnother(o, REPLICAS);
            && (REPLICAS in after.fields <==> REPLICAS in o.fields && !alone)
            && (REPLICAS in after.fields ==> after.fields[REPLICAS] == o.fields[REPLICAS])
  {
    hide BuildRollout, PatchOf, HasAutoscaling;
    RolloutPlaced(id, spec, linked);
    var patch := PatchOf(BuildRollout(id, spec, linked).content);
    PatchIsSmaller(BuildRollout(id, spec, linked).content);
    if REPLICAS !in Owned(o) || OwnedByAnother(o, REPLICAS) {
      ApplyFrame(o, patch, now, REPLICAS);
    }
  }

  lemma ReplicasSent(content: Fields)
    requires REPLICAS in content
    ensures REPLICAS in PatchOf(content)
  {
    assert REPLICAS[0] == "spec" && |STATUS| == 1 && STATUS[0] == "status" && |"spec"| == 4 && |"status"| == 6;
    assert |REPLICAS| == 2 && |TEMPLATE_TIMESTAMP| == 4;
    assert CREATION_TIMESTAMP[0] == "metadata" && |"metadata"| == 8;
  }

  /** A claim that moves from the batch tier to an autoscaled one loses the replica count its Rollout was
      created with, whatever autoscaler is there to set a new one. */
  lemma TierChangeDropsReplicas(id: ClaimId, batch: Spec, scaled: Spec, linked: bool, created: nat, now: nat)
    requires !HasAutoscaling(batch) && HasAutoscaling(scaled) && id.name != "" && id.namespace != ""
    ensures var rollout := ApplyPatch(None, PatchOf(BuildRollout(id, batch, linked).content), created);
            && REPLICAS in rollout.fields
            && REPLICAS !in ApplyPatch(Some(rollout), PatchOf(BuildRollout(id, scaled, linked).content), now).fields
  {
    hide BuildRollout, PatchOf, HasAutoscaling;
    RolloutPlaced(id, batch, linked);
    ReplicasSent(BuildRollout(id, batch, linked).content);
    ReplicasKeptIff(ApplyPatch(None, PatchOf(BuildRollout(id, batch, linked).content), created), id, scaled, linked,
        now);
  }
}
