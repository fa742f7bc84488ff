/** The objects a claim's tier requires (internal/builders): which they are, in what order, under which
    keys, and how their labels lead back to the claim. */
module Builders {
  import Alerts
  import opened Budget
  import opened Outcomes
  import opened PromQL
  import opened ServerSideApply

  const TIER_PUBLIC := "public"
  const TIER_INTERNAL := "internal"
  const TIER_BATCH := "batch"

  datatype ClaimId = ClaimId(namespace: string, name: string)

  /** What a developer declares. The payloads hold, by object, the fields whose content is constants and
      formatted text outside this model. */
  datatype Spec = Spec(
    owner: string, image: string, tier: string, storage: bool, scaleMin: int,
    sli: Sli, objective: string, window: string,
    payload: map<Key, Fields>, storagePayload: map<Key, Fields>)

  /** The kinds Build can produce, and any other. */
  datatype Kind =
    | Namespace | ServiceAccount | Role | Bucket | AnalysisTemplate | Rollout | NetworkPolicy
    | PrometheusRule | ServiceMonitor | ConfigMap | Service | HorizontalPodAutoscaler
    | PodDisruptionBudget | Ingress | Unmanaged(name: string)

  datatype Key = Key(kind: Kind, namespace: string, name: string)

  datatype Manifest = Manifest(key: Key, content: Fields)

  // ----- Names and labels -----

  function NamespaceName(id: ClaimId): string {
    "svc-" + id.name
  }

  const LABEL_NAME := "app.kubernetes.io/name"
  const LABEL_MANAGED_BY := "app.kubernetes.io/managed-by"
  const LABEL_CLAIM := "paved.dev/claim"
  const LABEL_CLAIM_NAMESPACE := "paved.dev/claim-namespace"
  const LABEL_OWNER := "paved.dev/owner"
  const MANAGED_BY := "paved"

  function LabelPath(tag: string): Path {
    ["metadata", "labels", tag]
  }

  function LabelOf(fields: Fields, tag: string): string {
    if LabelPath(tag) in fields then fields[LabelPath(tag)] else ""
  }

  function Labels(id: ClaimId, spec: Spec): Fields {
    map[LabelPath(LABEL_NAME) := id.name,
        LabelPath(LABEL_MANAGED_BY) := MANAGED_BY,
        LabelPath(LABEL_CLAIM) := id.name,
        LabelPath(LABEL_CLAIM_NAMESPACE) := id.namespace,
        LabelPath(LABEL_OWNER) := spec.owner]
  }

  lemma LabelNamesDiffer()
    ensures LABEL_NAME != LABEL_MANAGED_BY && LABEL_NAME != LABEL_CLAIM && LABEL_NAME != LABEL_CLAIM_NAMESPACE
    ensures LABEL_NAME != LABEL_OWNER && LABEL_MANAGED_BY != LABEL_CLAIM && LABEL_MANAGED_BY != LABEL_CLAIM_NAMESPACE
    ensures LABEL_MANAGED_BY != LABEL_OWNER && LABEL_CLAIM != LABEL_CLAIM_NAMESPACE && LABEL_CLAIM != LABEL_OWNER
    ensures LABEL_CLAIM_NAMESPACE != LABEL_OWNER
  {
    assert |LABEL_NAME| == 22 && |LABEL_MANAGED_BY| == 28 && |LABEL_CLAIM| == 15;
    assert |LABEL_CLAIM_NAMESPACE| == 25 && |LABEL_OWNER| == 15;
    assert LABEL_CLAIM[10] == 'c' && LABEL_OWNER[10] == 'o';
  }

  /** claimForObject: the claim an object's labels name, if both labels are set. */
  function ClaimForObject(fields: Fields): Option<ClaimId> {
    var name, namespace := LabelOf(fields, LABEL_CLAIM), LabelOf(fields, LABEL_CLAIM_NAMESPACE);
    if name == "" || namespace == "" then None else Some(ClaimId(namespace, name))
  }

  /** The manager caches, and so watches and reads, only objects carrying this label. */
  predicate Visible(fields: Fields) {
    LabelOf(fields, LABEL_MANAGED_BY) == MANAGED_BY
  }

  /** belongsTo. */
  predicate BelongsTo(fields: Fields, id: ClaimId) {
    LabelOf(fields, LABEL_CLAIM) == id.name && LabelOf(fields, LABEL_CLAIM_NAMESPACE) == id.namespace
  }

  // ----- What a tier includes -----

  predicate HasStorage(spec: Spec, linked: bool) {
    spec.storage && linked
  }

  predicate HasCanaryAnalysis(spec: Spec) {
    spec.tier != TIER_BATCH
  }

  predicate HasAutoscaling(spec: Spec) {
    spec.tier == TIER_PUBLIC || spec.tier == TIER_INTERNAL
  }

  const PUBLIC_MIN_REPLICAS := 2

  function MinReplicas(spec: Spec): int {
    if spec.tier == TIER_PUBLIC
        then (if spec.scaleMin < PUBLIC_MIN_REPLICAS then PUBLIC_MIN_REPLICAS else spec.scaleMin)
    else if spec.tier == TIER_INTERNAL then spec.scaleMin
    else 1
  }

  const REPLICAS: Path := ["spec", "replicas"]

  // ----- Objects -----

  function KeyOf(id: ClaimId, kind: Kind, suffix: string): Key {
    Key(kind, NamespaceName(id), id.name + suffix)
  }

  /** The storage a claim has also changes the content of other objects, its Rollout's pods among them. */
  function Payload(spec: Spec, key: Key, linked: bool): Fields {
    var payload := if HasStorage(spec, linked) then spec.storagePayload else spec.payload;
    if key in payload then payload[key] else map[]
  }

  /** An object in the claim's namespace: objectMeta's labels over the payload. */
  function Namespaced(id: ClaimId, spec: Spec, linked: bool, kind: Kind, suffix: string): Manifest {
    var key := KeyOf(id, kind, suffix);
    Manifest(key, Payload(spec, key, linked) + Labels(id, spec))
  }

  function NamespaceKey(id: ClaimId): Key {
    Key(Namespace, "", NamespaceName(id))
  }

  function BuildNamespace(id: ClaimId, spec: Spec): Manifest {
    Manifest(NamespaceKey(id), Labels(id, spec))
  }

  /** The Rollout sends a replica count only when no autoscaler owns it. */
  function BuildRollout(id: ClaimId, spec: Spec, linked: bool): Manifest {
    var m := Namespaced(id, spec, linked, Rollout, "");
    if HasAutoscaling(spec) then m.(content := m.content - {REPLICAS})
    else m.(content := m.content[REPLICAS := Numbers.Itoa(MinReplicas(spec))])
  }

  /** The claim's SLI and SLO make rules. */
  predicate Buildable(id: ClaimId, spec: Spec) {
    && ErrorRatioExpr(spec.sli, NamespaceName(id), "5m").Some?
    && ErrorBudget(spec.objective).Ok?
    && Alerts.SloWindow(spec.window).Some?
  }

  function Core(id: ClaimId, spec: Spec, linked: bool): seq<Manifest> {
    [BuildRollout(id, spec, linked),
     Namespaced(id, spec, linked, NetworkPolicy, ""),
     Namespaced(id, spec, linked, PrometheusRule, ""),
     Namespaced(id, spec, linked, ServiceMonitor, ""),
     Namespaced(id, spec, linked, ConfigMap, "-dashboard"),
     Namespaced(id, spec, linked, ConfigMap, "-runbook")]
  }

  function Leading(id: ClaimId, spec: Spec, linked: bool): seq<Manifest> {
    [BuildNamespace(id, spec), Namespaced(id, spec, linked, ServiceAccount, "")]
    + (if HasStorage(spec, linked)
        then [Namespaced(id, spec, linked, Role, ""), Namespaced(id, spec, linked, Bucket, "")] else [])
    + (if HasCanaryAnalysis(spec) then [Namespaced(id, spec, linked, AnalysisTemplate, "-canary")] else [])
  }

  function Trailing(id: ClaimId, spec: Spec, linked: bool): seq<Manifest> {
    (if HasAutoscaling(spec) then
       [Namespaced(id, spec, linked, Service, ""), Namespaced(id, spec, linked, HorizontalPodAutoscaler, ""),
        Namespaced(id, spec, linked, PodDisruptionBudget, "")]
     else [])
    + (if spec.tier == TIER_PUBLIC then [Namespaced(id, spec, linked, Ingress, "")] else [])
  }

  /** The list Build returns for a claim it can build. */
  function Objects(id: ClaimId, spec: Spec, linked: bool): seq<Manifest> {
    Leading(id, spec, linked) + Core(id, spec, linked) + Trailing(id, spec, linked)
  }

  /** Build: grows the list by what the tier and the storage settings call for. */
  method Build(id: ClaimId, spec: Spec, linked: bool) returns (objects: Option<seq<Manifest>>)
    ensures objects == if Buildable(id, spec) then Some(Objects(id, spec, linked)) else None
  {
    hide Namespaced, BuildNamespace, Core, Buildable;
    if !Buildable(id, spec) {
      return None;
    }
    var list := [BuildNamespace(id, spec), Namespaced(id, spec, linked, ServiceAccount, "")];
    if HasStorage(spec, linked) {
      list := list + [Namespaced(id, spec, linked, Role, ""), Namespaced(id, spec, linked, Bucket, "")];
    }
    if HasCanaryAnalysis(spec) {
      list := list + [Namespaced(id, spec, linked, AnalysisTemplate, "-canary")];
    }
    assert list == Leading(id, spec, linked);
    list := list + Core(id, spec, linked);
    var trailing := [];
    if HasAutoscaling(spec) {
      trailing := trailing + [
        Namespaced(id, spec, linked, Service, ""), Namespaced(id, spec, linked, HorizontalPodAutoscaler, ""),
        Namespaced(id, spec, linked, PodDisruptionBudget, "")];
    }
    if spec.tier == TIER_PUBLIC {
      trailing := trailing + [Namespaced(id, spec, linked, Ingress, "")];
    }
    assert trailing == Trailing(id, spec, linked);
    return Some(list + trailing);
  }

  /** ManagedTypes, and StorageTypes on a linked cluster: the kinds the controller watches. */
  predicate Watched(kind: Kind, linked: bool) {
    match kind
    case Role => linked
    case Bucket => linked
    case Unmanaged(_) => false
    case _ => true
  }

  // ----- What every built list satisfies -----

  /** Where an object stands in a built list. Only the two ConfigMaps share a kind. */
  function Rank(k: Key, id: ClaimId): nat {
    match k.kind
    case Namespace => 1
    case ServiceAccount => 2
    case Role => 3
    case Bucket => 4
    case AnalysisTemplate => 5
    case Rollout => 6
    case NetworkPolicy => 7
    case PrometheusRule => 8
    case ServiceMonitor => 9
    case ConfigMap => if |k.name| == |id.name| + 10 then 10 else 11
    case Service => 12
    case HorizontalPodAutoscaler => 13
    case PodDisruptionBudget => 14
    case Ingress => 15
    case Unmanaged(_) => 0
  }

  ghost predicate Ascending(ms: seq<Manifest>, id: ClaimId, low: nat, high: nat) {
    && (forall i :: 0 <= i < |ms| ==> low < Rank(ms[i].key, id) <= high)
    && (forall i, j :: 0 <= i < j < |ms| ==> Rank(ms[i].key, id) < Rank(ms[j].key, id))
  }

  lemma AscendingConcat(a: seq<Manifest>, b: seq<Manifest>, id: ClaimId, low: nat, mid: nat, high: nat)
    requires Ascending(a, id, low, mid) && Ascending(b, id, mid, high) && low <= mid <= high
    ensures Ascending(a + b, id, low, high)
  {
    hide Rank;
    forall i, j | 0 <= i < j < |a + b| ensures Rank((a + b)[i].key, id) < Rank((a + b)[j].key, id) {}
  }

  lemma LeadingAscending(id: ClaimId, spec: Spec, linked: bool)
    ensures Ascending(Leading(id, spec, linked), id, 0, 5)
  {
    hide Labels, Payload, HasStorage, HasCanaryAnalysis;
  }

  lemma CoreAscending(id: ClaimId, spec: Spec, linked: bool)
    ensures Ascending(Core(id, spec, linked), id, 5, 11)
  {
    hide Labels, Payload, HasAutoscaling;
    assert |"-dashboard"| == 10 && |"-runbook"| == 8;
  }

  lemma TrailingAscending(id: ClaimId, spec: Spec, linked: bool)
    ensures Ascending(Trailing(id, spec, linked), id, 11, 15)
  {
    hide Labels, Payload, HasAutoscaling;
  }

  lemma ObjectsAscending(id: ClaimId, spec: Spec, linked: bool)
    ensures Ascending(Objects(id, spec, linked), id, 0, 15)
  {
    LeadingAscending(id, spec, linked);
    CoreAscending(id, spec, linked);
    TrailingAscending(id, spec, linked);
    hide Leading, Core, Trailing, Ascending;
    AscendingConcat(Leading(id, spec, linked), Core(id, spec, linked), id, 0, 5, 11);
    AscendingConcat(Leading(id, spec, linked) + Core(id, spec, linked), Trailing(id, spec, linked), id, 0, 11, 15);
  }

  predicate DistinctKeys(ms: seq<Manifest>) {
    forall i, j :: 0 <= i < j < |ms| ==> ms[i].key != ms[j].key
  }

  /** A key of claim id: its namespace, or an object inside it. */
  predicate KeyOfClaim(k: Key, id: ClaimId) {
    k == NamespaceKey(id) || k.namespace == NamespaceName(id)
  }

  /** An object carries its claim's routing labels and the label that makes it visible. */
  predicate Routed(m: Manifest, id: ClaimId) {
    ClaimForObject(m.content) == Some(id) && BelongsTo(m.content, id) && Visible(m.content)
  }

  ghost predicate WellPlaced(m: Manifest, id: ClaimId, linked: bool) {
    KeyOfClaim(m.key, id) && Watched(m.key.kind, linked) && Routed(m, id)
  }

  lemma LabelsRoute(id: ClaimId, spec: Spec, payload: Fields)
    requires id.name != "" && id.namespace != ""
    ensures var content := payload + Labels(id, spec);
            ClaimForObject(content) == Some(id) && BelongsTo(content, id) && Visible(content)
  {
    LabelNamesDiffer();
    var content := payload + Labels(id, spec);
    assert LabelPath(LABEL_CLAIM)[2] == LABEL_CLAIM && LabelPath(LABEL_MANAGED_BY)[2] == LABEL_MANAGED_BY;
    assert LabelPath(LABEL_CLAIM_NAMESPACE)[2] == LABEL_CLAIM_NAMESPACE && LabelPath(LABEL_OWNER)[2] == LABEL_OWNER;
    assert LabelOf(content, LABEL_CLAIM) == id.name && LabelOf(content, LABEL_CLAIM_NAMESPACE) == id.namespace;
    assert LabelOf(content, LABEL_MANAGED_BY) == MANAGED_BY;
  }

  /** Changing fields other than labels does not change where an object leads. */
  lemma RoutesByLabels(a: Fields, b: Fields)
    requires forall tag :: LabelOf(a, tag) == LabelOf(b, tag)
    ensures ClaimForObject(a) == ClaimForObject(b) && Visible(a) == Visible(b)
    ensures forall id :: BelongsTo(a, id) == BelongsTo(b, id)
  {}

  lemma NamespacedPlaced(id: ClaimId, spec: Spec, linked: bool, kind: Kind, suffix: string)
    requires id.name != "" && id.namespace != ""
    ensures Routed(Namespaced(id, spec, linked, kind, suffix), id)
        && KeyOfClaim(Namespaced(id, spec, linked, kind, suffix).key, id)
  {
    LabelsRoute(id, spec, Payload(spec, KeyOf(id, kind, suffix), linked));
  }

  lemma RolloutPlaced(id: ClaimId, spec: Spec, linked: bool)
    requires id.name != "" && id.namespace != ""
    ensures Routed(BuildRollout(id, spec, linked), id) && KeyOfClaim(BuildRollout(id, spec, linked).key, id)
    ensures BuildRollout(id, spec, linked).key == KeyOf(id, Rollout, "")
    ensures REPLICAS in BuildRollout(id, spec, linked).content <==> !HasAutoscaling(spec)
  {
    var m := Namespaced(id, spec, linked, Rollout, "");
    NamespacedPlaced(id, spec, linked, Rollout, "");
    forall tag ensures LabelOf(BuildRollout(id, spec, linked).content, tag) == LabelOf(m.content, tag) {
      assert |LabelPath(tag)| == 3 && |REPLICAS| == 2;
    }
    RoutesByLabels(m.content, BuildRollout(id, spec, linked).content);
  }

  lemma NamespacePlaced(id: ClaimId, spec: Spec)
    requires id.name != "" && id.namespace != ""
    ensures Routed(BuildNamespace(id, spec), id) && KeyOfClaim(BuildNamespace(id, spec).key, id)
  {
    LabelsRoute(id, spec, map[]);
    assert map[] + Labels(id, spec) == Labels(id, spec);
  }

  lemma LeadingPlaced(id: ClaimId, spec: Spec, linked: bool)
    requires id.name != "" && id.namespace != ""
    ensures forall m :: m in Leading(id, spec, linked) ==> WellPlaced(m, id, linked)
  {
    hide Routed, KeyOfClaim, Labels, Payload, HasCanaryAnalysis;
    NamespacePlaced(id, spec);
    NamespacedPlaced(id, spec, linked, ServiceAccount, "");
    NamespacedPlaced(id, spec, linked, Role, "");
    NamespacedPlaced(id, spec, linked, Bucket, "");
    NamespacedPlaced(id, spec, linked, AnalysisTemplate, "-canary");
  }

  lemma CorePlaced(id: ClaimId, spec: Spec, linked: bool)
    requires id.name != "" && id.namespace != ""
    ensures forall m :: m in Core(id, spec, linked) ==> WellPlaced(m, id, linked)
  {
    hide Routed, KeyOfClaim, Labels, Payload, HasAutoscaling;
    RolloutPlaced(id, spec, linked);
    NamespacedPlaced(id, spec, linked, NetworkPolicy, "");
    NamespacedPlaced(id, spec, linked, PrometheusRule, "");
    NamespacedPlaced(id, spec, linked, ServiceMonitor, "");
    NamespacedPlaced(id, spec, linked, ConfigMap, "-dashboard");
    NamespacedPlaced(id, spec, linked, ConfigMap, "-runbook");
  }

  lemma TrailingPlaced(id: ClaimId, spec: Spec, linked: bool)
    requires id.name != "" && id.namespace != ""
    ensures forall m :: m in Trailing(id, spec, linked) ==> WellPlaced(m, id, linked)
  {
    hide Routed, KeyOfClaim, Labels, Payload, HasAutoscaling;
    NamespacedPlaced(id, spec, linked, Service, "");
    NamespacedPlaced(id, spec, linked, HorizontalPodAutoscaler, "");
    NamespacedPlaced(id, spec, linked, PodDisruptionBudget, "");
    NamespacedPlaced(id, spec, linked, Ingress, "");
  }

  /** For every spec and storage setting: the Namespace comes first, keys are pairwise distinct, the
      AnalysisTemplate comes before the Rollout, every object is of a watched kind, and its labels lead
      back to exactly its claim. */
  lemma BuiltObjects(id: ClaimId, spec: Spec, linked: bool)
    requires id.name != "" && id.namespace != ""
    ensures var ms := Objects(id, spec, linked);
            && ms != [] && ms[0] == BuildNamespace(id, spec)
            && DistinctKeys(ms)
            && (forall m :: m in ms ==> WellPlaced(m, id, linked))
            && (forall i, j ::
                  0 <= i < |ms| && 0 <= j < |ms| && ms[i].key.kind == AnalysisTemplate && ms[j].key.kind == Rollout
                  ==> i < j)
  {
    hide Ascending, DistinctKeys, Objects, WellPlaced, BuildNamespace;
    ObjectsAscending(id, spec, linked);
    AscendingOrder(Objects(id, spec, linked), id, 0, 15);
    ObjectsPlaced(id, spec, linked);
    NamespaceFirst(id, spec, linked);
  }

  lemma NamespaceFirst(id: ClaimId, spec: Spec, linked: bool)
    ensures Objects(id, spec, linked) != [] && Objects(id, spec, linked)[0] == BuildNamespace(id, spec)
  {
    hide BuildNamespace, Namespaced, Core, Trailing, HasStorage, HasCanaryAnalysis;
  }

  lemma ObjectsPlaced(id: ClaimId, spec: Spec, linked: bool)
    requires id.name != "" && id.namespace != ""
    ensures forall m :: m in Objects(id, spec, linked) ==> WellPlaced(m, id, linked)
  {
    hide Leading, Core, Trailing, WellPlaced;
    LeadingPlaced(id, spec, linked);
    CorePlaced(id, spec, linked);
    TrailingPlaced(id, spec, linked);
    forall m | m in Objects(id, spec, linked) ensures WellPlaced(m, id, linked) {
      assert m in Leading(id, spec, linked) || m in Core(id, spec, linked) || m in Trailing(id, spec, linked);
    }
  }

  /** Ascending ranks mean distinct keys, and put the AnalysisTemplate before the Rollout. */
  lemma AscendingOrder(ms: seq<Manifest>, id: ClaimId, low: nat, high: nat)
    requires Ascending(ms, id, low, high)
    ensures DistinctKeys(ms)
    ensures forall i, j ::
              0 <= i < |ms| && 0 <= j < |ms| && ms[i].key.kind == AnalysisTemplate && ms[j].key.kind == Rollout
              ==> i < j
  {
    forall i, j | 0 <= i < |ms| && 0 <= j < |ms| && ms[i].key.kind == AnalysisTemplate && ms[j].key.kind == Rollout
      ensures i < j
    {
      assert Rank(ms[i].key, id) < Rank(ms[j].key, id);
    }
    hide Rank;
  }

  // ----- Which objects a claim gets -----

  /** The objects besides the Namespace that a tier and the storage setting call for. */
  predicate CalledFor(k: Key, id: ClaimId, spec: Spec, linked: bool) {
    || k in {KeyOf(id, ServiceAccount, ""), KeyOf(id, Rollout, ""), KeyOf(id, NetworkPolicy, ""),
             KeyOf(id, PrometheusRule, ""), KeyOf(id, ServiceMonitor, ""), KeyOf(id, ConfigMap, "-dashboard"),
             KeyOf(id, ConfigMap, "-runbook")}
    || (spec.storage && linked && k in {KeyOf(id, Role, ""), KeyOf(id, Bucket, "")})
    || (spec.tier != TIER_BATCH && k == KeyOf(id, AnalysisTemplate, "-canary"))
    || (spec.tier in {TIER_PUBLIC, TIER_INTERNAL} && k in
          {KeyOf(id, Service, ""), KeyOf(id, HorizontalPodAutoscaler, ""), KeyOf(id, PodDisruptionBudget, "")})
    || (spec.tier == TIER_PUBLIC && k == KeyOf(id, Ingress, ""))
  }

  predicate HasKey(ms: seq<Manifest>, k: Key) {
    exists m :: m in ms && m.key == k
  }

  lemma HasKeyConcat(a: seq<Manifest>, b: seq<Manifest>, k: Key)
    ensures HasKey(a + b, k) <==> HasKey(a, k) || HasKey(b, k)
  {
    if HasKey(a, k) {
      var m :| m in a && m.key == k;
      assert m in a + b;
    }
    if HasKey(b, k) {
      var m :| m in b && m.key == k;
      assert m in a + b;
    }
  }

  lemma HasKeyNil(k: Key)
    ensures !HasKey([], k)
  {}

  lemma HasKeyOne(a: Manifest, k: Key)
    ensures HasKey([a], k) <==> k == a.key
  {
    assert a in [a];
  }

  lemma HasKeyTwo(a: Manifest, b: Manifest, k: Key)
    ensures HasKey([a, b], k) <==> k in {a.key, b.key}
  {
    assert a in [a, b] && b in [a, b];
  }

  lemma HasKeyThree(a: Manifest, b: Manifest, c: Manifest, k: Key)
    ensures HasKey([a, b, c], k) <==> k in {a.key, b.key, c.key}
  {
    assert a in [a, b, c] && b in [a, b, c] && c in [a, b, c];
  }

  lemma LeadingKeys(id: ClaimId, spec: Spec, linked: bool, k: Key)
    ensures HasKey(Leading(id, spec, linked), k) <==>
              || k == NamespaceKey(id) || k == KeyOf(id, ServiceAccount, "")
              || (spec.storage && linked && k in {KeyOf(id, Role, ""), KeyOf(id, Bucket, "")})
              || (spec.tier != TIER_BATCH && k == KeyOf(id, AnalysisTemplate, "-canary"))
  {
    var namespace, account := BuildNamespace(id, spec), Namespaced(id, spec, linked, ServiceAccount, "");
    var role, bucket := Namespaced(id, spec, linked, Role, ""), Namespaced(id, spec, linked, Bucket, "");
    var analysis := Namespaced(id, spec, linked, AnalysisTemplate, "-canary");
    var storage := if HasStorage(spec, linked) then [role, bucket] else [];
    var canary := if HasCanaryAnalysis(spec) then [analysis] else [];
    assert Leading(id, spec, linked) == [namespace, account] + storage + canary;
    hide Labels, Payload, Leading, HasKey, KeyOf, NamespaceKey;
    HasKeyConcat([namespace, account] + storage, canary, k);
    HasKeyConcat([namespace, account], storage, k);
    HasKeyTwo(namespace, account, k);
    HasKeyTwo(role, bucket, k);
    HasKeyOne(analysis, k);
    HasKeyNil(k);
  }

  lemma CoreKeys(id: ClaimId, spec: Spec, linked: bool, k: Key)
    ensures HasKey(Core(id, spec, linked), k) <==>
              k in {KeyOf(id, Rollout, ""), KeyOf(id, NetworkPolicy, ""), KeyOf(id, PrometheusRule, ""),
                    KeyOf(id, ServiceMonitor, ""), KeyOf(id, ConfigMap, "-dashboard"), KeyOf(id, ConfigMap, "-runbook")}
  {
    var a, b, c := BuildRollout(id, spec, linked), Namespaced(id, spec, linked, NetworkPolicy, ""),
        Namespaced(id, spec, linked, PrometheusRule, "");
    var d, e, f := Namespaced(id, spec, linked, ServiceMonitor, ""),
        Namespaced(id, spec, linked, ConfigMap, "-dashboard"), Namespaced(id, spec, linked, ConfigMap, "-runbook");
    assert Core(id, spec, linked) == [a, b, c] + [d, e, f];
    hide Labels, Payload, Core, HasKey, KeyOf;
    HasKeyConcat([a, b, c], [d, e, f], k);
    HasKeyThree(a, b, c, k);
    HasKeyThree(d, e, f, k);
  }

  lemma TrailingKeys(id: ClaimId, spec: Spec, linked: bool, k: Key)
    ensures HasKey(Trailing(id, spec, linked), k) <==>
              || (spec.tier in {TIER_PUBLIC, TIER_INTERNAL} && k in
                    {KeyOf(id, Service, ""), KeyOf(id, HorizontalPodAutoscaler, ""),
                     KeyOf(id, PodDisruptionBudget, "")})
              || (spec.tier == TIER_PUBLIC && k == KeyOf(id, Ingress, ""))
  {
    var a, b, c := Namespaced(id, spec, linked, Service, ""), Namespaced(id, spec, linked, HorizontalPodAutoscaler, ""),
        Namespaced(id, spec, linked, PodDisruptionBudget, "");
    var ingress := Namespaced(id, spec, linked, Ingress, "");
    var scaling := if HasAutoscaling(spec) then [a, b, c] else [];
    var public := if spec.tier == TIER_PUBLIC then [ingress] else [];
    assert Trailing(id, spec, linked) == scaling + public;
    hide Labels, Payload, Trailing, HasKey, KeyOf;
    HasKeyConcat(scaling, public, k);
    HasKeyThree(a, b, c, k);
    HasKeyOne(ingress, k);
    HasKeyNil(k);
  }

  /** The list holds exactly the objects that the tier and the storage setting call for, for every spec,
      valid or not. */
  lemma ObjectsByTier(id: ClaimId, spec: Spec, linked: bool, k: Key)
    ensures HasKey(Objects(id, spec, linked), k) <==> k == NamespaceKey(id) || CalledFor(k, id, spec, linked)
  {
    var all := Objects(id, spec, linked);
    assert all == Leading(id, spec, linked) + Core(id, spec, linked) + Trailing(id, spec, linked);
    hide Leading, Core, Trailing, HasKey, NamespaceKey, Objects, KeyOf;
    LeadingKeys(id, spec, linked, k);
    CoreKeys(id, spec, linked, k);
    TrailingKeys(id, spec, linked, k);
    HasKeyConcat(Leading(id, spec, linked), Core(id, spec, linked), k);
    HasKeyConcat(Leading(id, spec, linked) + Core(id, spec, linked), Trailing(id, spec, linked), k);
  }

  /** 13 objects for a public claim, 12 for an internal one and 8 for a batch one, and two more with storage
      on a linked cluster. */
  lemma ObjectCounts(id: ClaimId, spec: Spec, linked: bool)
    ensures spec.tier in {TIER_PUBLIC, TIER_INTERNAL, TIER_BATCH} ==>
              |Objects(id, spec, linked)| ==
                (if spec.tier == TIER_PUBLIC then 13 else if spec.tier == TIER_INTERNAL then 12 else 8)
                + (if spec.storage && linked then 2 else 0)
  {
    assert TIER_BATCH != TIER_PUBLIC && TIER_BATCH != TIER_INTERNAL && TIER_PUBLIC != TIER_INTERNAL by {
      assert |TIER_BATCH| == 5 && |TIER_PUBLIC| == 6 && |TIER_INTERNAL| == 8;
    }
    hide Labels, Payload, Namespaced, BuildRollout, BuildNamespace;
  }

  ghost predicate Produces(linked: bool, id: ClaimId, spec: Spec, k: Key) {
    id.name != "" && id.namespace != "" && HasKey(Objects(id, spec, linked), k)
  }

  /** The controller watches exactly the kinds that some claim's list holds. */
  lemma WatchedExactly(kind: Kind, linked: bool)
    ensures Watched(kind, linked) <==> exists id, spec, k :: Produces(linked, id, spec, k) && k.kind == kind
  {
    hide Produces, Watched;
    forall id, spec, k | Produces(linked, id, spec, k) ensures Watched(k.kind, linked) {
      ProducedIsWatched(linked, id, spec, k);
    }
    if Watched(kind, linked) {
      var id, spec, k := WatchedIsProduced(kind, linked);
    }
  }

  lemma WatchedIsProduced(kind: Kind, linked: bool) returns (id: ClaimId, spec: Spec, k: Key)
    requires Watched(kind, linked)
    ensures Produces(linked, id, spec, k) && k.kind == kind
  {
    hide Objects, HasKey, NamespaceName;
    id := ClaimId("n", "c");
    spec := Spec("", "", TIER_PUBLIC, true, 1, Unsupported, "", "", map[], map[]);
    k := if kind.Namespace? then NamespaceKey(id)
      else KeyOf(id, kind, if kind.AnalysisTemplate? then "-canary" else if kind.ConfigMap? then "-runbook" else "");
    assert TIER_PUBLIC != TIER_BATCH by { assert |TIER_BATCH| == 5 && |TIER_PUBLIC| == 6; }
    ObjectsByTier(id, spec, linked, k);
  }

  lemma ProducedIsWatched(linked: bool, id: ClaimId, spec: Spec, k: Key)
    requires Produces(linked, id, spec, k)
    ensures Watched(k.kind, linked)
  {
    BuiltObjects(id, spec, linked);
    var m :| m in Objects(id, spec, linked) && m.key == k;
    assert WellPlaced(m, id, linked);
  }

  /** The specs that can be built: an SLI that makes a query, an objective from 90 up to but not 100, and a
      window of whole days. */
  lemma BuildableExactly(id: ClaimId, spec: Spec)
    ensures Buildable(id, spec) <==>
              && (match spec.sli
                  case Availability(statuses) => statuses != []
                  case Latency(bucket) => bucket.Some?
                  case Unsupported => false)
              && PlainDecimal(spec.objective)
              && 90 * Numbers.Pow(10, FractionDigits(spec.objective)) <= Numerator(spec.objective)
                 < 100 * Numbers.Pow(10, FractionDigits(spec.objective))
              && exists digits :: Alerts.DaysText(spec.window, digits)
                   && 0 < Numbers.DigitsValue(digits) <= Alerts.MAX_INT
  {
    ErrorBudgetExact(spec.objective);
    Alerts.SloWindowExact(spec.window);
    hide ErrorBudget, Alerts.SloWindow, Alerts.DaysText, PlainDecimal, Numerator, FractionDigits, NamespaceName;
  }

  // ----- What the objects hold -----

  predicate IsLabel(f: Path) {
    f in {LabelPath(LABEL_NAME), LabelPath(LABEL_MANAGED_BY), LabelPath(LABEL_CLAIM),
          LabelPath(LABEL_CLAIM_NAMESPACE), LabelPath(LABEL_OWNER)}
  }

  /** An object holds its five labels and, besides a Rollout's replica count, what its payload says, which is
      the one made for storage when the claim has storage on a linked cluster. */
  ghost predicate FilledIn(m: Manifest, id: ClaimId, spec: Spec, linked: bool) {
    var payloads := if spec.storage && linked then spec.storagePayload else spec.payload;
    && LabelOf(m.content, LABEL_NAME) == id.name && LabelOf(m.content, LABEL_OWNER) == spec.owner
    && (m.key.kind == Namespace ==> forall f :: f in m.content ==> IsLabel(f))
    && (m.key.kind != Namespace ==>
          forall f :: !IsLabel(f) && (m.key.kind == Rollout ==> f != REPLICAS) ==>
            && (f in m.content <==> m.key in payloads && f in payloads[m.key])
            && (f in m.content ==> m.content[f] == payloads[m.key][f]))
  }

  /** A Rollout asks for one replica exactly when no autoscaler owns the count. */
  predicate Scaled(m: Manifest, spec: Spec) {
    if spec.tier in {TIER_PUBLIC, TIER_INTERNAL} then REPLICAS !in m.content
    else REPLICAS in m.content && m.content[REPLICAS] == "1"
  }

  lemma LabelsFill(id: ClaimId, spec: Spec, payload: Fields)
    ensures var content := payload + Labels(id, spec);
            && LabelOf(content, LABEL_NAME) == id.name && LabelOf(content, LABEL_OWNER) == spec.owner
            && forall f :: !IsLabel(f) ==>
                 (f in content <==> f in payload) && (f in content ==> content[f] == payload[f])
    ensures forall f :: f in Labels(id, spec) ==> IsLabel(f)
  {
    LabelNamesDiffer();
    assert LabelPath(LABEL_CLAIM)[2] == LABEL_CLAIM && LabelPath(LABEL_MANAGED_BY)[2] == LABEL_MANAGED_BY;
    assert LabelPath(LABEL_CLAIM_NAMESPACE)[2] == LABEL_CLAIM_NAMESPACE && LabelPath(LABEL_OWNER)[2] == LABEL_OWNER;
    assert LabelPath(LABEL_NAME)[2] == LABEL_NAME;
  }

  lemma NamespacedFilled(id: ClaimId, spec: Spec, linked: bool, kind: Kind, suffix: string)
    requires kind != Namespace
    ensures FilledIn(Namespaced(id, spec, linked, kind, suffix), id, spec, linked)
  {
    LabelsFill(id, spec, Payload(spec, KeyOf(id, kind, suffix), linked));
    hide Labels, LabelOf, IsLabel, NamespaceName;
  }

  lemma OtherReplicas(a: Manifest, b: Manifest, id: ClaimId, spec: Spec, linked: bool)
    requires FilledIn(a, id, spec, linked) && b.key == a.key && a.key.kind == Rollout
    requires b.content - {REPLICAS} == a.content - {REPLICAS}
    ensures FilledIn(b, id, spec, linked)
  {
    assert forall f :: f != REPLICAS ==> (f in b.content - {REPLICAS} <==> f in b.content);
    assert |REPLICAS| == 2 && |LabelPath(LABEL_NAME)| == 3 && |LabelPath(LABEL_OWNER)| == 3;
    hide IsLabel, LabelPath;
  }

  lemma RolloutFilled(id: ClaimId, spec: Spec, linked: bool)
    ensures FilledIn(BuildRollout(id, spec, linked), id, spec, linked) && Scaled(BuildRollout(id, spec, linked), spec)
  {
    var m, rollout := Namespaced(id, spec, linked, Rollout, ""), BuildRollout(id, spec, linked);
    assert Numbers.Itoa(1) == "1";
    assert m.key.kind == Rollout && rollout.key == m.key && Scaled(rollout, spec);
    assert rollout.content - {REPLICAS} == m.content - {REPLICAS};
    hide *;
    NamespacedFilled(id, spec, linked, Rollout, "");
    OtherReplicas(m, rollout, id, spec, linked);
  }

  lemma NamespaceFilled(id: ClaimId, spec: Spec, linked: bool)
    ensures FilledIn(BuildNamespace(id, spec), id, spec, linked)
  {
    LabelsFill(id, spec, map[]);
    assert map[] + Labels(id, spec) == Labels(id, spec);
    hide Labels, LabelOf, IsLabel;
  }

  /** Every object of the list, for every spec and storage setting. */
  lemma ObjectContents(id: ClaimId, spec: Spec, linked: bool)
    ensures forall m :: m in Objects(id, spec, linked) ==>
              FilledIn(m, id, spec, linked) && (m.key.kind == Rollout ==> Scaled(m, spec))
  {
    LeadingFilled(id, spec, linked);
    CoreFilled(id, spec, linked);
    TrailingFilled(id, spec, linked);
    var all := Objects(id, spec, linked);
    assert all == Leading(id, spec, linked) + Core(id, spec, linked) + Trailing(id, spec, linked);
    hide Leading, Core, Trailing, FilledIn, Scaled, Objects;
    forall m | m in all ensures FilledIn(m, id, spec, linked) && (m.key.kind == Rollout ==> Scaled(m, spec)) {
      assert m in Leading(id, spec, linked) || m in Core(id, spec, linked) || m in Trailing(id, spec, linked);
    }
  }

  lemma LeadingFilled(id: ClaimId, spec: Spec, linked: bool)
    ensures forall m :: m in Leading(id, spec, linked) ==> FilledIn(m, id, spec, linked) && m.key.kind != Rollout
  {
    hide FilledIn, Labels, Payload, HasCanaryAnalysis, HasStorage;
    NamespaceFilled(id, spec, linked);
    NamespacedFilled(id, spec, linked, ServiceAccount, "");
    NamespacedFilled(id, spec, linked, Role, "");
    NamespacedFilled(id, spec, linked, Bucket, "");
    NamespacedFilled(id, spec, linked, AnalysisTemplate, "-canary");
  }

  lemma CoreFilled(id: ClaimId, spec: Spec, linked: bool)
    ensures forall m :: m in Core(id, spec, linked) ==>
              FilledIn(m, id, spec, linked) && (m.key.kind == Rollout ==> Scaled(m, spec))
  {
    hide FilledIn, Scaled, Labels, Payload, HasAutoscaling, BuildRollout;
    RolloutFilled(id, spec, linked);
    NamespacedFilled(id, spec, linked, NetworkPolicy, "");
    NamespacedFilled(id, spec, linked, PrometheusRule, "");
    NamespacedFilled(id, spec, linked, ServiceMonitor, "");
    NamespacedFilled(id, spec, linked, ConfigMap, "-dashboard");
    NamespacedFilled(id, spec, linked, ConfigMap, "-runbook");
  }

  lemma TrailingFilled(id: ClaimId, spec: Spec, linked: bool)
    ensures forall m :: m in Trailing(id, spec, linked) ==> FilledIn(m, id, spec, linked) && m.key.kind != Rollout
  {
    hide FilledIn, Labels, Payload, HasAutoscaling;
    NamespacedFilled(id, spec, linked, Service, "");
    NamespacedFilled(id, spec, linked, HorizontalPodAutoscaler, "");
    NamespacedFilled(id, spec, linked, PodDisruptionBudget, "");
    NamespacedFilled(id, spec, linked, Ingress, "");
  }

  /** Claims share a key exactly when they have the same name: the claim's own namespace is not part of
      any managed object's key. */
  lemma KeysByName(k: Key, a: ClaimId, b: ClaimId)
    requires KeyOfClaim(k, a)
    ensures KeyOfClaim(k, b) <==> a.name == b.name
  {
    assert NamespaceName(a)[4..] == a.name && NamespaceName(b)[4..] == b.name;
  }
}
