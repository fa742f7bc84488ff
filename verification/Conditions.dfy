/** Status conditions and how a reconcile merges them into a claim's status
    (k8s.io/apimachinery's meta.SetStatusCondition, as applyStatus uses it). */
module Conditions {
  import opened Outcomes

  datatype Status = True | False | Unknown

  datatype Condition = Condition(kind: string, status: Status, reason: string, observedGeneration: int)

  const RESOURCES_SYNCED := "ResourcesSynced"
  const SLO_HEALTHY := "SLOHealthy"
  const DEPLOYS_FROZEN := "DeploysFrozen"
  const STORAGE_READY := "StorageReady"
  const READY := "Ready"

  /** The first condition of a kind. */
  function Find(cs: seq<Condition>, kind: string): (c: Option<Condition>)
    ensures c.Some? ==> c.value in cs && c.value.kind == kind
  {
    if cs == [] then None else if cs[0].kind == kind then Some(cs[0]) else Find(cs[1..], kind)
  }

  predicate IsTrue(cs: seq<Condition>, kind: string) {
    Find(cs, kind).Some? && Find(cs, kind).value.status == True
  }

  /** Replaces the condition of c's kind, or appends c. */
  function Upsert(cs: seq<Condition>, c: Condition): seq<Condition> {
    if cs == [] then [c] else if cs[0].kind == c.kind then [c] + cs[1..] else [cs[0]] + Upsert(cs[1..], c)
  }

  function UpsertAll(cs: seq<Condition>, updates: seq<Condition>): seq<Condition> {
    if updates == [] then cs else Upsert(UpsertAll(cs, updates[..|updates| - 1]), updates[|updates| - 1])
  }

  lemma {:induction false} FindUpsert(cs: seq<Condition>, c: Condition, kind: string)
    ensures Find(Upsert(cs, c), kind) == if kind == c.kind then Some(c) else Find(cs, kind)
  {
    if cs != [] && cs[0].kind != c.kind {
      FindUpsert(cs[1..], c, kind);
      assert Upsert(cs, c)[1..] == Upsert(cs[1..], c);
    } else if cs != [] {
      assert Upsert(cs, c)[1..] == cs[1..];
    }
  }

  /** The last update of a kind, or what was stored. */
  function Latest(cs: seq<Condition>, updates: seq<Condition>, kind: string): Option<Condition> {
    if updates == [] then Find(cs, kind)
    else if updates[|updates| - 1].kind == kind then Some(updates[|updates| - 1])
    else Latest(cs, updates[..|updates| - 1], kind)
  }

  lemma {:induction false} FindUpsertAll(cs: seq<Condition>, updates: seq<Condition>, kind: string)
    ensures Find(UpsertAll(cs, updates), kind) == Latest(cs, updates, kind)
  {
    if updates != [] {
      FindUpsertAll(cs, updates[..|updates| - 1], kind);
      FindUpsert(UpsertAll(cs, updates[..|updates| - 1]), updates[|updates| - 1], kind);
    }
  }

  /** applyStatus's merge loop: later updates win, and kinds not updated keep their condition. */
  method Merge(stored: seq<Condition>, updates: seq<Condition>) returns (merged: seq<Condition>)
    ensures merged == UpsertAll(stored, updates)
    ensures forall kind :: Find(merged, kind) == Latest(stored, updates, kind)
  {
    merged := stored;
    for i := 0 to |updates|
      invariant merged == UpsertAll(stored, updates[..i])
    {
      assert updates[..i + 1][..i] == updates[..i];
      merged := Upsert(merged, updates[i]);
    }
    assert updates[..|updates|] == updates;
    forall kind ensures Find(merged, kind) == Latest(stored, updates, kind) {
      FindUpsertAll(stored, updates, kind);
    }
  }
}
