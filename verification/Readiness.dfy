/** StorageReady and Ready (internal/controller/storage.go, internal/controller/freeze.go). */
module Readiness {
  import opened Conditions
  import opened Numbers
  import opened Outcomes

  const PROVISIONED := "Provisioned"
  const PROVISIONING := "Provisioning"
  const PROVISIONING_FAILED := "ProvisioningFailed"
  const STORAGE_UNREADABLE := "StorageUnreadable"
  const STORAGE_UNAVAILABLE := "StorageUnavailable"

  const ROLLOUT_HEALTHY := "RolloutHealthy"
  const ROLLOUT_PROGRESSING := "RolloutProgressing"
  const ROLLOUT_DEGRADED := "RolloutDegraded"
  const ROLLOUT_NOT_FOUND := "RolloutNotFound"
  const ROLLOUT_UNREADABLE := "RolloutUnreadable"

  const ACK_SYNCED := "ACK.ResourceSynced"
  const ACK_TERMINAL := "ACK.Terminal"
  const ACK_TRUE := "True"

  datatype AckCondition = AckCondition(kind: string, status: string)

  /** An ACK object as it was read: missing, unreadable, or with the conditions in its status. An
      object whose status has the wrong shape reads as unreadable. */
  datatype Observed = Missing | Unreadable | Found(conditions: seq<AckCondition>)

  // ----- One object's conditions -----

  /** The status of a type: that of its last entry, or none. */
  function StatusOf(cs: seq<AckCondition>, kind: string): string {
    if cs == [] then "" else if cs[|cs| - 1].kind == kind then cs[|cs| - 1].status else StatusOf(cs[..|cs| - 1], kind)
  }

  /** ackConditions: conditions by type, a later entry replacing an earlier one. */
  method AckConditions(cs: seq<AckCondition>) returns (byType: map<string, AckCondition>)
    ensures forall kind :: StatusOf(cs, kind) == if kind in byType then byType[kind].status else ""
  {
    byType := map[];
    for i := 0 to |cs|
      invariant forall kind :: StatusOf(cs[..i], kind) == if kind in byType then byType[kind].status else ""
    {
      assert cs[..i + 1][..i] == cs[..i];
      byType := byType[cs[i].kind := cs[i]];
    }
    assert cs[..|cs|] == cs;
  }

  // ----- StorageReady -----

  /** ACK has created the object in AWS and keeps it in sync. */
  predicate Provisioned(o: Observed) {
    o.Found? && StatusOf(o.conditions, ACK_TERMINAL) != ACK_TRUE && StatusOf(o.conditions, ACK_SYNCED) == ACK_TRUE
  }

  /** What an object that is not provisioned makes of StorageReady. */
  function Shortfall(o: Observed): (Status, string) {
    match o
    case Missing => (False, PROVISIONING)
    case Unreadable => (Unknown, STORAGE_UNREADABLE)
    case Found(cs) => if StatusOf(cs, ACK_TERMINAL) == ACK_TRUE then (False, PROVISIONING_FAILED)
        else (False, PROVISIONING)
  }

  /** The first object that is not provisioned decides. */
  function StorageVerdict(observed: seq<Observed>): (Status, string) {
    if observed == [] then (True, PROVISIONED)
    else if !Provisioned(observed[0]) then Shortfall(observed[0])
    else StorageVerdict(observed[1..])
  }

  function StorageOutcome(observed: seq<Observed>, generation: int): Condition {
    Condition(STORAGE_READY, StorageVerdict(observed).0, StorageVerdict(observed).1, generation)
  }

  method StorageCondition(observed: seq<Observed>, generation: int) returns (c: Condition)
    ensures c == StorageOutcome(observed, generation)
  {
    for i := 0 to |observed|
      invariant StorageVerdict(observed) == StorageVerdict(observed[i..])
    {
      var o := observed[i];
      assert observed[i..][1..] == observed[i + 1..];
      if o.Missing? {
        return Condition(STORAGE_READY, False, PROVISIONING, generation);
      }
      if o.Unreadable? {
        return Condition(STORAGE_READY, Unknown, STORAGE_UNREADABLE, generation);
      }
      var byType := AckConditions(o.conditions);
      assert StatusOf(o.conditions, ACK_TERMINAL) == if ACK_TERMINAL in byType then byType[ACK_TERMINAL].status else "";
      assert StatusOf(o.conditions, ACK_SYNCED) == if ACK_SYNCED in byType then byType[ACK_SYNCED].status else "";
      if ACK_TERMINAL in byType && byType[ACK_TERMINAL].status == ACK_TRUE {
        return Condition(STORAGE_READY, False, PROVISIONING_FAILED, generation);
      }
      if !(ACK_SYNCED in byType && byType[ACK_SYNCED].status == ACK_TRUE) {
        return Condition(STORAGE_READY, False, PROVISIONING, generation);
      }
    }
    return Condition(STORAGE_READY, True, PROVISIONED, generation);
  }

  /** What a reason StorageReady gives says about the object it speaks of. */
  predicate Explains(verdict: (Status, string), o: Observed) {
    match o
    case Unreadable => verdict == (Unknown, STORAGE_UNREADABLE)
    case Missing => verdict == (False, PROVISIONING)
    case Found(cs) =>
      verdict == (False, if StatusOf(cs, ACK_TERMINAL) == ACK_TRUE then PROVISIONING_FAILED else PROVISIONING)
  }

  ghost predicate FirstShort(observed: seq<Observed>, i: nat) {
    i < |observed| && !Provisioned(observed[i]) && forall j :: 0 <= j < i ==> Provisioned(observed[j])
  }

  /** Storage is ready exactly when every object is provisioned. Otherwise the first that is not says why:
      unknown when it could not be read, failed when ACK gave it up, and provisioning when it is missing or
      not in sync. */
  lemma {:induction false} StorageMeaning(observed: seq<Observed>)
    ensures StorageVerdict(observed).0 == True <==> forall i :: 0 <= i < |observed| ==> Provisioned(observed[i])
    ensures forall i: nat :: FirstShort(observed, i) ==> Explains(StorageVerdict(observed), observed[i])
    ensures StorageVerdict(observed).0 != True ==> exists i: nat :: FirstShort(observed, i)
  {
    hide StatusOf;
    if observed != [] && Provisioned(observed[0]) {
      var rest := observed[1..];
      StorageMeaning(rest);
      assert observed == [observed[0]] + rest;
      forall i: nat | FirstShort(observed, i) ensures Explains(StorageVerdict(observed), observed[i]) {
        assert FirstShort(rest, i - 1);
      }
      if StorageVerdict(rest).0 != True {
        var i: nat :| FirstShort(rest, i);
        assert FirstShort(observed, i + 1);
      }
    } else if observed != [] {
      assert FirstShort(observed, 0);
      forall i: nat | FirstShort(observed, i) ensures i == 0 {}
    }
  }

  // ----- Ready -----

  const PHASE_HEALTHY := "Healthy"
  const PHASE_DEGRADED := "Degraded"

  /** The Rollout as read past the cache after a full apply. */
  datatype RolloutRead =
    | Rollout(generation: int, observedGeneration: string, phase: string)
    | RolloutNotFound
    | RolloutUnreadable

  /** readyCondition. storage is the claim's StorageReady condition, if it asked for storage. */
  function ReadyCondition(generation: int, synced: Condition, storage: Option<Condition>,
      rollout: RolloutRead): (c: Condition)
    ensures c.kind == READY
  {
    if synced.status != True then Condition(READY, False, synced.reason, generation)
    else if storage.Some? && storage.value.status != True then
      Condition(READY, if storage.value.status == Unknown then Unknown else False, storage.value.reason, generation)
    else match rollout
      case RolloutNotFound => Condition(READY, False, ROLLOUT_NOT_FOUND, generation)
      case RolloutUnreadable => Condition(READY, Unknown, ROLLOUT_UNREADABLE, generation)
      case Rollout(g, observed, phase) =>
        if observed != Itoa(g) then Condition(READY, False, ROLLOUT_PROGRESSING, generation)
        else if phase == PHASE_HEALTHY then Condition(READY, True, ROLLOUT_HEALTHY, generation)
        else if phase == PHASE_DEGRADED then Condition(READY, False, ROLLOUT_DEGRADED, generation)
        else Condition(READY, False, ROLLOUT_PROGRESSING, generation)
  }

  /** Ready is True exactly when everything is applied, the storage asked for is ready, and the Rollout is
      healthy with its own generation as the observed one, in decimal. Text that is no decimal, or none,
      is never that; and when it is the decimal of some generation, Ready is True for just that one. It is
      Unknown exactly when, all else being well, the storage or the Rollout could not be read; and the first
      thing amiss gives the reason. */
  lemma ReadyMeaning(generation: int, synced: Condition, storage: Option<Condition>, rollout: RolloutRead,
      observed: int)
    ensures var ready := ReadyCondition(generation, synced, storage, rollout).status == True;
            var rest := synced.status == True && (storage.Some? ==> storage.value.status == True)
                        && rollout.Rollout? && rollout.phase == PHASE_HEALTHY;
            && (ready <==> rest && rollout.observedGeneration == Itoa(rollout.generation))
            && (rollout.Rollout? && rollout.observedGeneration == Itoa(observed) ==>
                  (ready <==> rest && observed == rollout.generation))
    ensures var c := ReadyCondition(generation, synced, storage, rollout);
            var stored := synced.status == True && (storage.Some? ==> storage.value.status == True);
            var current := rollout.Rollout? && rollout.observedGeneration == Itoa(rollout.generation);
            && (c.status == Unknown <==>
                  || (synced.status == True && storage.Some? && storage.value.status == Unknown)
                  || (stored && rollout.RolloutUnreadable?))
            && c.observedGeneration == generation
            && c.reason ==
                 if synced.status != True then synced.reason
                 else if !stored then storage.value.reason
                 else if rollout.RolloutUnreadable? then ROLLOUT_UNREADABLE
                 else if rollout.RolloutNotFound? then ROLLOUT_NOT_FOUND
                 else if current && rollout.phase == PHASE_HEALTHY then ROLLOUT_HEALTHY
                 else if current && rollout.phase == PHASE_DEGRADED then ROLLOUT_DEGRADED
                 else ROLLOUT_PROGRESSING
  {
    if rollout.Rollout? && Itoa(observed) == Itoa(rollout.generation) {
      ItoaInjective(observed, rollout.generation);
    }
    hide Itoa;
  }
}
