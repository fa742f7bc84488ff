/** Drift detection on one managed object (internal/controller/drift.go and the comparison in
    applyObjects): what the controller reports when it applies an object others may have edited. */
module Drift {
  import opened Outcomes
  import opened ServerSideApply

  /** The correction test of applyObjects, with nothing between the read and the apply. */
  predicate Reported(live: Option<Object>, patch: Fields, now: nat) {
    || live.None?
    || !SameOwnership(ControllerOwnership(live.value), ControllerOwnership(ApplyPatch(live, patch, now)))
  }

  /** The controller owns nothing but desired values. Every apply of the patch leaves an object so, and
      every foreign edit keeps it so. */
  predicate Faithful(live: Option<Object>, patch: Fields) {
    live.Some? ==> forall f :: f in Owned(live.value) ==>
        f in patch && f in live.value.fields && live.value.fields[f] == patch[f]
  }

  /** A desired path lost its value, or the controller's ownership of it. */
  ghost predicate Drifted(o: Object, patch: Fields) {
    exists f :: f in patch && (f !in o.fields || o.fields[f] != patch[f] || f !in Owned(o))
  }

  lemma FaithfulEdit(live: Option<Object>, e: Edit, patch: Fields, now: nat)
    requires Faithful(live, patch) && Foreign(e, live)
    ensures Faithful(Edited(live, e, now), patch)
    ensures live.Some? && Edited(live, e, now).Some? ==> Owned(Edited(live, e, now).value) <= Owned(live.value)
    ensures live.None? && Edited(live, e, now).Some? ==> CONTROLLER !in Edited(live, e, now).value.managed
  {
    if live.Some? && e.Write? {
      WriteDisowns(live.value, e.writer, e.fields, now);
    }
  }

  /** A write leaves the controller exactly the paths whose values it did not change. */
  lemma WriteDisowns(o: Object, writer: ManagerId, fields: Fields, now: nat)
    requires writer != CONTROLLER
    ensures var after := Edited(Some(o), Write(writer, fields), now).value;
            Owned(after) == Owned(o) - Changed(o, fields) && after.fields == fields
  {}

  /** Detection is exact: among objects the controller's applies and foreign edits can leave, an object
      is put back and reported exactly when it is missing or some desired path lost its value or the
      controller's ownership, and an object that is not reported is stored unchanged by the apply. */
  lemma DriftExact(live: Option<Object>, patch: Fields, now: nat)
    requires Faithful(live, patch) && patch != map[]
    ensures Reported(live, patch, now) <==> live.None? || Drifted(live.value, patch)
    ensures !Reported(live, patch, now) ==> Some(ApplyPatch(live, patch, now)) == live
  {
    if live.Some? {
      var f :| f in patch;
      SettledIffIntact(live.value, patch);
      NoOpIffSettled(live.value, patch, now);
      AppliedIsSettled(live, patch, now);
    }
  }

  lemma SettledIffIntact(o: Object, patch: Fields)
    requires Faithful(Some(o), patch) && patch != map[]
    ensures Settled(o, patch) <==> !Drifted(o, patch)
  {}

  // ----- Over a history of edits -----

  /** A step took the object away, changed a desired value, or took away ownership of a desired path. */
  ghost predicate Disturbs(before: Option<Object>, after: Option<Object>, patch: Fields) {
    before.Some? &&
    (|| after.None?
     || exists f :: f in patch && DisturbsPath(before.value, after.value, f))
  }

  predicate DisturbsPath(before: Object, after: Object, f: Path) {
    || (f in before.fields && (f !in after.fields || after.fields[f] != before.fields[f]))
    || (f in Owned(before) && f !in Owned(after))
  }

  ghost predicate IsSettled(live: Option<Object>, patch: Fields) {
    live.Some? && Settled(live.value, patch)
  }

  lemma EditSettles(live: Option<Object>, e: Edit, patch: Fields, now: nat)
    requires Faithful(live, patch) && Foreign(e, live) && patch != map[]
    ensures IsSettled(Edited(live, e, now), patch) <==>
        IsSettled(live, patch) && !Disturbs(live, Edited(live, e, now), patch)
  {}

  function StateAfter(start: Option<Object>, edits: seq<Timed>, i: nat): Option<Object>
    requires i <= |edits|
  {
    EditedAll(start, edits[..i])
  }

  lemma StateStep(start: Option<Object>, edits: seq<Timed>, i: nat)
    requires i < |edits|
    ensures StateAfter(start, edits, i + 1) == Edited(StateAfter(start, edits, i), edits[i].edit, edits[i].time)
  {
    assert edits[..i + 1][..i] == edits[..i];
  }

  lemma StateStart(start: Option<Object>, edits: seq<Timed>)
    ensures StateAfter(start, edits, 0) == start
  {
    assert edits[..0] == [];
  }

  lemma ForeignAt(start: Option<Object>, edits: seq<Timed>, i: nat)
    requires i < |edits| && AllForeign(start, edits)
    ensures Foreign(edits[i].edit, StateAfter(start, edits, i))
  {
    hide Foreign, EditedAll;
  }

  /** Some step among the first n disturbs a desired path. */
  ghost predicate DisturbedWithin(start: Option<Object>, edits: seq<Timed>, n: nat, patch: Fields)
    requires n <= |edits|
  {
    exists i :: 0 <= i < n && Disturbs(StateAfter(start, edits, i), StateAfter(start, edits, i + 1), patch)
  }

  /** A run that starts settled stays faithful, and is settled exactly while nothing disturbed it. */
  ghost predicate Tracked(start: Option<Object>, edits: seq<Timed>, n: nat, patch: Fields)
    requires n <= |edits|
  {
    && Faithful(StateAfter(start, edits, n), patch)
    && (IsSettled(StateAfter(start, edits, n), patch) <==> !DisturbedWithin(start, edits, n, patch))
  }

  lemma TrackedStep(start: Option<Object>, edits: seq<Timed>, n: nat, patch: Fields)
    requires 0 < n <= |edits| && patch != map[] && AllForeign(start, edits) && Tracked(start, edits, n - 1, patch)
    ensures Tracked(start, edits, n, patch)
  {
    hide StateAfter, Disturbs, DisturbedWithin, IsSettled, Faithful, Foreign, AllForeign, Edited;
    StateStep(start, edits, n - 1);
    ForeignAt(start, edits, n - 1);
    var before, e := StateAfter(start, edits, n - 1), edits[n - 1];
    FaithfulEdit(before, e.edit, patch, e.time);
    EditSettles(before, e.edit, patch, e.time);
    DisturbedStep(start, edits, n, patch);
  }

  lemma {:induction false} SettledThroughEdits(start: Option<Object>, edits: seq<Timed>, n: nat, patch: Fields)
    requires n <= |edits| && IsSettled(start, patch) && patch != map[] && AllForeign(start, edits)
    ensures Tracked(start, edits, n, patch)
    decreases n
  {
    if n == 0 {
      StateStart(start, edits);
      SettledIsFaithful(start, patch);
      hide StateAfter, IsSettled, Faithful;
      NotYetDisturbed(start, edits, patch);
    } else {
      hide *;
      SettledThroughEdits(start, edits, n - 1, patch);
      TrackedStep(start, edits, n, patch);
    }
  }

  lemma SettledIsFaithful(live: Option<Object>, patch: Fields)
    requires IsSettled(live, patch)
    ensures Faithful(live, patch)
  {}

  lemma NotYetDisturbed(start: Option<Object>, edits: seq<Timed>, patch: Fields)
    ensures !DisturbedWithin(start, edits, 0, patch)
  {}

  lemma DisturbedStep(start: Option<Object>, edits: seq<Timed>, n: nat, patch: Fields)
    requires 0 < n <= |edits|
    ensures DisturbedWithin(start, edits, n, patch) <==>
              || DisturbedWithin(start, edits, n - 1, patch)
              || Disturbs(StateAfter(start, edits, n - 1), StateAfter(start, edits, n), patch)
  {}

  /** Between two applies of the same patch, over every sequence of foreign edits and deletions: the
      second apply reports the object exactly when it is gone, or some step along the way disturbed a
      desired path, even if a later step put the value back. */
  lemma DriftHistory(applied: Object, edits: seq<Timed>, patch: Fields, now: nat)
    requires Settled(applied, patch) && patch != map[] && AllForeign(Some(applied), edits)
    ensures var live := EditedAll(Some(applied), edits);
            && (Reported(live, patch, now) <==> DisturbedWithin(Some(applied), edits, |edits|, patch))
            && (!Reported(live, patch, now) ==> Some(ApplyPatch(live, patch, now)) == live)
            && Settled(ApplyPatch(live, patch, now), patch)
  {
    var live := EditedAll(Some(applied), edits);
    assert edits[..|edits|] == edits;
    SettledThroughEdits(Some(applied), edits, |edits|, patch);
    DriftExact(live, patch, now);
    AppliedIsSettled(live, patch, now);
    if live.Some? {
      SettledIffIntact(live.value, patch);
    }
  }

  // ----- Edits between the read and the apply -----

  /** What applyObjects compares when edits land after it read the object and before it applied it. */
  predicate ReportedRaced(read: Object, stored: Option<Object>, patch: Fields, now: nat) {
    !SameOwnership(ControllerOwnership(read), ControllerOwnership(ApplyPatch(stored, patch, now)))
  }

  /** A controller entry still there is the one that was read, as to its time. */
  predicate EntryFrom(read: Object, live: Option<Object>) {
    live.Some? && CONTROLLER in live.value.managed ==>
      CONTROLLER in read.managed && live.value.managed[CONTROLLER].time == read.managed[CONTROLLER].time
  }

  lemma {:induction false} EntryThroughEdits(read: Object, edits: seq<Timed>, n: nat, patch: Fields)
    requires n <= |edits| && Faithful(Some(read), patch) && AllForeign(Some(read), edits)
    ensures Faithful(StateAfter(Some(read), edits, n), patch)
    ensures EntryFrom(read, StateAfter(Some(read), edits, n))
    decreases n
  {
    hide StateAfter, Faithful, AllForeign, Foreign, Edited;
    StateStart(Some(read), edits);
    if n > 0 {
      EntryThroughEdits(read, edits, n - 1, patch);
      StateStep(Some(read), edits, n - 1);
      var before, e := StateAfter(Some(read), edits, n - 1), edits[n - 1];
      ForeignAt(Some(read), edits, n - 1);
      FaithfulEdit(before, e.edit, patch, e.time);
      EntryThroughEdit(read, before, e.edit, e.time);
    }
  }

  lemma EntryThroughEdit(read: Object, live: Option<Object>, e: Edit, editTime: nat)
    requires EntryFrom(read, live) && Foreign(e, live)
    ensures EntryFrom(read, Edited(live, e, editTime))
  {}

  /** What the apply makes of the entry. */
  lemma AppliedEntry(o: Object, patch: Fields, now: nat)
    requires Faithful(Some(o), patch)
    ensures var after := ApplyPatch(Some(o), patch, now);
            && CONTROLLER in after.managed
            && after.managed[CONTROLLER] ==
               Ownership(patch.Keys, if CONTROLLER in o.managed && Overwritten(o, patch) == {}
                   then o.managed[CONTROLLER].time else now)
  {
    assert Released(o, patch) == {};
    var fields := (o.fields - {}) + patch;
    assert fields == o.fields <==> Overwritten(o, patch) == {} by {
      if Overwritten(o, patch) == {} {
        assert forall f :: f in patch ==> f !in Overwritten(o, patch);
      } else {
        var f :| f in Overwritten(o, patch);
        assert f in fields && fields[f] == patch[f];
      }
    }
  }

  /** However many edits land between the read and the apply, they are put back. They, or drift there
      before them, are reported exactly when the copy that was read did not own the desired paths, or the
      apply had to change a value, or start a new entry, in another second than the one the entry carried
      when it was read. */
  lemma RacedEdits(read: Object, edits: seq<Timed>, patch: Fields, now: nat)
    requires Faithful(Some(read), patch) && AllForeign(Some(read), edits)
    ensures var stored := EditedAll(Some(read), edits);
            && Settled(ApplyPatch(stored, patch, now), patch)
            && (ReportedRaced(read, stored, patch, now) <==>
                  || CONTROLLER !in read.managed || Owned(read) != patch.Keys
                  || (&& now != read.managed[CONTROLLER].time
                      && (stored.None? || CONTROLLER !in stored.value.managed
                          || Overwritten(stored.value, patch) != {})))
  {
    var stored := EditedAll(Some(read), edits);
    assert edits[..|edits|] == edits;
    EntryThroughEdits(read, edits, |edits|, patch);
    AppliedIsSettled(stored, patch, now);
    if stored.Some? {
      AppliedEntry(stored.value, patch, now);
    }
    hide Settled, Faithful, AllForeign, EditedAll, Overwritten;
  }

  /** A value changed between read and apply, within the second the entry was last written, is put back
      without a report. */
  lemma RacedEditCanBeMissed() returns (read: Object, e: Edit, patch: Fields, now: nat)
    ensures Settled(read, patch) && Foreign(e, Some(read)) && patch != map[]
    ensures Edited(Some(read), e, now).Some? && Overwritten(Edited(Some(read), e, now).value, patch) != {}
    ensures !ReportedRaced(read, Edited(Some(read), e, now), patch, now)
  {
    var port: Path := ["spec", "port"];
    patch, now := map[port := "80"], 7;
    read := ApplyPatch(None, patch, now);
    AppliedIsSettled(None, patch, now);
    e := Write(ManagerId("kubectl-edit", "Update", ""), map[port := "81"]);
    assert Edited(Some(read), e, now).value.fields[port] == "81" != patch[port];
    assert port in Overwritten(Edited(Some(read), e, now).value, patch);
    var edits := [Timed(e, now)];
    assert edits[..0] == [] && EditedAll(Some(read), edits) == Edited(Some(read), e, now);
    RacedEdits(read, edits, patch, now);
    hide *;
  }
}
