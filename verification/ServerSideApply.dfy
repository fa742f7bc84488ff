/** The API server's server-side apply, as the operator relies on it: a forced apply by one field
    manager, beside writes by others. An object is a map from field paths to values, with one
    ownership entry per manager.

    The contract is the one DECISIONS.md:420-421 states: other managers' writes never touch the
    controller's entry unless they change a value it owns, and an apply that changes nothing leaves
    the entry identical. */
module ServerSideApply {
  import opened Outcomes

  type Path = seq<string>

  type Fields = map<Path, string>

  datatype ManagerId = ManagerId(manager: string, operation: string, subresource: string)

  /** A managedFields entry: the paths owned, and the second it last changed. */
  datatype Ownership = Ownership(fields: set<Path>, time: nat)

  datatype Object = Object(fields: Fields, managed: map<ManagerId, Ownership>, terminating: bool)

  const CONTROLLER := ManagerId("paved-controller", "Apply", "")

  /** controllerOwnership: the entry of the controller's applies to the main resource. */
  function ControllerOwnership(o: Object): Option<Ownership> {
    if CONTROLLER in o.managed then Some(o.managed[CONTROLLER]) else None
  }

  /** sameOwnership. */
  predicate SameOwnership(before: Option<Ownership>, after: Option<Ownership>) {
    if before.None? || after.None? then before.None? && after.None?
    else before.value.time == after.value.time && before.value.fields == after.value.fields
  }

  function Owned(o: Object): set<Path> {
    if CONTROLLER in o.managed then o.managed[CONTROLLER].fields else {}
  }

  /** The entries after some paths changed under their owners: an owner loses the paths, and an entry
      that loses its last path disappears. */
  function Disown(managed: map<ManagerId, Ownership>, lost: set<Path>): map<ManagerId, Ownership> {
    map m | m in managed && (managed[m].fields * lost == {} || managed[m].fields - lost != {}) ::
      Ownership(managed[m].fields - lost, managed[m].time)
  }

  predicate OwnedByAnother(o: Object, f: Path) {
    exists m :: m in o.managed && m != CONTROLLER && f in o.managed[m].fields
  }

  /** Paths the controller owned, no longer sends, and shares with no one: an apply removes them. */
  function Released(o: Object, patch: Fields): set<Path> {
    set f | f in Owned(o) && f !in patch && !OwnedByAnother(o, f)
  }

  /** Paths whose stored value an apply replaces. */
  function Overwritten(o: Object, patch: Fields): set<Path> {
    set f | f in patch && (f !in o.fields || o.fields[f] != patch[f])
  }

  /** A forced server-side apply by the controller. */
  function ApplyPatch(live: Option<Object>, patch: Fields, now: nat): Object {
    match live
    case None => Object(patch, map[CONTROLLER := Ownership(patch.Keys, now)], false)
    case Some(o) =>
      var fields := (o.fields - Released(o, patch)) + patch;
      var time := if CONTROLLER in o.managed && fields == o.fields then o.managed[CONTROLLER].time else now;
      Object(fields,
             Disown(o.managed - {CONTROLLER}, Overwritten(o, patch))[CONTROLLER := Ownership(patch.Keys, time)],
             o.terminating)
  }

  /** The controller owns exactly the patch's paths, and the object holds the patch's values. */
  predicate Settled(o: Object, patch: Fields) {
    CONTROLLER in o.managed && Owned(o) == patch.Keys && forall f :: f in patch ==>
        f in o.fields && o.fields[f] == patch[f]
  }

  lemma DisownNothing(managed: map<ManagerId, Ownership>)
    ensures Disown(managed, {}) == managed
  {
    assert forall m :: m in managed ==> managed[m].fields - {} == managed[m].fields;
  }

  /** An apply of an object that already is as desired stores it unchanged; any other apply changes it. */
  lemma NoOpIffSettled(o: Object, patch: Fields, now: nat)
    ensures ApplyPatch(Some(o), patch, now) == o <==> Settled(o, patch)
  {
    var after := ApplyPatch(Some(o), patch, now);
    if Settled(o, patch) {
      assert Released(o, patch) == {} && Overwritten(o, patch) == {};
      assert (o.fields - {}) + patch == o.fields;
      DisownNothing(o.managed - {CONTROLLER});
      assert (o.managed - {CONTROLLER})[CONTROLLER := o.managed[CONTROLLER]] == o.managed;
    }
    AppliedIsSettled(Some(o), patch, now);
  }

  /** Whatever was stored, one apply settles the object. */
  lemma AppliedIsSettled(live: Option<Object>, patch: Fields, now: nat)
    ensures Settled(ApplyPatch(live, patch, now), patch)
  {}

  /** Applying twice is applying once. */
  lemma ApplyIdempotent(live: Option<Object>, patch: Fields, now: nat, later: nat)
    ensures ApplyPatch(Some(ApplyPatch(live, patch, now)), patch, later) == ApplyPatch(live, patch, now)
  {
    AppliedIsSettled(live, patch, now);
    NoOpIffSettled(ApplyPatch(live, patch, now), patch, later);
  }

  /** An apply changes no path it does not send, except those it owned alone and stops sending. */
  lemma ApplyFrame(o: Object, patch: Fields, now: nat, f: Path)
    requires f !in patch && (f !in Owned(o) || OwnedByAnother(o, f))
    ensures var after := ApplyPatch(Some(o), patch, now);
            f in after.fields <==> f in o.fields
    ensures f in o.fields ==> ApplyPatch(Some(o), patch, now).fields[f] == o.fields[f]
  {}

  // ----- Writes by others -----

  /** What another party may do to one object: replace its fields, drop ownership entries without
      changing a value, mark it for deletion, delete it, or create it. */
  datatype Edit =
    | Write(writer: ManagerId, fields: Fields)
    | Strip(entries: map<ManagerId, Ownership>)
    | Terminate
    | Delete
    | Create(writer: ManagerId, fields: Fields)

  /** Paths whose value or presence a write changes. */
  function Changed(o: Object, fields: Fields): set<Path> {
    (set f | f in o.fields && (f !in fields || fields[f] != o.fields[f]))
    + (set f | f in fields && f !in o.fields)
  }

  /** An edit by a manager other than the controller's applies. A strip can only shrink the
      controller's entry. */
  predicate Foreign(e: Edit, live: Option<Object>) {
    match e
    case Write(writer, _) => writer != CONTROLLER
    case Create(writer, _) => writer != CONTROLLER
    case Strip(entries) =>
      live.Some? && CONTROLLER in entries ==>
        && CONTROLLER in live.value.managed
        && entries[CONTROLLER].fields <= live.value.managed[CONTROLLER].fields
        && entries[CONTROLLER].time == live.value.managed[CONTROLLER].time
    case Terminate => true
    case Delete => true
  }

  function Edited(live: Option<Object>, e: Edit, now: nat): Option<Object> {
    match e
    case Delete => None
    case Terminate => if live.None? then None else Some(live.value.(terminating := true))
    case Create(writer, fields) =>
      if live.Some? then live else Some(Object(fields, map[writer := Ownership(fields.Keys, now)], false))
    case Write(writer, fields) =>
      if live.None? then None
      else
        var o := live.value;
        var changed := Changed(o, fields);
        var mine := if writer in o.managed then o.managed[writer].fields else {};
        var entry := Ownership((mine + changed) * fields.Keys, now);
        var others := Disown(o.managed - {writer}, changed);
        Some(o.(fields := fields, managed := if changed == {} then o.managed else others[writer := entry]))
    case Strip(entries) =>
      if live.None? then None else Some(live.value.(managed := entries))
  }

  /** An edit, and the second it happens in. */
  datatype Timed = Timed(edit: Edit, time: nat)

  function EditedAll(live: Option<Object>, edits: seq<Timed>): Option<Object> {
    if edits == [] then live
    else
      var last := edits[|edits| - 1];
      Edited(EditedAll(live, edits[..|edits| - 1]), last.edit, last.time)
  }

  ghost predicate AllForeign(live: Option<Object>, edits: seq<Timed>) {
    forall i :: 0 <= i < |edits| ==> Foreign(edits[i].edit, EditedAll(live, edits[..i]))
  }
}
