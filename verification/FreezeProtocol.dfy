/** The deploy freeze as a protocol between two parties that share one claim. The reconciler reads the
    claim, measures, and later writes the status; users update the claim through the admission webhook
    at any moment in between. Only the reconciler writes status, and reconciles of a claim run one at a
    time (internal/controller/serviceclaim_controller.go,
    internal/webhook/v1alpha1/serviceclaim_webhook.go). */
module FreezeProtocol {
  import opened Conditions
  import opened Outcomes
  import opened SloStatus
  import opened Webhook

  datatype Step =
    | BeginReconcile
      // The status write succeeds; before and after are the other conditions it merges.
    | WriteStatus(generation: int, report: SloReport, before: seq<Condition>, after: seq<Condition>)
      // The reconcile ends without writing status.
    | AbandonReconcile
      // A user update. The webhook sees it first; lands is false when something later rejects it.
    | Update(image: string, annotations: map<string, string>, request: Option<Request>, lands: bool)

  /** One BreakGlassUsed Event. */
  datatype Record = Record(user: string, from: string, to: string, reason: string)

  /** The stored claim, what a running reconcile has read, the reports written so far, and the audit
      records made so far by a webhook with a recorder. */
  datatype State = State(
    stored: Claim,
    reading: Option<seq<Condition>>,
    history: seq<(int, SloReport)>,
    audits: seq<Record>)

  predicate OtherKinds(cs: seq<Condition>) {
    forall i :: 0 <= i < |cs| ==> cs[i].kind != DEPLOYS_FROZEN
  }

  /** WriteStatus merges conditions of other kinds around the freeze. */
  predicate WellFormed(step: Step) {
    step.WriteStatus? ==> OtherKinds(step.before) && OtherKinds(step.after)
  }

  function Requested(s: State, step: Step): Claim
    requires step.Update?
  {
    Claim(step.image, step.annotations, s.stored.conditions)
  }

  /** The update is admitted while deploys are frozen, on break-glass, and is not a dry run. */
  predicate Overrides(s: State, step: Step) {
    step.Update? && Audited(s.stored, Requested(s, step), step.request)
  }

  function RecordOf(s: State, step: Step): Record
    requires Overrides(s, step)
  {
    Record(step.request.value.user, s.stored.image, step.image, BreakGlassReason(s.stored, Requested(s, step)).value)
  }

  /** The update changes the stored claim. */
  predicate Commits(s: State, step: Step) {
    && step.Update? && step.lands
    && Allows(Decide(s.stored, Requested(s, step), step.request))
    && !(step.request.Some? && step.request.value.dryRun)
  }

  function Next(s: State, step: Step): State {
    match step
    case BeginReconcile => s.(reading := Some(s.stored.conditions))
    case AbandonReconcile => s.(reading := None)
    case WriteStatus(generation, report, before, after) =>
      if s.reading.None? then s
      else
        var read := s.reading.value;
        var updates := before + [FreezeCondition(generation, read, report)] + after;
        s.(stored := s.stored.(conditions := UpsertAll(read, updates)),
           reading := None,
           history := s.history + [(generation, report)])
    case Update(_, _, _, _) =>
      var s1 := if Overrides(s, step) then s.(audits := s.audits + [RecordOf(s, step)]) else s;
      if Commits(s, step) then s1.(stored := Requested(s, step)) else s1
  }

  function Run(s: State, steps: seq<Step>): State {
    if steps == [] then s else Next(Run(s, steps[..|steps| - 1]), steps[|steps| - 1])
  }

  function Initial(image: string, annotations: map<string, string>): State {
    State(Claim(image, annotations, []), None, [], [])
  }

  // ----- The stored bit -----

  /** A reconcile in progress holds the conditions that are still stored, and the stored bit is what
      the whole measurement history makes it. */
  ghost predicate Invariant(s: State) {
    && (s.reading.Some? ==> s.reading.value == s.stored.conditions)
    && (Frozen(s.stored.conditions) <==> FrozenByHistory(s.history))
  }

  lemma {:induction false} LatestOther(cs: seq<Condition>, updates: seq<Condition>, others: seq<Condition>)
    requires OtherKinds(others)
    ensures Latest(cs, updates + others, DEPLOYS_FROZEN) == Latest(cs, updates, DEPLOYS_FROZEN)
  {
    if others == [] {
      assert updates + others == updates;
    } else {
      var n := |others| - 1;
      assert (updates + others)[..|updates + others| - 1] == updates + others[..n];
      assert OtherKinds(others[..n]);
      LatestOther(cs, updates, others[..n]);
    }
  }

  /** Merging the freeze among other conditions stores the freeze. */
  lemma WrittenFreeze(cs: seq<Condition>, before: seq<Condition>, c: Condition, after: seq<Condition>)
    requires c.kind == DEPLOYS_FROZEN && OtherKinds(after)
    ensures Find(UpsertAll(cs, before + [c] + after), DEPLOYS_FROZEN) == Some(c)
  {
    FindUpsertAll(cs, before + [c] + after, DEPLOYS_FROZEN);
    LatestOther(cs, before + [c], after);
  }

  lemma StepKeepsInvariant(s: State, step: Step)
    requires Invariant(s) && WellFormed(step)
    ensures Invariant(Next(s, step))
  {
    if step.WriteStatus? && s.reading.Some? {
      var c := FreezeCondition(step.generation, s.reading.value, step.report);
      WrittenFreeze(s.reading.value, step.before, c, step.after);
      var history := s.history + [(step.generation, step.report)];
      assert history[..|history| - 1] == s.history;
      HistoryStep(history);
    }
  }

  /** In every interleaving of reconciles, lost status writes, user updates and dry runs, the stored
      DeploysFrozen equals the history of the reports written so far. */
  lemma {:induction false} FreezeAcrossRuns(image: string, annotations: map<string, string>, steps: seq<Step>)
    requires forall i :: 0 <= i < |steps| ==> WellFormed(steps[i])
    ensures Invariant(Run(Initial(image, annotations), steps))
  {
    if steps != [] {
      var n := |steps| - 1;
      FreezeAcrossRuns(image, annotations, steps[..n]);
      StepKeepsInvariant(Run(Initial(image, annotations), steps[..n]), steps[n]);
    }
  }

  // ----- What a freeze lets through -----

  predicate ChangesImage(s: State, step: Step) {
    Next(s, step).stored.image != s.stored.image
  }

  predicate ChangesReason(s: State, step: Step) {
    BreakGlass(Next(s, step).stored) != BreakGlass(s.stored)
  }

  /** An image change that lands while the stored freeze is on brings a reason that is not blank and
      differs from the one stored just before, and is audited: the record holds who made the change, both
      images, and the new reason, which is the stored value without the white space around it. */
  lemma FrozenChangeIsDeliberate(s: State, step: Step) returns (reason: string)
    requires Frozen(s.stored.conditions) && ChangesImage(s, step)
    ensures ChangesReason(s, step) && !Blank(BreakGlass(Next(s, step).stored))
    ensures step.Update? && step.request.Some?
    ensures Stripped(BreakGlass(Next(s, step).stored), reason) && reason != ""
    ensures Next(s, step).audits ==
            s.audits + [Record(step.request.value.user, s.stored.image, step.image, reason)]
  {
    hide Frozen, Blank, TrimSpace, Stripped, BreakGlass;
    DecisionMeaning(s.stored, Requested(s, step), step.request);
    ReasonIsFresh(s.stored, Requested(s, step));
    reason := BreakGlassReason(s.stored, Requested(s, step)).value;
  }

  function Count(b: bool): nat {
    if b then 1 else 0
  }

  /** Image changes in a run that land while deploys are frozen. */
  function FrozenImageChanges(s: State, steps: seq<Step>): nat {
    if steps == [] then 0
    else
      var t := Run(s, steps[..|steps| - 1]);
      FrozenImageChanges(s, steps[..|steps| - 1])
      + Count(Frozen(t.stored.conditions) && ChangesImage(t, steps[|steps| - 1]))
  }

  /** Changes of the break-glass value in a run that land while deploys are frozen. */
  function FrozenReasonChanges(s: State, steps: seq<Step>): nat {
    if steps == [] then 0
    else
      var t := Run(s, steps[..|steps| - 1]);
      FrozenReasonChanges(s, steps[..|steps| - 1])
      + Count(Frozen(t.stored.conditions) && ChangesReason(t, steps[|steps| - 1]))
  }

  /** The webhook admits the update with a warning, and it is no dry run. */
  predicate Admits(s: State, step: Step) {
    && step.Update? && step.request.Some? && !step.request.value.dryRun
    && Decide(s.stored, Requested(s, step), step.request) == AdmittedWithWarning
  }

  /** Such updates in a run. */
  function Admissions(s: State, steps: seq<Step>): nat {
    if steps == [] then 0
    else Admissions(s, steps[..|steps| - 1]) + Count(Admits(Run(s, steps[..|steps| - 1]), steps[|steps| - 1]))
  }

  lemma StepCounts(s: State, step: Step)
    ensures Frozen(s.stored.conditions) && ChangesImage(s, step) ==> ChangesReason(s, step) && Admits(s, step)
    ensures s.audits <= Next(s, step).audits
    ensures |Next(s, step).audits| == |s.audits| + Count(Admits(s, step))
  {
    if Frozen(s.stored.conditions) && ChangesImage(s, step) {
      var reason := FrozenChangeIsDeliberate(s, step);
    }
    hide Frozen, TrimSpace, UpsertAll, FreezeCondition;
  }

  /** Over any run from any state: k image changes under a freeze need at least k changes of the
      break-glass value, each admission that is not a dry run leaves exactly one audit record, no
      record is lost, and no frozen image change goes unrecorded. */
  lemma {:induction false} OverridesAreCounted(s: State, steps: seq<Step>)
    ensures FrozenImageChanges(s, steps) <= FrozenReasonChanges(s, steps)
    ensures s.audits <= Run(s, steps).audits
    ensures |Run(s, steps).audits| == |s.audits| + Admissions(s, steps)
    ensures FrozenImageChanges(s, steps) <= Admissions(s, steps)
  {
    hide Next, Frozen, ChangesImage, ChangesReason, Admits;
    if steps != [] {
      var n := |steps| - 1;
      OverridesAreCounted(s, steps[..n]);
      StepCounts(Run(s, steps[..n]), steps[n]);
    }
  }
}
