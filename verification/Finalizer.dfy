/** The finalizer protocol at the granularity of single requests (Reconcile, finalize, applyFinalizer), with
    users, other managers and the namespace controller acting between any two of them.

    Assumed: one reconcile runs at a time; the claim and the namespace a reconcile reads are current when
    it reads them; nobody else removes the controller's finalizer; and the API server refuses to add a
    finalizer to a claim that does not exist, because the request carries no spec, or is being deleted. */
module Finalizer {
  import opened Builders
  import opened Outcomes

  /** A claim: marked for deletion, holding the controller's finalizer, holding some other finalizer. */
  datatype Life = Life(deleting: bool, finalizer: bool, others: bool)

  /** A svc- namespace: the claim its labels name, whether it carries the managed-by label, and whether
      it is being deleted. Two history variables: the claim the controller last applied it for, if the
      claim labels have not changed since, and whether it kept the managed-by label since. */
  datatype Ns = Ns(owner: Option<ClaimId>, managed: bool, terminating: bool, appliedFor: Option<ClaimId>,
      keptLabel: bool)

  /** How far the running reconcile is. raced is history: someone changed the namespace after it was
      read. */
  datatype Phase =
    | Idle
    | Adding(id: ClaimId)
    | Holding(id: ClaimId)
    | Reading(id: ClaimId)
    | Deciding(id: ClaimId, read: Option<Ns>, raced: bool)

  datatype State = State(claims: map<ClaimId, Life>, namespaces: map<string, Ns>, phase: Phase)

  datatype Action =
    // The controller.
    | Fetch(id: ClaimId)
    | AddFinalizer
    | ApplyNamespace
    | ReadNamespace
    | Decide
    | Fail
    // Everyone else.
    | CreateClaim(id: ClaimId, others: bool)
    | DeleteClaim(id: ClaimId)
    | OthersRelease(id: ClaimId)
    | CreateNamespace(name: string, owner: Option<ClaimId>, managed: bool)
    | Relabel(name: string, owner: Option<ClaimId>, managed: bool)
    | DeleteNamespace(name: string)
    | NamespaceGone(name: string)

  const INIT := State(map[], map[], Idle)

  function NamespaceAt(s: State, id: ClaimId): Option<Ns> {
    if NamespaceName(id) in s.namespaces then Some(s.namespaces[NamespaceName(id)]) else None
  }

  /** The cached client sees only namespaces with the managed-by label. */
  function Cached(ns: Option<Ns>): Option<Ns> {
    if ns.Some? && ns.value.managed then ns else None
  }

  predicate Mine(read: Option<Ns>, id: ClaimId) {
    read.Some? && read.value.owner == Some(id)
  }

  /** The decision is to release the finalizer, or to delete the namespace. */
  predicate Releases(s: State) {
    s.phase.Deciding? && !Mine(s.phase.read, s.phase.id)
  }

  predicate Deletes(s: State) {
    s.phase.Deciding? && Mine(s.phase.read, s.phase.id) && !s.phase.read.value.terminating
  }

  function Released(claims: map<ClaimId, Life>, id: ClaimId): map<ClaimId, Life> {
    if id !in claims then claims
    else if claims[id].others || !claims[id].deleting then claims[id := claims[id].(finalizer := false)]
    else claims - {id}
  }

  function MarkDeleted(namespaces: map<string, Ns>, name: string): map<string, Ns> {
    if name in namespaces then namespaces[name := namespaces[name].(terminating := true)] else namespaces
  }

  /** Someone else changed a namespace: a decision pending on it was made on an older copy. */
  function Raced(phase: Phase, name: string): Phase {
    if phase.Deciding? && NamespaceName(phase.id) == name then phase.(raced := true) else phase
  }

  function FetchPhase(s: State, id: ClaimId): Phase {
    if id !in s.claims then Idle
    else if s.claims[id].deleting then (if s.claims[id].finalizer then Reading(id) else Idle)
    else if s.claims[id].finalizer then Holding(id) else Adding(id)
  }

  /** One action. An action the state does not allow leaves it as it is. */
  function Next(s: State, a: Action): State {
    match a
    case Fetch(id) => if s.phase.Idle? then s.(phase := FetchPhase(s, id)) else s
    case AddFinalizer =>
      if !s.phase.Adding? then s
      else
        var id := s.phase.id;
        if id in s.claims && !s.claims[id].deleting
        then s.(claims := s.claims[id := s.claims[id].(finalizer := true)], phase := Holding(id))
        else s.(phase := Idle)
    case ApplyNamespace =>
      if !s.phase.Holding? then s
      else
        var id, ns := s.phase.id, NamespaceAt(s, s.phase.id);
        var applied := Ns(Some(id), true, ns.Some? && ns.value.terminating, Some(id), true);
        s.(namespaces := s.namespaces[NamespaceName(id) := applied], phase := Idle)
    case ReadNamespace =>
      if !s.phase.Reading? then s else s.(phase := Deciding(s.phase.id, Cached(NamespaceAt(s, s.phase.id)), false))
    case Decide =>
      if !s.phase.Deciding? then s
      else if Releases(s) then s.(claims := Released(s.claims, s.phase.id), phase := Idle)
      else if Deletes(s) then s.(namespaces := MarkDeleted(s.namespaces, NamespaceName(s.phase.id)), phase := Idle)
      else s.(phase := Idle)
    case Fail => s.(phase := Idle)
    case CreateClaim(id, others) => if id in s.claims then s
        else s.(claims := s.claims[id := Life(false, false, others)])
    case DeleteClaim(id) =>
      if id !in s.claims then s
      else if s.claims[id].finalizer || s.claims[id].others
          then s.(claims := s.claims[id := s.claims[id].(deleting := true)])
      else s.(claims := s.claims - {id})
    case OthersRelease(id) =>
      if id !in s.claims then s
      else if s.claims[id].deleting && !s.claims[id].finalizer then s.(claims := s.claims - {id})
      else s.(claims := s.claims[id := s.claims[id].(others := false)])
    case CreateNamespace(name, owner, managed) =>
      if name in s.namespaces then s
      else s.(namespaces := s.namespaces[name := Ns(owner, managed, false, None, false)], phase := Raced(s.phase, name))
    case Relabel(name, owner, managed) =>
      if name !in s.namespaces then s
      else
        var ns := s.namespaces[name];
        var edited := ns.(owner := owner, managed := managed,
                          appliedFor := if owner == ns.owner then ns.appliedFor else None,
                          keptLabel := ns.keptLabel && managed);
        s.(namespaces := s.namespaces[name := edited], phase := Raced(s.phase, name))
    case DeleteNamespace(name) => s.(namespaces := MarkDeleted(s.namespaces, name), phase := Raced(s.phase, name))
    case NamespaceGone(name) =>
      if name in s.namespaces && s.namespaces[name].terminating
      then s.(namespaces := s.namespaces - {name}, phase := Raced(s.phase, name))
      else s
  }

  function Run(s: State, actions: seq<Action>): State {
    if actions == [] then s else Next(Run(s, actions[..|actions| - 1]), actions[|actions| - 1])
  }

  // ----- Safety -----

  predicate Exists(s: State, c: ClaimId) {
    c in s.claims && s.claims[c].finalizer
  }

  /** The namespace was applied for c, and has been labelled as c's, visibly, ever since. */
  predicate HeldFor(ns: Ns, c: ClaimId) {
    ns.appliedFor == Some(c) && ns.keptLabel
  }

  predicate SafeAt(s: State, name: string, c: ClaimId) {
    name in s.namespaces && HeldFor(s.namespaces[name], c) ==>
      Exists(s, c) && name == NamespaceName(c) && s.namespaces[name].owner == Some(c) && s.namespaces[name].managed
  }

  ghost predicate Safe(s: State) {
    forall name, c :: SafeAt(s, name, c)
  }

  predicate PhaseSound(s: State) {
    match s.phase
    case Holding(id) => Exists(s, id)
    case Reading(id) => Exists(s, id) && s.claims[id].deleting
    case Deciding(id, read, raced) =>
      && Exists(s, id) && s.claims[id].deleting
      && (!raced ==> read == Cached(NamespaceAt(s, id)))
      && (!Mine(read, id) && NamespaceAt(s, id).Some? ==> !HeldFor(NamespaceAt(s, id).value, id))
    case _ => true
  }

  ghost predicate Invariant(s: State) {
    Safe(s) && PhaseSound(s)
  }

  /** No claim that held the finalizer lost it, or its deletion mark. */
  ghost predicate ClaimsKept(s: State, t: State) {
    forall c :: Exists(s, c) ==> Exists(t, c) && (s.claims[c].deleting ==> t.claims[c].deleting)
  }

  /** A change to the claims alone keeps the invariant. */
  lemma ClaimChangeKeeps(s: State, t: State)
    requires Invariant(s) && t.namespaces == s.namespaces && t.phase == s.phase && ClaimsKept(s, t)
    ensures Invariant(t)
  {
    ClaimChangeSafe(s, t);
    ClaimChangePhase(s, t);
  }

  lemma ClaimChangeSafe(s: State, t: State)
    requires Safe(s) && t.namespaces == s.namespaces && ClaimsKept(s, t)
    ensures Safe(t)
  {
    hide NamespaceName, HeldFor;
    forall name, c ensures SafeAt(t, name, c) {
      assert SafeAt(s, name, c);
    }
  }

  lemma ClaimChangePhase(s: State, t: State)
    requires PhaseSound(s) && t.namespaces == s.namespaces && t.phase == s.phase && ClaimsKept(s, t)
    ensures PhaseSound(t)
  {
    hide NamespaceName, HeldFor, Mine, Cached;
    if s.phase.Holding? || s.phase.Reading? || s.phase.Deciding? {
      var id := s.phase.id;
      assert Exists(s, id) && NamespaceAt(t, id) == NamespaceAt(s, id);
    }
  }

  /** One namespace changed, or went, without coming to look applied. */
  ghost predicate NamespacesKept(s: State, t: State, name: string) {
    && (forall n :: n != name ==> (n in t.namespaces <==> n in s.namespaces))
    && (forall n :: n != name && n in s.namespaces ==> t.namespaces[n] == s.namespaces[n])
    && (forall c :: name in t.namespaces && HeldFor(t.namespaces[name], c) ==>
          && name in s.namespaces && HeldFor(s.namespaces[name], c)
          && t.namespaces[name].owner == s.namespaces[name].owner
          && (t.namespaces[name].managed || !s.namespaces[name].managed))
  }

  /** A change to one namespace keeps it, too. */
  lemma NamespaceChangeKeeps(s: State, t: State, name: string)
    requires Invariant(s) && t.claims == s.claims && t.phase == Raced(s.phase, name) && NamespacesKept(s, t, name)
    ensures Invariant(t)
  {
    NamespaceChangeSafe(s, t, name);
    NamespaceChangePhase(s, t, name);
  }

  lemma NamespaceChangeSafe(s: State, t: State, name: string)
    requires Safe(s) && t.claims == s.claims && NamespacesKept(s, t, name)
    ensures Safe(t)
  {
    hide NamespaceName, HeldFor;
    forall n, c ensures SafeAt(t, n, c) {
      assert SafeAt(s, n, c);
    }
  }

  lemma NamespaceChangePhase(s: State, t: State, name: string)
    requires PhaseSound(s) && t.claims == s.claims && t.phase == Raced(s.phase, name) && NamespacesKept(s, t, name)
    ensures PhaseSound(t)
  {
    hide NamespaceName, HeldFor, Mine, Cached;
    if s.phase.Deciding? {
      var id := s.phase.id;
      if NamespaceName(id) != name {
        assert NamespaceAt(t, id) == NamespaceAt(s, id);
      }
    }
  }

  lemma FetchKeeps(s: State, id: ClaimId)
    requires Invariant(s)
    ensures Invariant(Next(s, Fetch(id)))
  {
    hide NamespaceName, HeldFor, Mine, Cached;
    ClaimChangeSafe(s, Next(s, Fetch(id)));
  }

  lemma AddKeeps(s: State)
    requires Invariant(s)
    ensures Invariant(Next(s, AddFinalizer))
  {
    hide NamespaceName, HeldFor, Mine, Cached;
    ClaimChangeSafe(s, Next(s, AddFinalizer));
  }

  lemma ReadKeeps(s: State)
    requires Invariant(s)
    ensures Invariant(Next(s, ReadNamespace))
  {
    hide NamespaceName, HeldFor;
    ClaimChangeSafe(s, Next(s, ReadNamespace));
    if s.phase.Reading? {
      assert SafeAt(s, NamespaceName(s.phase.id), s.phase.id);
    }
  }

  lemma ApplyKeeps(s: State)
    requires Invariant(s)
    ensures Invariant(Next(s, ApplyNamespace))
  {
    hide NamespaceName, Mine, Cached;
    var t := Next(s, ApplyNamespace);
    forall n, c ensures SafeAt(t, n, c) {
      assert SafeAt(s, n, c);
    }
  }

  lemma DecideKeeps(s: State)
    requires Invariant(s)
    ensures Invariant(Next(s, Decide))
  {
    hide NamespaceName, HeldFor, Cached, Mine;
    var t := Next(s, Decide);
    forall n, c ensures SafeAt(t, n, c) {
      assert SafeAt(s, n, c);
      if Deletes(s) {
        MarkKeepsHeld(s, NamespaceName(s.phase.id), n, c);
      }
    }
  }

  lemma MarkKeepsHeld(s: State, marked: string, n: string, c: ClaimId)
    ensures var after := MarkDeleted(s.namespaces, marked);
            && (n in after <==> n in s.namespaces)
            && (n in after ==>
                  && (HeldFor(after[n], c) <==> HeldFor(s.namespaces[n], c))
                  && after[n].owner == s.namespaces[n].owner && after[n].managed == s.namespaces[n].managed)
  {}

  /** Every request of the controller keeps the invariant. */
  lemma ControllerKeeps(s: State, a: Action)
    requires Invariant(s)
    requires a.Fetch? || a.AddFinalizer? || a.ApplyNamespace? || a.ReadNamespace? || a.Decide? || a.Fail?
    ensures Invariant(Next(s, a))
  {
    hide Invariant, Next;
    match a {
      case Fetch(id) => FetchKeeps(s, id);
      case AddFinalizer => AddKeeps(s);
      case ReadNamespace => ReadKeeps(s);
      case ApplyNamespace => ApplyKeeps(s);
      case Decide => DecideKeeps(s);
      case Fail => FailKeeps(s);
    }
  }

  lemma FailKeeps(s: State)
    requires Invariant(s)
    ensures Invariant(Next(s, Fail))
  {
    hide NamespaceName, HeldFor, Mine, Cached;
    ClaimChangeSafe(s, Next(s, Fail));
  }

  /** So does everything others do. */
  lemma OthersKeep(s: State, a: Action)
    requires Invariant(s)
    requires !(a.Fetch? || a.AddFinalizer? || a.ApplyNamespace? || a.ReadNamespace? || a.Decide? || a.Fail?)
    ensures Invariant(Next(s, a))
  {
    hide Invariant, NamespaceName;
    if a.CreateClaim? || a.DeleteClaim? || a.OthersRelease? {
      ClaimChangeKeeps(s, Next(s, a));
    } else if a.Relabel? && a.name !in s.namespaces {
    } else if a.CreateNamespace? && a.name in s.namespaces {
    } else if a.NamespaceGone? && !(a.name in s.namespaces && s.namespaces[a.name].terminating) {
    } else {
      NamespaceChangeKeeps(s, Next(s, a), a.name);
    }
  }

  /** Safety over all runs: in every interleaving, a namespace the controller applied for claim c, and
      which has been labelled as c's ever since, belongs to a claim that exists and holds the
      finalizer. */
  lemma {:induction false} SafeOverRuns(s: State, actions: seq<Action>)
    requires Invariant(s)
    ensures Invariant(Run(s, actions))
  {
    if actions != [] {
      var a, before := actions[|actions| - 1], Run(s, actions[..|actions| - 1]);
      SafeOverRuns(s, actions[..|actions| - 1]);
      hide Invariant, Next;
      if a.Fetch? || a.AddFinalizer? || a.ApplyNamespace? || a.ReadNamespace? || a.Decide? || a.Fail? {
        ControllerKeeps(before, a);
      } else {
        OthersKeep(before, a);
      }
    }
  }

  // ----- What becomes of a namespace between its read and the decision -----

  function After(actions: seq<Action>, m: nat): State
    requires m <= |actions|
  {
    Run(INIT, actions[..m])
  }

  lemma AfterNext(actions: seq<Action>, m: nat)
    requires m < |actions|
    ensures After(actions, m + 1) == Next(After(actions, m), actions[m])
  {
    assert actions[..m + 1][..m] == actions[..m];
  }

  /** The owner an action's labels give a namespace, if the action takes effect and names one: a relabel of
      an existing namespace, or the creation of a missing one. */
  function Named(s: State, a: Action, name: string): Option<Option<ClaimId>> {
    match a
    case Relabel(n, owner, _) => if n == name && n in s.namespaces then Some(owner) else None
    case CreateNamespace(n, owner, _) => if n == name && n !in s.namespaces then Some(owner) else None
    case _ => None
  }

  function NamedAt(actions: seq<Action>, i: nat, id: ClaimId): Option<Option<ClaimId>>
    requires i < |actions|
  {
    Named(After(actions, i), actions[i], NamespaceName(id))
  }

  /** Between actions k and m someone named another owner, and nobody named id after that. */
  ghost predicate HandedOver(actions: seq<Action>, k: nat, m: nat, id: ClaimId)
    requires m <= |actions|
  {
    exists i :: k <= i < m && NamedAt(actions, i, id).Some? && NamedAt(actions, i, id).value != Some(id)
                && forall j :: i < j < m ==> NamedAt(actions, j, id) != Some(Some(id))
  }

  /** Between actions k and m someone named id, and nobody named another owner after that. */
  ghost predicate HandedBack(actions: seq<Action>, k: nat, m: nat, id: ClaimId)
    requires m <= |actions|
  {
    exists i :: k <= i < m && NamedAt(actions, i, id) == Some(Some(id))
                && forall j :: i < j < m ==> NamedAt(actions, j, id) in {None, Some(Some(id))}
  }

  /** From action k to action m the controller has read the namespace for id and not decided. */
  ghost predicate Pending(actions: seq<Action>, k: nat, m: nat, id: ClaimId, read: Option<Ns>)
    requires m <= |actions|
  {
    k <= m && forall i :: k <= i <= m ==> var p := After(actions, i).phase; p.Deciding? && p.id == id && p.read == read
  }

  lemma HandedStep(actions: seq<Action>, k: nat, m: nat, id: ClaimId)
    requires k <= m < |actions|
    ensures var named := NamedAt(actions, m, id);
            && (HandedOver(actions, k, m + 1, id) <==>
                  (named.Some? && named.value != Some(id))
                      || (HandedOver(actions, k, m, id) && named != Some(Some(id))))
            && (HandedBack(actions, k, m + 1, id) <==>
                  named == Some(Some(id)) || (HandedBack(actions, k, m, id) && named.None?))
  {
    hide NamedAt;
    var named := NamedAt(actions, m, id);
    if named.Some? && named.value != Some(id) {
      assert HandedOver(actions, k, m + 1, id);
    }
    if named == Some(Some(id)) {
      assert HandedBack(actions, k, m + 1, id);
    }
  }

  /** While the controller has yet to decide, the labels of a namespace that is there are those it was last
      given, or those it had when it was read. */
  lemma {:induction false} OwnerSinceRead(actions: seq<Action>, k: nat, m: nat, id: ClaimId, read: Option<Ns>)
    requires m <= |actions| && Pending(actions, k, m, id, read)
    ensures NamespaceAt(After(actions, m), id).Some? ==>
              (Mine(NamespaceAt(After(actions, m), id), id) <==>
                 || HandedBack(actions, k, m, id)
                 || (Mine(NamespaceAt(After(actions, k), id), id) && !HandedOver(actions, k, m, id)))
    ensures !(HandedBack(actions, k, m, id) && HandedOver(actions, k, m, id))
    decreases m
  {
    hide HandedOver, HandedBack, After, NamespaceAt, Next, Named;
    if k < m {
      OwnerSinceRead(actions, k, m - 1, id, read);
      AfterNext(actions, m - 1);
      HandedStep(actions, k, m - 1, id);
      assert After(actions, m - 1).phase.Deciding? && After(actions, m).phase.Deciding?;
      OwnerStep(After(actions, m - 1), actions[m - 1], id);
    } else {
      NothingHanded(actions, k, id);
    }
  }

  lemma NothingHanded(actions: seq<Action>, k: nat, id: ClaimId)
    requires k <= |actions|
    ensures !HandedOver(actions, k, k, id) && !HandedBack(actions, k, k, id)
  {}

  /** One action, while the controller has yet to decide. */
  lemma OwnerStep(s: State, a: Action, id: ClaimId)
    requires s.phase.Deciding? && Next(s, a).phase.Deciding?
    ensures var after, named := NamespaceAt(Next(s, a), id), Named(s, a, NamespaceName(id));
            && (named.Some? ==> after.Some? && after.value.owner == named.value)
            && (named.None? && after.Some? ==>
                NamespaceAt(s, id).Some? && after.value.owner == NamespaceAt(s, id).value.owner)
  {
    hide NamespaceName;
  }

  /** A run that has the controller deciding has read the namespace at some point, and been deciding on that
      copy since. */
  lemma {:induction false} LastRead(actions: seq<Action>, m: nat) returns (k: nat)
    requires m <= |actions| && After(actions, m).phase.Deciding?
    ensures k <= m && Pending(actions, k, m, After(actions, m).phase.id, After(actions, m).phase.read)
    ensures !After(actions, k).phase.raced
    decreases m
  {
    var p := After(actions, m).phase;
    if !p.raced {
      k := m;
    } else {
      assert m > 0 by { assert actions[..0] == []; }
      AfterNext(actions, m - 1);
      RacedBefore(After(actions, m - 1), actions[m - 1]);
      k := LastRead(actions, m - 1);
    }
  }

  lemma RacedBefore(s: State, a: Action)
    requires Next(s, a).phase.Deciding? && Next(s, a).phase.raced
    ensures s.phase.Deciding? && s.phase.id == Next(s, a).phase.id && s.phase.read == Next(s, a).phase.read
  {}

  /** What a delete hits. In every run, the controller deletes a namespace only for a claim that is being
      deleted and still holds the finalizer, on a copy that was current when read and labelled as that
      claim's. The namespace it then deletes is labelled otherwise exactly when someone, since that
      read, named another owner and nobody named the claim again. */
  lemma DeleteIsForItsClaim(actions: seq<Action>) returns (k: nat)
    requires Deletes(Run(INIT, actions))
    ensures var s := Run(INIT, actions);
            var id, read := s.phase.id, s.phase.read;
            && k <= |actions| && Pending(actions, k, |actions|, id, read)
                && read == Cached(NamespaceAt(After(actions, k), id))
            && Exists(s, id) && s.claims[id].deleting && Mine(read, id)
            && (NamespaceAt(s, id).Some? ==>
                  (!Mine(NamespaceAt(s, id), id) <==> HandedOver(actions, k, |actions|, id)))
  {
    var s, n := Run(INIT, actions), |actions|;
    assert actions[..n] == actions;
    SafeOverRuns(INIT, actions);
    k := LastRead(actions, n);
    SafeOverRuns(INIT, actions[..k]);
    assert PhaseSound(After(actions, k));
    OwnerSinceRead(actions, k, n, s.phase.id, s.phase.read);
  }

  /** What a release leaves behind: a namespace labelled as the claim's exactly when one is there that
      someone, since it was read, handed back to the claim, or that was labelled as the claim's when it
      was read, but without the managed-by label, and was not handed over since. */
  lemma ReleaseOrphansIff(actions: seq<Action>) returns (k: nat)
    requires Releases(Run(INIT, actions))
    ensures var s := Run(INIT, actions);
            var id, read, after := s.phase.id, s.phase.read, Next(s, Decide);
            && k <= |actions| && Pending(actions, k, |actions|, id, read)
            && !Exists(after, id)
            && (Mine(NamespaceAt(after, id), id) <==>
                  && NamespaceAt(s, id).Some?
                  && (|| HandedBack(actions, k, |actions|, id)
                      || (var was := NamespaceAt(After(actions, k), id);
                          Mine(was, id) && !was.value.managed && !HandedOver(actions, k, |actions|, id))))
  {
    var s, n := Run(INIT, actions), |actions|;
    assert actions[..n] == actions;
    SafeOverRuns(INIT, actions);
    k := LastRead(actions, n);
    SafeOverRuns(INIT, actions[..k]);
    assert PhaseSound(After(actions, k));
    OwnerSinceRead(actions, k, n, s.phase.id, s.phase.read);
    hide HandedOver, HandedBack, Pending;
  }

  // ----- Where the protocol's guarantees end -----

  lemma RunStep(s: State, actions: seq<Action>, a: Action)
    ensures Run(s, actions + [a]) == Next(Run(s, actions), a)
  {}

  lemma RunTwo(s: State, a: seq<Action>)
    requires |a| == 2
    ensures Run(s, a) == Next(Next(s, a[0]), a[1])
  {
    hide Next;
    assert a == ([] + [a[0]]) + [a[1]];
    RunStep(s, [] + [a[0]], a[1]);
    RunStep(s, [], a[0]);
  }

  lemma RunThree(s: State, a: seq<Action>)
    requires |a| == 3
    ensures Run(s, a) == Next(Next(Next(s, a[0]), a[1]), a[2])
  {
    hide Next;
    assert a == a[..2] + [a[2]];
    RunStep(s, a[..2], a[2]);
    RunTwo(s, a[..2]);
  }

  lemma {:induction false} RunConcat(s: State, a: seq<Action>, b: seq<Action>)
    ensures Run(s, a + b) == Run(Run(s, a), b)
    decreases |b|
  {
    hide Next;
    if b == [] {
      assert a + b == a;
    } else {
      RunConcat(s, a, b[..|b| - 1]);
      assert a + b == (a + b[..|b| - 1]) + [b[|b| - 1]];
      RunStep(s, a + b[..|b| - 1], b[|b| - 1]);
    }
  }

  /** The state after the controller has created a claim's namespace. */
  lemma Applied(c: ClaimId) returns (actions: seq<Action>)
    ensures Run(INIT, actions) ==
            State(map[c := Life(false, true, false)], map[NamespaceName(c) := Ns(Some(c), true, false, Some(c), true)],
                Idle)
    ensures forall i :: 0 <= i < |actions| ==> !actions[i].DeleteNamespace?
  {
    hide NamespaceName, Run;
    var created, added := [CreateClaim(c, false), Fetch(c)], [AddFinalizer, ApplyNamespace];
    RunTwo(INIT, created);
    RunTwo(Run(INIT, created), added);
    RunConcat(INIT, created, added);
    actions := created + added;
  }

  /** The managed-by label matters. If someone strips it from a claim's namespace, the controller takes
      the namespace for gone: the claim's finalizer is released while the namespace, which it created
      and which is still labelled as the claim's, stays behind. */
  lemma StrippedLabelOrphans(c: ClaimId) returns (actions: seq<Action>)
    ensures var s := Run(INIT, actions);
            c !in s.claims && NamespaceAt(s, c).Some? && NamespaceAt(s, c).value.appliedFor == Some(c)
                && Mine(NamespaceAt(s, c), c)
  {
    hide NamespaceName, Run;
    var applied := Applied(c);
    var stripped, finalized := [Relabel(NamespaceName(c), Some(c), false), DeleteClaim(c)],
        [Fetch(c), ReadNamespace, Decide];
    var s0 := Run(INIT, applied);
    RunTwo(s0, stripped);
    RunConcat(INIT, applied, stripped);
    var s1 := Run(INIT, applied + stripped);
    assert s1 == State(map[c := Life(true, true, false)],
        map[NamespaceName(c) := Ns(Some(c), false, false, Some(c), false)], Idle);
    RunThree(s1, finalized);
    RunConcat(INIT, applied + stripped, finalized);
    actions := applied + stripped + finalized;
  }

  /** The delete names the namespace and nothing else. If someone hands the namespace to another claim
      after it was read, the other claim's namespace is deleted. */
  lemma RelabelledNamespaceIsDeleted(c: ClaimId, d: ClaimId) returns (actions: seq<Action>)
    requires c != d
    ensures var s := Run(INIT, actions);
            NamespaceAt(s, c).Some? && NamespaceAt(s, c).value.owner == Some(d) && NamespaceAt(s, c).value.terminating
    ensures forall i :: 0 <= i < |actions| ==> !actions[i].DeleteNamespace?
  {
    hide NamespaceName, Run;
    var applied := Applied(c);
    var reading, handed := [DeleteClaim(c), Fetch(c), ReadNamespace],
        [Relabel(NamespaceName(c), Some(d), true), Decide];
    var s0, held := Run(INIT, applied), Ns(Some(c), true, false, Some(c), true);
    RunThree(s0, reading);
    RunConcat(INIT, applied, reading);
    var s1 := Run(INIT, applied + reading);
    assert s1 == State(map[c := Life(true, true, false)], map[NamespaceName(c) := held],
        Deciding(c, Some(held), false));
    RunTwo(s1, handed);
    RunConcat(INIT, applied + reading, handed);
    actions := applied + reading + handed;
  }
}
