/** The shortlink service's store (services/shortlink/store.go): random codes, adds that retry, and what
    concurrent adds and gets may rely on. Random bytes are inputs. */
module LinkStore {
  import opened Outcomes

  const CODE_LENGTH := 7
  const CODE_ALPHABET := "abcdefghijkmnopqrstuvwxyzABCDEFGHJKLMNPQRSTUVWXYZ23456789"
  const CODE_ATTEMPTS := 5

  type Byte = b: int | 0 <= b < 256

  /** What the system's random source answers. */
  datatype Draw = Random(bytes: seq<Byte>) | Unreadable

  predicate ValidDraw(d: Draw) {
    d.Random? ==> |d.bytes| == CODE_LENGTH
  }

  predicate ValidCode(code: string) {
    |code| == CODE_LENGTH && forall c :: c in code ==> c in CODE_ALPHABET
  }

  function CodeOf(bytes: seq<Byte>): (code: string)
    ensures |code| == |bytes| && forall c :: c in code ==> c in CODE_ALPHABET
  {
    seq(|bytes|, i requires 0 <= i < |bytes| => CODE_ALPHABET[bytes[i] % |CODE_ALPHABET|])
  }

  /** The random byte decides the character: all 57 of them come from four or five of the 256 bytes, so no
      code is impossible and none is much likelier than another. */
  lemma CharacterOfByte(bytes: seq<Byte>, i: nat) returns (c: nat)
    requires i < |bytes|
    ensures |CODE_ALPHABET| == 57 && c < 57 && CodeOf(bytes)[i] == CODE_ALPHABET[c]
    ensures bytes[i] in {c, c + 57, c + 114, c + 171, c + 228}
  {
    var b := bytes[i];
    c := if b < 57 then b else if b < 114 then b - 57 else if b < 171 then b - 114
        else if b < 228 then b - 171 else b - 228;
    assert b % 57 == c;
  }

  /** randomCode: fills a buffer with random bytes and replaces each by a character of the alphabet. */
  method RandomCode(d: Draw) returns (code: Option<string>)
    requires ValidDraw(d)
    ensures code == if d.Random? then Some(CodeOf(d.bytes)) else None
    ensures code.Some? ==> ValidCode(code.value)
  {
    if d.Unreadable? {
      return None;
    }
    // A Go byte holds first a random number, then a character: here both are chars below 256.
    var buf := new char[CODE_LENGTH](i requires 0 <= i < CODE_LENGTH => d.bytes[i] as char);
    for i := 0 to buf.Length
      invariant forall j :: 0 <= j < i ==> buf[j] == CodeOf(d.bytes)[j]
      invariant forall j :: i <= j < buf.Length ==> buf[j] as int == d.bytes[j]
    {
      buf[i] := CODE_ALPHABET[buf[i] as int % |CODE_ALPHABET|];
    }
    assert buf[..] == CodeOf(d.bytes);
    return Some(buf[..]);
  }

  datatype AddError = RandomFailed | NoUnusedCode

  /** The draw makes a code that is taken. */
  predicate Wasted(links: map<string, string>, d: Draw) {
    d.Random? && CodeOf(d.bytes) in links
  }

  class Store {
    var links: map<string, string>

    constructor ()
      ensures links == map[]
    {
      links := map[];
    }

    /** add, with no other request in between: the first draw that is not taken decides. */
    method Add(target: string, draws: seq<Draw>) returns (result: Result<string, AddError>)
      requires |draws| == CODE_ATTEMPTS && forall i :: 0 <= i < |draws| ==> ValidDraw(draws[i])
      modifies this
      ensures result.Ok? ==>
                && result.value !in old(links) && links == old(links)[result.value := target] && ValidCode(result.value)
                && exists i :: 0 <= i < |draws| && draws[i].Random? && result.value == CodeOf(draws[i].bytes)
                               && forall j :: 0 <= j < i ==> Wasted(old(links), draws[j])
      ensures result.Err? ==> links == old(links)
      ensures result.Err? && result.error.NoUnusedCode? ==> forall i :: 0 <= i < |draws| ==>
          Wasted(old(links), draws[i])
      ensures result.Err? && result.error.RandomFailed? ==>
                exists i :: 0 <= i < |draws| && draws[i].Unreadable? && forall j :: 0 <= j < i ==>
                    Wasted(old(links), draws[j])
    {
      for i := 0 to CODE_ATTEMPTS
        invariant links == old(links)
        invariant forall j :: 0 <= j < i ==> Wasted(old(links), draws[j])
      {
        var code := RandomCode(draws[i]);
        if code.None? {
          return Err(RandomFailed);
        }
        if code.value !in links {
          links := links[code.value := target];
          return Ok(code.value);
        }
      }
      return Err(NoUnusedCode);
    }
  }

  // ----- Concurrent adds and gets -----

  /** Where a request is. An adding one has tried some codes; from Locked to Stored it holds the write
      lock, and Reading holds the read lock. */
  datatype Thread =
    | Choosing(target: string, tried: seq<string>)
    | Chosen(target: string, tried: seq<string>, code: string)
    | Locked(target: string, tried: seq<string>, code: string)
    | Looked(target: string, tried: seq<string>, code: string, taken: bool)
    | Stored(target: string, code: string)
    | Returned(target: string, code: string)
    | Failed(tried: seq<string>)
    | Broken
    | Waiting(code: string)
    | Reading(code: string)
    | Got(code: string, found: Option<string>)

  datatype State = State(links: map<string, string>, threads: map<nat, Thread>, writer: Option<nat>, readers: set<nat>)

  datatype Step = ReadRandom(draw: Draw) | Lock | Look | Insert | Unlock | RLock | Read

  datatype Event =
    | StartAdd(t: nat, target: string)
    | StartGet(t: nat, code: string)
    | Do(t: nat, step: Step)

  const INIT := State(map[], map[], None, {})

  function Put(s: State, t: nat, p: Thread): State {
    s.(threads := s.threads[t := p])
  }

  function Retry(p: Thread): Thread
    requires p.Looked?
  {
    if |p.tried| + 1 == CODE_ATTEMPTS then Failed(p.tried + [p.code]) else Choosing(p.target, p.tried + [p.code])
  }

  /** One step of a request. A step that cannot be taken changes nothing. */
  function Stepped(s: State, t: nat, step: Step): State
    requires t in s.threads
  {
    var p := s.threads[t];
    match step
    case ReadRandom(d) =>
      if !p.Choosing? || !ValidDraw(d) then s
      else if d.Unreadable? then Put(s, t, Broken)
      else Put(s, t, Chosen(p.target, p.tried, CodeOf(d.bytes)))
    case Lock =>
      if p.Chosen? && s.writer.None? && s.readers == {}
      then Put(s, t, Locked(p.target, p.tried, p.code)).(writer := Some(t)) else s
    case Look => if p.Locked? then Put(s, t, Looked(p.target, p.tried, p.code, p.code in s.links)) else s
    case Insert =>
      if p.Looked? && !p.taken then Put(s, t, Stored(p.target, p.code)).(links := s.links[p.code := p.target]) else s
    case Unlock =>
      if p.Stored? then Put(s, t, Returned(p.target, p.code)).(writer := None)
      else if p.Looked? && p.taken then Put(s, t, Retry(p)).(writer := None)
      else s
    case RLock => if p.Waiting? && s.writer.None? then Put(s, t, Reading(p.code)).(readers := s.readers + {t}) else s
    case Read =>
      if p.Reading?
      then Put(s, t, Got(p.code, if p.code in s.links then Some(s.links[p.code])
          else None)).(readers := s.readers - {t})
      else s
  }

  function Next(s: State, e: Event): State {
    match e
    case StartAdd(t, target) => if t in s.threads then s else Put(s, t, Choosing(target, []))
    case StartGet(t, code) => if t in s.threads then s else Put(s, t, Waiting(code))
    case Do(t, step) => if t in s.threads then Stepped(s, t, step) else s
  }

  function Run(s: State, events: seq<Event>): State {
    if events == [] then s else Next(Run(s, events[..|events| - 1]), events[|events| - 1])
  }

  predicate HoldsWriteLock(p: Thread) {
    p.Locked? || p.Looked? || p.Stored?
  }

  /** The request has put its code into the map. */
  predicate Added(p: Thread) {
    p.Stored? || p.Returned?
  }

  predicate TriedOk(links: map<string, string>, tried: seq<string>) {
    forall c :: c in tried ==> c in links
  }

  /** What is true of one request in every reachable state. */
  predicate ThreadSound(links: map<string, string>, p: Thread) {
    match p
    case Choosing(_, tried) => |tried| < CODE_ATTEMPTS && TriedOk(links, tried)
    case Chosen(_, tried, code) => |tried| < CODE_ATTEMPTS && TriedOk(links, tried) && ValidCode(code)
    case Locked(_, tried, code) => |tried| < CODE_ATTEMPTS && TriedOk(links, tried) && ValidCode(code)
    case Looked(_, tried, code, taken) =>
      |tried| < CODE_ATTEMPTS && TriedOk(links, tried) && ValidCode(code) && (taken <==> code in links)
    case Stored(target, code) => code in links && links[code] == target
    case Returned(target, code) => code in links && links[code] == target
    case Failed(tried) => |tried| == CODE_ATTEMPTS && TriedOk(links, tried)
    case Got(code, found) => found.Some? ==> code in links && links[code] == found.value
    case _ => true
  }

  predicate LocksSound(s: State) {
    && (forall t :: t in s.threads && HoldsWriteLock(s.threads[t]) ==> s.writer == Some(t))
    && (s.writer.Some? ==> s.writer.value in s.threads && HoldsWriteLock(s.threads[s.writer.value]) && s.readers == {})
    && (forall t :: t in s.threads && s.threads[t].Reading? ==> t in s.readers)
  }

  predicate CodesDistinct(s: State) {
    forall t, u :: t in s.threads && u in s.threads && t != u && Added(s.threads[t]) && Added(s.threads[u]) ==>
      s.threads[t].code != s.threads[u].code
  }

  /** Every stored code is well formed, and some request added it. */
  ghost predicate LinksSound(s: State) {
    forall c :: c in s.links ==>
        ValidCode(c) && exists t :: t in s.threads && Added(s.threads[t]) && s.threads[t].code == c
  }

  predicate ThreadsSound(s: State) {
    forall t :: t in s.threads ==> ThreadSound(s.links, s.threads[t])
  }

  ghost predicate Invariant(s: State) {
    ThreadsSound(s) && LocksSound(s) && CodesDistinct(s) && LinksSound(s)
  }

  predicate Grows(before: map<string, string>, after: map<string, string>) {
    forall c :: c in before ==> c in after && after[c] == before[c]
  }

  predicate Inserting(s: State, e: Event) {
    e.Do? && e.step.Insert? && e.t in s.threads && s.threads[e.t].Looked? && !s.threads[e.t].taken
  }

  lemma InsertKeepsThreads(s: State, t: nat)
    requires ThreadsSound(s) && LocksSound(s) && Inserting(s, Do(t, Insert))
    ensures ThreadsSound(Next(s, Do(t, Insert)))
  {}

  lemma InsertKeepsCodes(s: State, t: nat)
    requires ThreadsSound(s) && CodesDistinct(s) && LinksSound(s) && Inserting(s, Do(t, Insert))
    ensures CodesDistinct(Next(s, Do(t, Insert))) && LinksSound(Next(s, Do(t, Insert)))
  {
    var p, after := s.threads[t], Next(s, Do(t, Insert));
    hide ValidCode, TriedOk;
    assert ThreadSound(s.links, p);
    forall u | u in s.threads && u != t && Added(s.threads[u]) ensures s.threads[u].code != p.code {
      assert ThreadSound(s.links, s.threads[u]);
    }
    hide ThreadSound;
    forall c | c in after.links
      ensures ValidCode(c) && exists u :: u in after.threads && Added(after.threads[u]) && after.threads[u].code == c
    {
      if c == p.code {
        assert after.threads[t].code == c;
      } else {
        var u :| u in s.threads && Added(s.threads[u]) && s.threads[u].code == c;
        assert after.threads[u] == s.threads[u];
      }
    }
  }

  lemma KeepsLocks(s: State, e: Event)
    requires LocksSound(s)
    ensures LocksSound(Next(s, e))
  {
    hide ValidCode, CodeOf;
  }

  lemma LocalKeepsThreads(s: State, e: Event)
    requires ThreadsSound(s) && !Inserting(s, e)
    ensures ThreadsSound(Next(s, e)) && Next(s, e).links == s.links
  {
    hide ValidCode;
    if e.Do? && e.step.ReadRandom? && e.step.draw.Random? && ValidDraw(e.step.draw) {
      CodeIsValid(e.step.draw.bytes);
    }
    hide CodeOf;
  }

  lemma CodeIsValid(bytes: seq<Byte>)
    requires |bytes| == CODE_LENGTH
    ensures ValidCode(CodeOf(bytes))
  {}

  /** A step other than an insertion adds no code and forgets none. */
  lemma LocalKeepsAdded(s: State, e: Event)
    requires !Inserting(s, e)
    ensures var after := Next(s, e);
            && after.links == s.links
            && (forall t :: t in s.threads ==> t in after.threads)
            && (forall t :: t in after.threads && Added(after.threads[t]) ==>
                  t in s.threads && Added(s.threads[t]) && s.threads[t].code == after.threads[t].code)
            && (forall t :: t in s.threads && Added(s.threads[t]) ==>
                Added(after.threads[t]) && s.threads[t].code == after.threads[t].code)
  {
    hide ValidCode, CodeOf;
  }

  lemma LocalKeepsCodes(s: State, e: Event)
    requires CodesDistinct(s) && LinksSound(s) && !Inserting(s, e)
    ensures CodesDistinct(Next(s, e)) && LinksSound(Next(s, e))
  {
    hide Next, ValidCode, Inserting;
    LocalKeepsAdded(s, e);
    var after := Next(s, e);
    forall c | c in after.links
      ensures ValidCode(c) && exists u :: u in after.threads && Added(after.threads[u]) && after.threads[u].code == c
    {
      var u :| u in s.threads && Added(s.threads[u]) && s.threads[u].code == c;
      assert Added(after.threads[u]) && after.threads[u].code == c;
    }
  }

  lemma StepKeeps(s: State, e: Event)
    requires Invariant(s)
    ensures Invariant(Next(s, e)) && Grows(s.links, Next(s, e).links)
  {
    hide ThreadsSound, LocksSound, CodesDistinct, LinksSound, Next;
    KeepsLocks(s, e);
    if Inserting(s, e) {
      InsertKeepsThreads(s, e.t);
      InsertKeepsCodes(s, e.t);
      InsertGrows(s, e.t);
    } else {
      LocalKeepsThreads(s, e);
      LocalKeepsCodes(s, e);
    }
  }

  lemma InsertGrows(s: State, t: nat)
    requires ThreadsSound(s) && Inserting(s, Do(t, Insert))
    ensures Grows(s.links, Next(s, Do(t, Insert)).links)
  {}

  /** In every interleaving of adds and gets, for every stream of random bytes, the invariant holds and the
      map has only grown. */
  lemma {:induction false} RunKeeps(s: State, events: seq<Event>)
    requires Invariant(s)
    ensures Invariant(Run(s, events)) && Grows(s.links, Run(s, events).links)
  {
    hide Next, Invariant;
    if events != [] {
      RunKeeps(s, events[..|events| - 1]);
      StepKeeps(Run(s, events[..|events| - 1]), events[|events| - 1]);
    }
  }

  lemma {:induction false} RunSplit(s: State, a: seq<Event>, b: seq<Event>)
    ensures Run(s, a + b) == Run(Run(s, a), b)
    decreases |b|
  {
    hide Next;
    if b == [] {
      assert a + b == a;
    } else {
      RunSplit(s, a, b[..|b| - 1]);
      assert (a + b)[..|a + b| - 1] == a + b[..|b| - 1];
    }
  }

  /** A code an add returned resolves to its target forever, and no other add ever returns it; it is seven
      characters of the alphabet. */
  lemma ReturnedCodeLasts(events: seq<Event>, later: seq<Event>, t: nat)
    requires var s := Run(INIT, events); t in s.threads && s.threads[t].Returned?
    ensures var p, end := Run(INIT, events).threads[t], Run(INIT, events + later);
            && ValidCode(p.code)
            && p.code in end.links && end.links[p.code] == p.target
            && (forall u ::
                  u in end.threads && end.threads[u].Got? && end.threads[u].code == p.code
                      && end.threads[u].found.Some? ==>
                  end.threads[u].found.value == p.target)
            && (forall u :: u in end.threads && u != t && end.threads[u].Returned? ==> end.threads[u].code != p.code)
  {
    var s := Run(INIT, events);
    hide Run, ValidCode;
    RunKeeps(INIT, events);
    RunKeeps(s, later);
    RunSplit(INIT, events, later);
    ReturnedStays(s, later, t);
    hide Invariant;
    ReturnedFacts(Run(INIT, events + later), t);
  }

  lemma ReturnedFacts(s: State, t: nat)
    requires Invariant(s) && t in s.threads && s.threads[t].Returned?
    ensures var p := s.threads[t];
            && p.code in s.links && s.links[p.code] == p.target && ValidCode(p.code)
            && (forall u ::
                  u in s.threads && s.threads[u].Got? && s.threads[u].code == p.code && s.threads[u].found.Some? ==>
                  s.threads[u].found.value == p.target)
            && (forall u :: u in s.threads && u != t && s.threads[u].Returned? ==> s.threads[u].code != p.code)
  {
    hide ValidCode, LocksSound, TriedOk;
    assert ThreadSound(s.links, s.threads[t]);
    forall u | u in s.threads && s.threads[u].Got? ensures ThreadSound(s.links, s.threads[u]) {}
  }

  lemma {:induction false} ReturnedStays(s: State, later: seq<Event>, t: nat)
    requires t in s.threads && s.threads[t].Returned?
    ensures t in Run(s, later).threads && Run(s, later).threads[t] == s.threads[t]
  {
    hide Next;
    if later != [] {
      ReturnedStays(s, later[..|later| - 1], t);
      ReturnedStep(Run(s, later[..|later| - 1]), later[|later| - 1], t);
    }
  }

  lemma ReturnedStep(s: State, e: Event, t: nat)
    requires t in s.threads && s.threads[t].Returned?
    ensures t in Next(s, e).threads && Next(s, e).threads[t] == s.threads[t]
  {
    hide CodeOf, ValidDraw;
  }

  /** A get that starts reading after an add returned a code finds the target. */
  lemma ReturnedCodeIsFound(events: seq<Event>, t: nat, u: nat)
    requires var s := Run(INIT, events);
             t in s.threads && s.threads[t].Returned? && u in s.threads && s.threads[u].Reading?
                 && s.threads[u].code == s.threads[t].code
    ensures Next(Run(INIT, events), Do(u, Read)).threads[u]
        == Got(Run(INIT, events).threads[t].code, Some(Run(INIT, events).threads[t].target))
  {
    RunKeeps(INIT, events);
  }

  /** The request looked the code up, under the lock, and it was taken. */
  ghost predicate FoundTaken(events: seq<Event>, t: nat, code: string) {
    exists i :: 0 <= i < |events| && LooksUp(events, i, t, code) && code in Run(INIT, events[..i]).links
  }

  predicate LooksUp(events: seq<Event>, i: nat, t: nat, code: string)
    requires i < |events|
  {
    var s := Run(INIT, events[..i]);
    events[i] == Do(t, Look) && t in s.threads && s.threads[t].Locked? && s.threads[t].code == code
  }

  /** The codes a request has found taken so far. */
  function Spent(p: Thread): seq<string> {
    match p
    case Choosing(_, tried) => tried
    case Chosen(_, tried, _) => tried
    case Locked(_, tried, _) => tried
    case Looked(_, tried, code, taken) => if taken then tried + [code] else tried
    case Failed(tried) => tried
    case _ => []
  }

  lemma FoundTakenLater(events: seq<Event>, t: nat, code: string)
    requires events != [] && FoundTaken(events[..|events| - 1], t, code)
    ensures FoundTaken(events, t, code)
  {
    hide Run;
    var init := events[..|events| - 1];
    var i :| 0 <= i < |init| && LooksUp(init, i, t, code) && code in Run(INIT, init[..i]).links;
    assert init[..i] == events[..i];
    assert LooksUp(events, i, t, code);
  }

  /** A step adds to what a request has spent only the code it has just looked up, and found taken. */
  lemma SpentStep(s: State, e: Event, t: nat, code: string)
    requires t in Next(s, e).threads && code in Spent(Next(s, e).threads[t])
    ensures t in s.threads
    ensures || code in Spent(s.threads[t])
            || (e == Do(t, Look) && s.threads[t].Locked? && s.threads[t].code == code && code in s.links)
  {
    hide CodeOf, ValidDraw;
  }

  /** Every code a request gave up on was taken when it was looked up. */
  lemma {:induction false} SpentWereTaken(events: seq<Event>, t: nat, code: string)
    requires t in Run(INIT, events).threads && code in Spent(Run(INIT, events).threads[t])
    ensures FoundTaken(events, t, code)
  {
    hide Next, Spent, FoundTaken;
    if events != [] {
      var n := |events| - 1;
      var init := events[..n];
      SpentStep(Run(INIT, init), events[n], t, code);
      if code in Spent(Run(INIT, init).threads[t]) {
        SpentWereTaken(init, t, code);
        FoundTakenLater(events, t, code);
      } else {
        assert LooksUp(events, n, t, code);
        JustFound(events, n, t, code);
      }
    }
  }

  lemma JustFound(events: seq<Event>, n: nat, t: nat, code: string)
    requires n < |events| && LooksUp(events, n, t, code) && code in Run(INIT, events[..n]).links
    ensures FoundTaken(events, t, code)
  {}

  /** The request is over, and has not stored anything, then or ever. */
  ghost predicate NeverAdded(events: seq<Event>, t: nat) {
    forall i :: 0 <= i <= |events| ==>
      var s := Run(INIT, events[..i]);
      t in s.threads ==> !Added(s.threads[t])
  }

  lemma AddedStays(s: State, e: Event, t: nat)
    requires t in s.threads && Added(s.threads[t])
    ensures t in Next(s, e).threads && Added(Next(s, e).threads[t])
  {
    hide CodeOf, ValidDraw;
  }

  lemma {:induction false} NotAddedNever(events: seq<Event>, t: nat)
    requires t in Run(INIT, events).threads ==> !Added(Run(INIT, events).threads[t])
    ensures NeverAdded(events, t)
  {
    hide Next, Added;
    var n := |events|;
    assert events[..n] == events;
    if n > 0 {
      var init := events[..n - 1];
      var before := Run(INIT, init);
      if t in before.threads && Added(before.threads[t]) {
        AddedStays(before, events[n - 1], t);
      }
      NotAddedNever(init, t);
      forall i | 0 <= i <= n
        ensures var s := Run(INIT, events[..i]); t in s.threads ==> !Added(s.threads[t])
      {
        if i < n {
          assert events[..i] == init[..i];
        }
      }
    }
  }

  /** An add that failed changed nothing. One that found no free code looked up five, each taken at that
      moment; neither it nor one whose random read failed had a link in the map at any time; and the
      codes in the map are exactly those that other adds put there. */
  lemma FailedAddChangesNothing(events: seq<Event>, t: nat)
    requires var s := Run(INIT, events); t in s.threads && (s.threads[t].Failed? || s.threads[t].Broken?)
    ensures var s := Run(INIT, events);
            && (s.threads[t].Failed? ==>
                  |s.threads[t].tried| == CODE_ATTEMPTS && forall c :: c in s.threads[t].tried ==>
                      FoundTaken(events, t, c))
            && NeverAdded(events, t)
            && (forall c :: c in s.links <==>
                exists u :: u in s.threads && u != t && Added(s.threads[u]) && s.threads[u].code == c)
  {
    RunKeeps(INIT, events);
    NotAddedNever(events, t);
    var s := Run(INIT, events);
    hide Run, ValidCode, NeverAdded, FoundTaken;
    assert ThreadSound(s.links, s.threads[t]);
    if s.threads[t].Failed? {
      forall c | c in s.threads[t].tried ensures FoundTaken(events, t, c) {
        SpentWereTaken(events, t, c);
      }
    }
    OthersLinks(s, t);
  }

  lemma OthersLinks(s: State, t: nat)
    requires Invariant(s) && t in s.threads && !Added(s.threads[t])
    ensures forall c :: c in s.links <==>
        exists u :: u in s.threads && u != t && Added(s.threads[u]) && s.threads[u].code == c
  {
    hide ValidCode, LocksSound, TriedOk;
    forall c ensures c in s.links <==>
        exists u :: u in s.threads && u != t && Added(s.threads[u]) && s.threads[u].code == c {
      if c in s.links {
        var u :| u in s.threads && Added(s.threads[u]) && s.threads[u].code == c;
        assert u != t;
      }
    }
  }
}
