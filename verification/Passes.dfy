/** What a pass of applies leaves behind (applyObjects): how far it got, which objects it changed, which
    it reports, and that failed passes before it make no difference. */
module Passes {
  import opened Builders
  import opened Drift
  import opened Outcomes
  import opened ServerSideApply
  import opened World

  /** The object a pass makes of what was stored under a manifest's key. */
  function Applied(w: World, m: Manifest, now: nat): Object {
    ApplyPatch(Get(w.objects, m.key), PatchOf(m.content), now)
  }

  predicate AmongFirst(ms: seq<Manifest>, n: nat, k: Key)
    requires n <= |ms|
  {
    exists i :: 0 <= i < n && ms[i].key == k
  }

  lemma StoreObjectGets(w: World, key: Key, o: Object, k: Key)
    ensures Get(StoreObject(w, key, Some(o)).objects, k) == if k == key then Some(o) else Get(w.objects, k)
    ensures StoreObject(w, key, Some(o)).(objects := w.objects, queue := w.queue) == w
  {}

  /** After n applies of distinct keys, each of the first n objects is what one apply makes of the object
      that was stored before the pass, and every other object, those later in the list among them, is
      untouched. */
  lemma {:induction false} PassExact(w: World, ms: seq<Manifest>, env: Env, n: nat, k: Key)
    requires n <= |ms| && DistinctKeys(ms)
    ensures forall i :: 0 <= i < n && ms[i].key == k ==>
              Get(ApplyPrefix(w, ms, env, n).objects, k) == Some(Applied(w, ms[i], TurnAt(env, i).now))
    ensures !AmongFirst(ms, n, k) ==> Get(ApplyPrefix(w, ms, env, n).objects, k) == Get(w.objects, k)
    ensures ApplyPrefix(w, ms, env, n).(objects := w.objects, queue := w.queue) == w
  {
    hide ApplyPatch, PatchOf, StoreObject, TurnAt, Get;
    if n > 0 {
      var before, m := ApplyPrefix(w, ms, env, n - 1), ms[n - 1];
      PassExact(w, ms, env, n - 1, k);
      PassExact(w, ms, env, n - 1, m.key);
      StoreObjectGets(before, m.key, Applied(before, m, TurnAt(env, n - 1).now), k);
      if AmongFirst(ms, n - 1, k) {
        var i :| 0 <= i < n - 1 && ms[i].key == k;
        assert AmongFirst(ms, n, k);
      }
      assert !AmongFirst(ms, n - 1, m.key);
      if m.key == k {
        assert AmongFirst(ms, n, k);
      }
    }
  }

  // ----- What a pass reports -----

  /** The corrections of a pass, read off the objects stored before it. */
  function Expected(w: World, ms: seq<Manifest>, env: Env, n: nat): seq<Correction>
    requires n <= |ms|
  {
    if n == 0 then [] else Expected(w, ms, env, n - 1) + CorrectionOf(w, ms[n - 1], TurnAt(env, n - 1).now)
  }

  lemma {:induction false} CorrectionsReadStart(w: World, ms: seq<Manifest>, env: Env, n: nat)
    requires n <= |ms| && DistinctKeys(ms)
    ensures Corrections(w, ms, env, n, true) == Expected(w, ms, env, n)
  {
    hide ApplyPrefix, PatchOf, Reported, TurnAt, Get;
    if n > 0 {
      CorrectionsReadStart(w, ms, env, n - 1);
      PassExact(w, ms, env, n - 1, ms[n - 1].key);
    }
  }

  // ----- Passes that settle, passes that change nothing -----

  lemma PatchKeepsLabels(content: Fields, tag: string)
    ensures LabelPath(tag) in PatchOf(content) <==> LabelPath(tag) in content
    ensures LabelOf(PatchOf(content), tag) == LabelOf(content, tag)
  {
    var p := LabelPath(tag);
    assert |p| == 3 && p[0] == "metadata" && p[1] == "labels";
    assert !(CREATION_TIMESTAMP <= p) by {
      assert CREATION_TIMESTAMP[1] == "creationTimestamp" && |"creationTimestamp"| == 17 && |"labels"| == 6;
    }
    assert !(STATUS <= p) by {
      assert STATUS[0] == "status" && |"status"| == 6 && |"metadata"| == 8;
    }
    assert |TEMPLATE_TIMESTAMP| == 4;
  }

  /** Every object of the pass is as its manifest wants it, and owned so. */
  ghost predicate AllSettled(w: World, ms: seq<Manifest>) {
    forall m :: m in ms ==> IsSettled(Get(w.objects, m.key), PatchOf(m.content))
  }

  /** A full pass settles every object, whatever was stored. */
  lemma PassSettles(w: World, ms: seq<Manifest>, env: Env)
    requires DistinctKeys(ms)
    ensures AllSettled(ApplyPrefix(w, ms, env, |ms|), ms)
  {
    forall m | m in ms ensures IsSettled(Get(ApplyPrefix(w, ms, env, |ms|).objects, m.key), PatchOf(m.content)) {
      var i :| 0 <= i < |ms| && ms[i] == m;
      PassExact(w, ms, env, |ms|, m.key);
      AppliedIsSettled(Get(w.objects, m.key), PatchOf(m.content), TurnAt(env, i).now);
    }
  }

  /** A pass over settled objects is no write at all: not one event is raised. */
  lemma {:induction false} SettledPass(w: World, ms: seq<Manifest>, env: Env, n: nat)
    requires n <= |ms| && AllSettled(w, ms)
    ensures ApplyPrefix(w, ms, env, n) == w
  {
    hide ApplyPatch, PatchOf, Settled;
    if n > 0 {
      SettledPass(w, ms, env, n - 1);
      var m, now := ms[n - 1], TurnAt(env, n - 1).now;
      assert IsSettled(Get(w.objects, m.key), PatchOf(m.content));
      NoOpIffSettled(w.objects[m.key], PatchOf(m.content), now);
    }
  }

  // ----- Passes that fail, and the one that does not -----

  /** A run of passes over the same list, each stopping where its environment makes it fail, after the
      applies that took effect. */
  function PassAll(w: World, ms: seq<Manifest>, envs: seq<Env>): World {
    if envs == [] then w
    else
      var before := PassAll(w, ms, envs[..|envs| - 1]);
      ApplyPrefix(before, ms, envs[|envs| - 1], Landed(envs[|envs| - 1], |ms|))
  }

  /** An object without the second its controller entry last changed. */
  function Undated(o: Object): Object {
    if CONTROLLER in o.managed then o.(managed := o.managed[CONTROLLER := Ownership(o.managed[CONTROLLER].fields, 0)])
        else o
  }

  function UndatedGet(objects: map<Key, Object>, k: Key): Option<Object> {
    if k in objects then Some(Undated(objects[k])) else None
  }

  lemma UndatedApply(live: Option<Object>, patch: Fields, now: nat, later: nat)
    ensures Undated(ApplyPatch(live, patch, now)) == Undated(ApplyPatch(live, patch, later))
  {}

  /** After any passes, an object of the list is as it was stored at first, or as one apply leaves it. */
  lemma {:induction false} PassAllObject(w: World, ms: seq<Manifest>, envs: seq<Env>, i: nat) returns (now: nat)
    requires DistinctKeys(ms) && i < |ms|
    ensures var o := Get(PassAll(w, ms, envs).objects, ms[i].key);
            o == Get(w.objects, ms[i].key) || o == Some(Applied(w, ms[i], now))
  {
    hide ApplyPatch, PatchOf, Landed, TurnAt;
    now := 0;
    if envs != [] {
      var init, env := envs[..|envs| - 1], envs[|envs| - 1];
      now := PassAllObject(w, ms, init, i);
      var before, n := PassAll(w, ms, init), Landed(env, |ms|);
      PassExact(before, ms, env, n, ms[i].key);
      if i < n {
        var later := TurnAt(env, i).now;
        if Get(before.objects, ms[i].key) == Get(w.objects, ms[i].key) {
          now := later;
        } else {
          ApplyIdempotent(Get(w.objects, ms[i].key), PatchOf(ms[i].content), now, later);
        }
      }
    }
  }

  lemma {:induction false} PassAllOthers(w: World, ms: seq<Manifest>, envs: seq<Env>, k: Key)
    requires DistinctKeys(ms) && !AmongFirst(ms, |ms|, k)
    ensures Get(PassAll(w, ms, envs).objects, k) == Get(w.objects, k)
  {
    hide ApplyPrefix, Landed;
    if envs != [] {
      var init, env := envs[..|envs| - 1], envs[|envs| - 1];
      PassAllOthers(w, ms, init, k);
      var n := Landed(env, |ms|);
      assert !AmongFirst(ms, n, k);
      PassExact(PassAll(w, ms, init), ms, env, n, k);
    }
  }

  /** However many passes failed, and wherever each stopped, one full pass ends with the objects a full
      pass from the start would have made: every field, every manager's ownership, the controller's
      included, up to the second the controller's entry carries. */
  lemma FailuresLeaveNoTrace(w: World, ms: seq<Manifest>, envs: seq<Env>, env: Env, other: Env, k: Key)
    requires DistinctKeys(ms)
    ensures UndatedGet(ApplyPrefix(PassAll(w, ms, envs), ms, env, |ms|).objects, k)
            == UndatedGet(ApplyPrefix(w, ms, other, |ms|).objects, k)
  {
    hide ApplyPatch, PatchOf, TurnAt, PassAll, ApplyPrefix, Undated;
    var before := PassAll(w, ms, envs);
    PassExact(before, ms, env, |ms|, k);
    PassExact(w, ms, other, |ms|, k);
    if AmongFirst(ms, |ms|, k) {
      var i :| 0 <= i < |ms| && ms[i].key == k;
      var live, patch := Get(w.objects, k), PatchOf(ms[i].content);
      var now := PassAllObject(w, ms, envs, i);
      ApplyIdempotent(live, patch, now, TurnAt(env, i).now);
      UndatedApply(live, patch, now, TurnAt(other, i).now);
      UndatedApply(live, patch, TurnAt(env, i).now, TurnAt(other, i).now);
    } else {
      PassAllOthers(w, ms, envs, k);
    }
  }
}
