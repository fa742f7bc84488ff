/** The admission webhook's decision on a claim update
    (internal/webhook/v1alpha1/serviceclaim_webhook.go). */
module Webhook {
  import opened Conditions
  import opened Outcomes
  import opened SloStatus
  import opened Truncate

  const BREAK_GLASS_ANNOTATION := "paved.dev/break-glass"
  const EVENT_NOTE_LIMIT := 1024

  /** The parts of a claim the webhook reads. */
  datatype Claim = Claim(image: string, annotations: map<string, string>, conditions: seq<Condition>)

  /** The admission request in the context: who is asking, and whether it is a dry run. */
  datatype Request = Request(user: string, dryRun: bool)

  datatype Verdict =
    | Admitted
    | AdmittedWithWarning
    | RejectedFrozen
    | RejectedUnaudited

  predicate Allows(v: Verdict) {
    v.Admitted? || v.AdmittedWithWarning?
  }

  // ----- The break-glass reason -----

  /** unicode.IsSpace. */
  predicate IsSpace(c: char) {
    var u := c as int;
    || 0x09 <= u <= 0x0D || u == 0x20 || u == 0x85 || u == 0xA0 || u == 0x1680
    || 0x2000 <= u <= 0x200A || u == 0x2028 || u == 0x2029 || u == 0x202F || u == 0x205F || u == 0x3000
  }

  function TrimSpace(s: string): string
    decreases |s|
  {
    if s == "" then ""
    else if IsSpace(s[0]) then TrimSpace(s[1..])
    else if IsSpace(s[|s| - 1]) then TrimSpace(s[..|s| - 1])
    else s
  }

  ghost predicate Blank(s: string) {
    forall i :: 0 <= i < |s| ==> IsSpace(s[i])
  }

  lemma {:induction false} TrimmedAway(s: string)
    ensures TrimSpace(s) == "" <==> Blank(s)
    decreases |s|
  {
    if s != "" {
      if IsSpace(s[0]) {
        TrimmedAway(s[1..]);
        assert Blank(s) ==> Blank(s[1..]);
        assert Blank(s[1..]) ==> Blank(s) by {
          assert forall i :: 0 < i < |s| ==> s[i] == s[1..][i - 1];
        }
      } else if IsSpace(s[|s| - 1]) {
        assert TrimSpace(s) != "" by {
          TrimmedAway(s[..|s| - 1]);
          assert !IsSpace(s[..|s| - 1][0]);
        }
      }
    }
  }

  ghost predicate Surrounds(a: string, core: string, b: string, value: string) {
    Blank(a) && Blank(b) && value == a + core + b
  }

  /** The text without the white space around it. */
  ghost predicate Stripped(value: string, core: string) {
    && (exists a, b :: Surrounds(a, core, b, value))
    && (core != "" ==> !IsSpace(core[0]) && !IsSpace(core[|core| - 1]))
  }

  lemma SurroundedLonger(a: string, core: string, b: string, s: string, c: string, d: string)
    requires Surrounds(a, core, b, s) && Blank(c) && Blank(d)
    ensures Surrounds(c + a, core, b + d, c + s + d)
  {
    assert c + s + d == (c + a) + core + (b + d);
  }

  lemma StrippedMore(s: string, core: string, c: string, d: string)
    requires Stripped(s, core) && Blank(c) && Blank(d)
    ensures Stripped(c + s + d, core)
  {
    hide Surrounds, IsSpace, Blank;
    var a, b :| Surrounds(a, core, b, s);
    SurroundedLonger(a, core, b, s, c, d);
  }

  lemma {:induction false} TrimSpaceStrips(s: string)
    ensures Stripped(s, TrimSpace(s))
    decreases |s|
  {
    hide Stripped, IsSpace;
    if s == "" || (!IsSpace(s[0]) && !IsSpace(s[|s| - 1])) {
      StrippedAlready(s);
    } else if IsSpace(s[0]) {
      TrimSpaceStrips(s[1..]);
      StrippedMore(s[1..], TrimSpace(s), [s[0]], "");
      assert [s[0]] + s[1..] + "" == s;
    } else {
      var n := |s| - 1;
      TrimSpaceStrips(s[..n]);
      StrippedMore(s[..n], TrimSpace(s), "", [s[n]]);
      assert "" + s[..n] + [s[n]] == s;
    }
  }

  lemma StrippedAlready(s: string)
    requires s != "" ==> !IsSpace(s[0]) && !IsSpace(s[|s| - 1])
    ensures Stripped(s, s)
  {
    assert Surrounds("", s, "", s);
    hide IsSpace;
  }

  lemma CoreStarts(s: string, a: string, core: string, b: string, c: string)
    requires Surrounds(a, core, b, s) && core != "" && !IsSpace(core[0]) && Blank(c) && c <= s
    ensures |c| <= |a|
  {
    assert s[|a|] == core[0];
    hide IsSpace;
  }

  lemma CoreEnds(s: string, a: string, core: string, b: string, d: string)
    requires Surrounds(a, core, b, s) && core != "" && !IsSpace(core[|core| - 1])
    requires Blank(d) && |d| <= |s| && s[|s| - |d|..] == d
    ensures |d| <= |b|
  {
    assert s[|a| + |core| - 1] == core[|core| - 1];
    hide IsSpace;
  }

  lemma SurroundedParts(a: string, core: string, b: string, s: string)
    requires Surrounds(a, core, b, s)
    ensures a <= s && |a| + |b| <= |s| && s[|s| - |b|..] == b && core == s[|a|..|s| - |b|]
  {}

  lemma SurroundedBlank(a: string, core: string, b: string, s: string)
    requires Surrounds(a, core, b, s)
    ensures Blank(s) <==> Blank(core)
  {
    hide IsSpace;
    if Blank(core) {
      assert forall i :: 0 <= i < |s| ==> s[i] in a || s[i] in core || s[i] in b;
    } else {
      var i :| 0 <= i < |core| && !IsSpace(core[i]);
      assert s[|a| + i] == core[i];
    }
  }

  lemma StrippedBlank(value: string, core: string)
    requires Stripped(value, core)
    ensures Blank(value) <==> core == ""
  {
    var a, b :| Surrounds(a, core, b, value);
    SurroundedBlank(a, core, b, value);
    hide IsSpace;
  }

  /** Trimming finds the one text that is the value without its surrounding white space. */
  lemma TrimSpaceExact(value: string, core: string)
    ensures Stripped(value, core) <==> core == TrimSpace(value)
  {
    hide IsSpace, TrimSpace, Blank, Surrounds;
    var trimmed := TrimSpace(value);
    TrimSpaceStrips(value);
    if Stripped(value, core) {
      StrippedBlank(value, core);
      StrippedBlank(value, trimmed);
      if core != "" {
        var a, b :| Surrounds(a, core, b, value);
        var c, d :| Surrounds(c, trimmed, d, value);
        SameCore(a, core, b, c, trimmed, d, value);
      }
    }
  }

  lemma SameCore(a: string, core: string, b: string, c: string, other: string, d: string, s: string)
    requires Surrounds(a, core, b, s) && Surrounds(c, other, d, s) && core != "" && other != ""
    requires !IsSpace(core[0]) && !IsSpace(core[|core| - 1]) && !IsSpace(other[0]) && !IsSpace(other[|other| - 1])
    ensures core == other
  {
    hide IsSpace;
    SurroundedParts(a, core, b, s);
    SurroundedParts(c, other, d, s);
    CoreStarts(s, a, core, b, c);
    CoreStarts(s, c, other, d, a);
    CoreEnds(s, a, core, b, d);
    CoreEnds(s, c, other, d, b);
  }

  /** An annotation that is absent reads as the empty string. */
  function BreakGlass(claim: Claim): string {
    if BREAK_GLASS_ANNOTATION in claim.annotations then claim.annotations[BREAK_GLASS_ANNOTATION] else ""
  }

  function BreakGlassReason(oldClaim: Claim, newClaim: Claim): Option<string> {
    var value := BreakGlass(newClaim);
    var reason := TrimSpace(value);
    if reason == "" || value == BreakGlass(oldClaim) then None else Some(reason)
  }

  /** The update stores a break-glass value that is not blank and was not stored before. */
  ghost predicate Fresh(oldClaim: Claim, newClaim: Claim) {
    !Blank(BreakGlass(newClaim)) && BreakGlass(newClaim) != BreakGlass(oldClaim)
  }

  /** The update sets a reason exactly when it stores a non-blank value that was not stored before; the
      reason is that value without its surrounding white space. */
  lemma ReasonIsFresh(oldClaim: Claim, newClaim: Claim)
    ensures BreakGlassReason(oldClaim, newClaim).Some? <==>
              Fresh(oldClaim, newClaim)
    ensures var reason := BreakGlassReason(oldClaim, newClaim);
            reason.Some? ==> reason.value != "" && Stripped(BreakGlass(newClaim), reason.value)
  {
    TrimmedAway(BreakGlass(newClaim));
    TrimSpaceStrips(BreakGlass(newClaim));
  }

  // ----- The decision -----

  function Decide(oldClaim: Claim, newClaim: Claim, request: Option<Request>): Verdict {
    if !Frozen(oldClaim.conditions) || oldClaim.image == newClaim.image then Admitted
    else if BreakGlassReason(oldClaim, newClaim).None? then RejectedFrozen
    else if request.None? then RejectedUnaudited
    else AdmittedWithWarning
  }

  /** The update is recorded: it goes through on break-glass, and is not a dry run. */
  predicate Audited(oldClaim: Claim, newClaim: Claim, request: Option<Request>) {
    Decide(oldClaim, newClaim, request).AdmittedWithWarning? && !request.value.dryRun
  }

  /** The update changes the image of a claim whose deploys are frozen. */
  predicate ChangesFrozenImage(oldClaim: Claim, newClaim: Claim) {
    Frozen(oldClaim.conditions) && oldClaim.image != newClaim.image
  }

  /** An image change is let through a freeze exactly when it brings a fresh, non-blank reason and
      there is someone to audit, and then with a warning; nothing else is ever held up. It is audited
      exactly then, unless it is a dry run. */
  lemma DecisionMeaning(oldClaim: Claim, newClaim: Claim, request: Option<Request>)
    ensures var verdict := Decide(oldClaim, newClaim, request);
            && (verdict == Admitted <==> !ChangesFrozenImage(oldClaim, newClaim))
            && (verdict == RejectedFrozen <==> ChangesFrozenImage(oldClaim, newClaim) && !Fresh(oldClaim, newClaim))
            && (verdict == RejectedUnaudited <==>
                  ChangesFrozenImage(oldClaim, newClaim) && Fresh(oldClaim, newClaim) && request.None?)
            && (verdict == AdmittedWithWarning <==>
                  ChangesFrozenImage(oldClaim, newClaim) && Fresh(oldClaim, newClaim) && request.Some?)
            && (Allows(verdict) <==>
                  ChangesFrozenImage(oldClaim, newClaim) ==> Fresh(oldClaim, newClaim) && request.Some?)
    ensures Audited(oldClaim, newClaim, request) <==>
              && ChangesFrozenImage(oldClaim, newClaim) && Fresh(oldClaim, newClaim)
              && request.Some? && !request.value.dryRun
  {
    ReasonIsFresh(oldClaim, newClaim);
    hide Frozen, Blank, TrimSpace;
  }

  // ----- UTF-8 encoding of the note -----

  lemma SixBits(u: int)
    requires 0 <= u < 0x11_0000
    ensures u == u / 64 * 64 + u % 64 && u / 64 == u / 4096 * 64 + u / 64 % 64
    ensures u / 4096 == u / 262144 * 64 + u / 4096 % 64
  {
    assert u / 64 / 64 == u / 4096 && u / 4096 / 64 == u / 262144;
  }

  function EncodeTwo(u: int): (b: bytes)
    requires 0x80 <= u < 0x800
    ensures Character(b)
  {
    [0xC0 + u / 64, 0x80 + u % 64]
  }

  function EncodeThree(u: int): (b: bytes)
    requires 0x800 <= u < 0xD800 || 0xE000 <= u < 0x1_0000
    ensures Character(b)
  {
    SixBits(u);
    [0xE0 + u / 4096, 0x80 + u / 64 % 64, 0x80 + u % 64]
  }

  function EncodeFour(u: int): (b: bytes)
    requires 0x1_0000 <= u < 0x11_0000
    ensures Character(b)
  {
    SixBits(u);
    [0xF0 + u / 262144, 0x80 + u / 4096 % 64, 0x80 + u / 64 % 64, 0x80 + u % 64]
  }

  function EncodeChar(c: char): (b: bytes)
    ensures Character(b)
  {
    var u := c as int;
    if u < 0x80 then [u]
    else if u < 0x800 then EncodeTwo(u)
    else if u < 0x1_0000 then EncodeThree(u)
    else EncodeFour(u)
  }

  function Utf8(s: string): bytes {
    if s == "" then [] else EncodeChar(s[0]) + Utf8(s[1..])
  }

  lemma {:induction false} Utf8Valid(s: string)
    ensures Valid(Utf8(s))
  {
    if s != "" {
      Utf8Valid(s[1..]);
      CharacterPrefix(EncodeChar(s[0]), Utf8(s[1..]));
    }
  }

  /** What a byte adds to the code point: the bits after its lead. */
  function Bits(b: byte, lead: int): int {
    b - lead
  }

  /** The code point a character stands for (section 3 of RFC 3629). */
  function CodePoint(b: bytes): int
    requires Character(b)
  {
    match |b|
    case 1 => b[0]
    case 2 => Bits(b[0], 0xC0) * 64 + Bits(b[1], 0x80)
    case 3 => (Bits(b[0], 0xE0) * 64 + Bits(b[1], 0x80)) * 64 + Bits(b[2], 0x80)
    case _ =>
      ((Bits(b[0], 0xF0) * 64 + Bits(b[1], 0x80)) * 64 + Bits(b[2], 0x80)) * 64 + Bits(b[3], 0x80)
  }

  lemma EncodedTwo(u: int)
    requires 0x80 <= u < 0x800
    ensures CodePoint(EncodeTwo(u)) == u
  {
    SixBits(u);
    hide Character;
  }

  lemma EncodedThree(u: int)
    requires 0x800 <= u < 0xD800 || 0xE000 <= u < 0x1_0000
    ensures CodePoint(EncodeThree(u)) == u
  {
    SixBits(u);
    hide Character;
  }

  lemma EncodedFour(u: int)
    requires 0x1_0000 <= u < 0x11_0000
    ensures CodePoint(EncodeFour(u)) == u
  {
    SixBits(u);
    hide Character;
  }

  lemma EncodedPoint(c: char)
    ensures CodePoint(EncodeChar(c)) == c as int
  {
    hide Character, EncodeTwo, EncodeThree, EncodeFour;
    var u := c as int;
    if u < 0x80 {
      assert EncodeChar(c) == [u];
    } else if u < 0x800 {
      EncodedTwo(u);
    } else if u < 0x1_0000 {
      EncodedThree(u);
    } else {
      EncodedFour(u);
    }
  }

  function CodePoints(s: bytes): seq<int>
    requires Valid(s)
  {
    if s == [] then [] else [CodePoint(s[..FirstLength(s)])] + CodePoints(s[FirstLength(s)..])
  }

  lemma CharacterNotEmpty(c: bytes)
    requires Character(c)
    ensures c != []
  {}

  /** Encoding loses nothing: a text's bytes decode to its code points. */
  lemma {:induction false} Utf8Decodes(s: string)
    ensures Valid(Utf8(s)) && |CodePoints(Utf8(s))| == |s|
    ensures forall i :: 0 <= i < |s| ==> CodePoints(Utf8(s))[i] == s[i] as int
  {
    hide Character, EncodeChar, CodePoint, FirstLength;
    Utf8Valid(s);
    if s != "" {
      var c, rest := EncodeChar(s[0]), Utf8(s[1..]);
      Utf8Decodes(s[1..]);
      CharacterPrefix(c, rest);
      EncodedPoint(s[0]);
      assert (c + rest)[..|c|] == c;
      assert Utf8(s) == c + rest && c != [] by { CharacterNotEmpty(c); }
      assert forall i :: 0 < i < |s| ==> s[i] == s[1..][i - 1];
    }
  }

  lemma EllipsisEncoded()
    ensures ELLIPSIS == Utf8(['\U{2026}'])
  {
    assert EncodeChar('\U{2026}') == [0xE2, 0x80, 0xA6];
    assert ['\U{2026}'][1..] == "";
  }

  function AuditNote(user: string, oldClaim: Claim, newClaim: Claim, reason: string): string {
    user + " changed the image from " + oldClaim.image + " to " + newClaim.image + " during a deploy freeze: " + reason
  }

  /** A note that records a text: valid UTF-8 within the Event limit, the whole text if it fits, and
      otherwise as much of it as fits, in whole characters, before the ellipsis. */
  ghost predicate Records(note: bytes, text: string) {
    var full := Utf8(text);
    && Valid(note) && |note| <= EVENT_NOTE_LIMIT
    && (|full| <= EVENT_NOTE_LIMIT ==> note == full)
    && (|full| > EVENT_NOTE_LIMIT ==>
          exists cut :: 0 <= cut <= EVENT_NOTE_LIMIT - |ELLIPSIS| && note == full[..cut] + ELLIPSIS
                        && LongestValidPrefix(full, EVENT_NOTE_LIMIT - |ELLIPSIS|, cut))
  }

  datatype Event = Event(image: string, note: bytes)

  class Validator {
    const hasRecorder: bool
    var events: seq<Event>

    constructor (hasRecorder: bool)
      ensures events == [] && this.hasRecorder == hasRecorder
    {
      this.hasRecorder := hasRecorder;
      events := [];
    }

    /** ValidateUpdate. The events grow by one exactly for an audited update with a recorder. Its note says
        who changed which image to which, and why: the break-glass value without the white space around
        it. */
    method ValidateUpdate(oldClaim: Claim, newClaim: Claim, request: Option<Request>) returns (verdict: Verdict)
      modifies this`events
      ensures verdict == Decide(oldClaim, newClaim, request)
      ensures if hasRecorder && Audited(oldClaim, newClaim, request) then
                && |events| == |old(events)| + 1 && events[..|old(events)|] == old(events)
                && events[|old(events)|].image == newClaim.image
                && exists reason :: reason != "" && Stripped(BreakGlass(newClaim), reason)
                     && Records(events[|old(events)|].note,
                         request.value.user + " changed the image from " + oldClaim.image + " to " + newClaim.image
                         + " during a deploy freeze: " + reason)
              else events == old(events)
    {
      if !Frozen(oldClaim.conditions) || oldClaim.image == newClaim.image {
        return Admitted;
      }
      var reason := BreakGlassReason(oldClaim, newClaim);
      if reason.None? {
        return RejectedFrozen;
      }
      if request.None? {
        return RejectedUnaudited;
      }
      if hasRecorder && !request.value.dryRun {
        var full := AuditNote(request.value.user, oldClaim, newClaim, reason.value);
        Utf8Valid(full);
        ReasonIsFresh(oldClaim, newClaim);
        var note, _ := Shorten(Utf8(full), EVENT_NOTE_LIMIT);
        assert Records(note, full);
        events := events + [Event(newClaim.image, note)];
      }
      return AdmittedWithWarning;
    }
  }
}
