/** Shortening an audit note without splitting a character
    (internal/webhook/v1alpha1/serviceclaim_webhook.go). Strings are UTF-8 bytes, as in Go, and a
    character is a well-formed sequence of section 4 of RFC 3629. */
module Truncate {
  type byte = b: int | 0 <= b < 256

  type bytes = seq<byte>

  /** utf8.RuneStart: b & 0xC0 != 0x80. */
  predicate RuneStart(b: byte) {
    b / 64 != 2
  }

  predicate Tail(b: byte) {
    0x80 <= b <= 0xBF
  }

  /** s is one character: UTF8-1, UTF8-2, UTF8-3 or UTF8-4. */
  predicate Character(s: bytes) {
    match |s|
    case 1 => s[0] <= 0x7F
    case 2 => 0xC2 <= s[0] <= 0xDF && Tail(s[1])
    case 3 =>
      && Tail(s[1]) && Tail(s[2])
      && (|| (s[0] == 0xE0 && 0xA0 <= s[1])
          || 0xE1 <= s[0] <= 0xEC
          || (s[0] == 0xED && s[1] <= 0x9F)
          || 0xEE <= s[0] <= 0xEF)
    case 4 =>
      && Tail(s[1]) && Tail(s[2]) && Tail(s[3])
      && (|| (s[0] == 0xF0 && 0x90 <= s[1])
          || 0xF1 <= s[0] <= 0xF3
          || (s[0] == 0xF4 && s[1] <= 0x8F))
    case _ => false
  }

  /** The length of the character s begins with, or 0 when it begins with none. */
  function FirstLength(s: bytes): (n: nat)
    ensures n <= 4 && n <= |s| && (n > 0 ==> Character(s[..n]))
  {
    if |s| >= 1 && Character(s[..1]) then 1
    else if |s| >= 2 && Character(s[..2]) then 2
    else if |s| >= 3 && Character(s[..3]) then 3
    else if |s| >= 4 && Character(s[..4]) then 4
    else 0
  }

  predicate Valid(s: bytes) {
    s == [] || (FirstLength(s) > 0 && Valid(s[FirstLength(s)..]))
  }

  /** Valid is a concatenation of characters, in whatever way the characters are found. */
  lemma CharacterPrefix(c: bytes, rest: bytes)
    requires Character(c)
    ensures FirstLength(c + rest) == |c| && (c + rest)[|c|..] == rest
    ensures Valid(c + rest) <==> Valid(rest)
  {}

  lemma FirstCharacter(s: bytes) returns (c: bytes, rest: bytes)
    requires Valid(s) && s != []
    ensures Character(c) && Valid(rest) && s == c + rest && |rest| < |s|
  {
    c, rest := s[..FirstLength(s)], s[FirstLength(s)..];
  }

  lemma {:induction false} ValidConcat(a: bytes, b: bytes)
    requires Valid(a) && Valid(b)
    ensures Valid(a + b)
    decreases |a|
  {
    hide *;
    if a == [] {
      assert a + b == b;
    } else {
      var c, rest := FirstCharacter(a);
      ValidConcat(rest, b);
      CharacterPrefix(c, rest + b);
      assert a + b == c + (rest + b);
    }
  }

  /** In valid UTF-8, the bytes that can start a character are exactly those that do: cutting there
      leaves valid text, and cutting anywhere else does not. */
  lemma {:induction false} BoundaryIffRuneStart(s: bytes, i: nat)
    requires Valid(s) && i < |s|
    ensures RuneStart(s[i]) <==> Valid(s[..i])
    decreases |s|
  {
    var n := FirstLength(s);
    if i == 0 {
      assert s[..n][0] == s[0];
    } else if i < n {
      InsideCharacter(s, i);
    } else {
      BoundaryIffRuneStart(s[n..], i - n);
      CharacterPrefix(s[..n], s[n..][..i - n]);
      assert s[..i] == s[..n] + s[n..][..i - n];
    }
  }

  lemma InsideCharacter(s: bytes, i: nat)
    requires 0 < i < FirstLength(s)
    ensures Tail(s[i]) && !Valid(s[..i])
  {}

  /** Among four consecutive positions of valid UTF-8, one starts a character. */
  lemma {:induction false} StartWithinThree(s: bytes, i: nat)
    requires Valid(s) && i < |s|
    ensures exists j :: 0 <= j <= i && i - j <= 3 && RuneStart(s[j])
    decreases |s|
  {
    var n := FirstLength(s);
    if i < n {
      assert s[..n][0] == s[0];
      assert RuneStart(s[0]);
    } else {
      StartWithinThree(s[n..], i - n);
      var j :| 0 <= j <= i - n && i - n - j <= 3 && RuneStart(s[n..][j]);
      assert s[n..][j] == s[n + j];
    }
  }

  /** U+2026, the horizontal ellipsis. */
  const ELLIPSIS: bytes := [0xE2, 0x80, 0xA6]

  /** cut is the longest prefix of s, of at most limit bytes, that is valid on its own. */
  ghost predicate LongestValidPrefix(s: bytes, limit: nat, cut: nat)
    requires limit <= |s|
  {
    cut <= limit && Valid(s[..cut]) && forall j :: cut < j <= limit ==> !Valid(s[..j])
  }

  /** truncate. The code slices at limit - 3, so it needs room for the ellipsis. Any string comes out
      within the limit; valid text comes out valid, cut after the last character that fits. */
  method Shorten(s: bytes, limit: nat) returns (out: bytes, ghost steps: nat)
    requires |s| > limit ==> limit >= |ELLIPSIS|
    ensures |out| <= limit && steps <= limit
    ensures |s| <= limit ==> out == s
    ensures |s| > limit ==>
              exists cut :: 0 <= cut <= limit - |ELLIPSIS| && out == s[..cut] + ELLIPSIS
                            && (Valid(s) ==> LongestValidPrefix(s, limit - |ELLIPSIS|, cut))
    ensures Valid(s) ==> Valid(out) && steps <= 3
  {
    steps := 0;
    if |s| <= limit {
      return s, 0;
    }
    var start := limit - |ELLIPSIS|;
    var cut := start;
    ghost var j: nat := 0;
    if Valid(s) {
      StartWithinThree(s, start);
      j :| 0 <= j <= start && start - j <= 3 && RuneStart(s[j]);
    }
    while cut > 0 && !RuneStart(s[cut])
      invariant 0 <= cut <= start && steps == start - cut
      invariant Valid(s) ==> j <= cut
      invariant forall k :: cut < k <= start ==> !RuneStart(s[k])
    {
      cut := cut - 1;
      steps := steps + 1;
    }
    out := s[..cut] + ELLIPSIS;
    if Valid(s) {
      CutIsLongest(s, start, cut);
      assert Character(ELLIPSIS) && ELLIPSIS + [] == ELLIPSIS;
      CharacterPrefix(ELLIPSIS, []);
      ValidConcat(s[..cut], ELLIPSIS);
    }
  }

  lemma CutIsLongest(s: bytes, start: nat, cut: nat)
    requires Valid(s) && start < |s| && cut <= start
    requires cut == 0 || RuneStart(s[cut])
    requires forall k :: cut < k <= start ==> !RuneStart(s[k])
    ensures LongestValidPrefix(s, start, cut)
  {
    if cut > 0 {
      BoundaryIffRuneStart(s, cut);
    }
    forall k | cut < k <= start ensures !Valid(s[..k]) {
      BoundaryIffRuneStart(s, k);
    }
  }
}
