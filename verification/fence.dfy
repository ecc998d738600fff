/**
 * Clean-up of a model reply before JSON parsing:
 * `jsonString.replace(/^```json\s*|```$/g, '')`.
 * Without the `m` flag `^` and `$` anchor at the ends of the whole string.
 */
module Fence {
  import opened Strings

  const OPEN: string := "```json"
  const CLOSE: string := "```"

  predicate StartsWith(s: string, prefix: string) {
    |prefix| <= |s| && s[..|prefix|] == prefix
  }

  predicate EndsWith(s: string, suffix: string) {
    |suffix| <= |s| && s[|s| - |suffix|..] == suffix
  }

  /** End of the match of the first alternative `^```json\s*` when `s` starts with the opening marker. */
  function OpenMatchEnd(s: string): (e: nat)
    requires StartsWith(s, OPEN)
    ensures |OPEN| <= e <= |s|
    ensures forall k :: |OPEN| <= k < e ==> IsSpace(s[k])
    ensures e < |s| ==> !IsSpace(s[e])
  {
    |OPEN| + LeadingSpaces(s[|OPEN|..])
  }

  /**
   * The global replacement as the regular-expression engine performs it: scan
   * left to right; at each position try the first alternative (only at
   * position 0), then the second (only where exactly "```" remains); a match is
   * deleted and the scan resumes after it, otherwise the character is kept.
   */
  function ReplaceScan(s: string, i: nat): string
    requires i <= |s|
    decreases |s| - i
  {
    if i == |s| then ""
    else if i == 0 && StartsWith(s, OPEN) then ReplaceScan(s, OpenMatchEnd(s))
    else if s[i..] == CLOSE then ""
    else [s[i]] + ReplaceScan(s, i + 1)
  }

  /** Drop an opening "```json" marker with the white space after it, then a closing "```". */
  function StripFence(s: string): string {
    var body := if StartsWith(s, OPEN) then s[OpenMatchEnd(s)..] else s;
    if EndsWith(body, CLOSE) then body[..|body| - |CLOSE|] else body
  }

  /** Past the opening marker, the scan keeps every character except a closing marker at the very end. */
  lemma {:induction false} ScanTail(s: string, i: nat)
    requires i <= |s|
    requires i > 0 || !StartsWith(s, OPEN)
    requires EndsWith(s, CLOSE) ==> i <= |s| - |CLOSE|
    ensures ReplaceScan(s, i) == if EndsWith(s, CLOSE) then s[i..|s| - |CLOSE|] else s[i..]
    decreases |s| - i
  {
    if i < |s| {
      if s[i..] == CLOSE {
        assert EndsWith(s, CLOSE);
      } else {
        ScanTail(s, i + 1);
      }
    }
  }

  /** The opening match never reaches into a closing marker: it ends in 'n' or white space. */
  lemma OpenBeforeClose(s: string)
    requires StartsWith(s, OPEN) && EndsWith(s, CLOSE)
    ensures OpenMatchEnd(s) <= |s| - |CLOSE|
  {
    var e := OpenMatchEnd(s);
    assert s[e - 1] == 'n' || IsSpace(s[e - 1]) by {
      if e == |OPEN| { assert s[..|OPEN|][6] == 'n'; }
    }
    forall k | |s| - |CLOSE| <= k < |s| ensures s[k] == '`' {
      assert s[k] == s[|s| - |CLOSE|..][k - (|s| - |CLOSE|)];
    }
  }

  /** The prefix/suffix reading agrees with the regular-expression scan on every string. */
  lemma StripFenceIsReplace(s: string)
    ensures StripFence(s) == ReplaceScan(s, 0)
  {
    if StartsWith(s, OPEN) {
      OpenIsReplace(s);
    } else if EndsWith(s, CLOSE) && |s| == |CLOSE| {
      assert s[0..] == CLOSE;
    } else {
      ScanTail(s, 0);
    }
  }

  /** `StripFenceIsReplace` for a reply that opens with the fence. */
  lemma OpenIsReplace(s: string)
    requires StartsWith(s, OPEN)
    ensures StripFence(s) == ReplaceScan(s, 0)
  {
    var e := OpenMatchEnd(s);
    if EndsWith(s, CLOSE) { OpenBeforeClose(s); }
    ScanTail(s, e);
    TailEnds(s, e);
  }

  /** Cutting a prefix that stops short of a closing marker keeps whether the string ends with one. */
  lemma TailEnds(s: string, e: nat)
    requires e <= |s|
    requires EndsWith(s, CLOSE) ==> e <= |s| - |CLOSE|
    ensures EndsWith(s[e..], CLOSE) == EndsWith(s, CLOSE)
    ensures EndsWith(s, CLOSE) ==> s[e..][..|s[e..]| - |CLOSE|] == s[e..|s| - |CLOSE|]
  {
    var body := s[e..];
    if EndsWith(s, CLOSE) { assert body[|body| - |CLOSE|..] == s[|s| - |CLOSE|..]; }
    if EndsWith(body, CLOSE) { assert body[|body| - |CLOSE|..] == s[|s| - |CLOSE|..]; }
  }

  /**
   * A reply fenced as "```json", white space, body, "```" is cleaned to the body,
   * provided the body does not itself start with white space (the `\s*` would eat it).
   */
  lemma FencedReply(ws: string, body: string)
    requires forall k :: 0 <= k < |ws| ==> IsSpace(ws[k])
    requires body == [] || !IsSpace(body[0])
    ensures ReplaceScan(OPEN + ws + body + CLOSE, 0) == body
  {
    var s := OPEN + ws + body + CLOSE;
    FencedStrip(ws, body + CLOSE, s);
    StripFenceIsReplace(s);
  }

  lemma FencedStrip(ws: string, rest: string, s: string)
    requires forall k :: 0 <= k < |ws| ==> IsSpace(ws[k])
    requires EndsWith(rest, CLOSE) && !IsSpace(rest[0])
    requires s == OPEN + ws + rest
    ensures StripFence(s) == rest[..|rest| - |CLOSE|]
  {
    assert StartsWith(s, OPEN) by { assert s[..|OPEN|] == OPEN; }
    assert s[|OPEN|..] == ws + rest;
    LeadingWhite(ws, rest);
    assert s[OpenMatchEnd(s)..] == rest;
  }

  lemma {:induction false} LeadingWhite(ws: string, rest: string)
    requires forall k :: 0 <= k < |ws| ==> IsSpace(ws[k])
    requires rest != [] && !IsSpace(rest[0])
    ensures LeadingSpaces(ws + rest) == |ws|
    decreases |ws|
  {
    if ws != [] {
      assert (ws + rest)[1..] == ws[1..] + rest;
      LeadingWhite(ws[1..], rest);
    } else {
      assert ws + rest == rest;
    }
  }

  /** A reply with no opening and no closing marker passes through unchanged. */
  lemma UnfencedReply(s: string)
    requires !StartsWith(s, OPEN) && !EndsWith(s, CLOSE)
    ensures ReplaceScan(s, 0) == s
  {
    StripFenceIsReplace(s);
  }

  /**
   * A fenced reply and the same reply unfenced clean to the same text, so they
   * parse to the same value.
   */
  lemma FencedEqualsUnfenced(ws: string, body: string)
    requires forall k :: 0 <= k < |ws| ==> IsSpace(ws[k])
    requires body == [] || !IsSpace(body[0])
    requires !StartsWith(body, OPEN) && !EndsWith(body, CLOSE)
    ensures ReplaceScan(OPEN + ws + body + CLOSE, 0) == ReplaceScan(body, 0)
  {
    FencedReply(ws, body);
    UnfencedReply(body);
  }
}
