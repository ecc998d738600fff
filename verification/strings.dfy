/**
 * The JavaScript string operations the layout engine relies on:
 * `trim()`, `replace(/\s+/g, ' ')`, `split(' ')`, and the join back.
 */
module Strings {

  /** ECMAScript white space and line terminators: what `\s` matches and what `trim()` removes. */
  predicate IsSpace(c: char) {
    c == ' ' || c == '\t' || c == '\n' || c == '\r' || c == '\U{B}' || c == '\U{C}'
    || c == '\U{A0}' || c == '\U{1680}' || ('\U{2000}' <= c <= '\U{200A}')
    || c == '\U{2028}' || c == '\U{2029}' || c == '\U{202F}' || c == '\U{205F}'
    || c == '\U{3000}' || c == '\U{FEFF}'
  }

  /** Neither the first nor the last character is white space. */
  predicate NoOuterSpace(s: string) {
    s == [] || (!IsSpace(s[0]) && !IsSpace(s[|s| - 1]))
  }

  /** The only white space is the plain space, and no two spaces are adjacent. */
  predicate Clean(s: string) {
    (forall i :: 0 <= i < |s| && IsSpace(s[i]) ==> s[i] == ' ')
    && (forall i :: 0 <= i < |s| - 1 && s[i] == ' ' ==> s[i + 1] != ' ')
  }

  /** The shape of a normalised paragraph: clean and trimmed. */
  predicate Normalized(s: string) {
    Clean(s) && NoOuterSpace(s)
  }

  /** A word of a normalised paragraph: non-empty and free of white space. */
  predicate IsWord(w: string) {
    w != [] && forall i :: 0 <= i < |w| ==> !IsSpace(w[i])
  }

  /** Length of the maximal run of white space at the start of `s`. */
  function LeadingSpaces(s: string): (n: nat)
    ensures n <= |s|
    ensures forall k :: 0 <= k < n ==> IsSpace(s[k])
    ensures n < |s| ==> !IsSpace(s[n])
  {
    if s != [] && IsSpace(s[0]) then 1 + LeadingSpaces(s[1..]) else 0
  }

  /** Length of the maximal run of white space at the end of `s`. */
  function TrailingSpaces(s: string): (n: nat)
    ensures n <= |s|
    ensures forall k :: |s| - n <= k < |s| ==> IsSpace(s[k])
    ensures n < |s| ==> !IsSpace(s[|s| - 1 - n])
  {
    if s != [] && IsSpace(s[|s| - 1]) then 1 + TrailingSpaces(s[..|s| - 1]) else 0
  }

  function DropSpaces(s: string): string {
    s[LeadingSpaces(s)..]
  }

  /** `String.prototype.trim`: `s` without its leading and trailing white space. */
  function Trim(s: string): (r: string)
    ensures NoOuterSpace(r)
    ensures LeadingSpaces(s) + |r| <= |s|
    ensures r == s[LeadingSpaces(s)..LeadingSpaces(s) + |r|]
    ensures forall k :: LeadingSpaces(s) + |r| <= k < |s| ==> IsSpace(s[k])
    ensures NoOuterSpace(s) ==> r == s
  {
    var t := DropSpaces(s);
    t[..|t| - TrailingSpaces(t)]
  }

  /** `s.replace(/\s+/g, ' ')`: every maximal run of white space becomes one space. */
  function Collapse(s: string): (r: string)
    ensures Clean(r)
    ensures |r| <= |s|
    ensures (r == []) == (s == [])
    ensures s != [] && !IsSpace(s[0]) ==> r[0] == s[0]
    decreases |s|
  {
    if s == [] then []
    else if IsSpace(s[0]) then [' '] + Collapse(DropSpaces(s[1..]))
    else [s[0]] + Collapse(s[1..])
  }

  /** The characters of `s` that are not white space, in order. */
  function Letters(s: string): string
    decreases |s|
  {
    if s == [] then [] else (if IsSpace(s[0]) then [] else [s[0]]) + Letters(s[1..])
  }

  lemma {:induction false} DropSpacesLetters(s: string)
    ensures Letters(DropSpaces(s)) == Letters(s)
    decreases |s|
  {
    if s != [] && IsSpace(s[0]) {
      assert DropSpaces(s) == DropSpaces(s[1..]);
      DropSpacesLetters(s[1..]);
    }
  }

  /** Collapsing white space keeps every other character, in order. */
  lemma {:induction false} CollapseKeepsLetters(s: string)
    ensures Letters(Collapse(s)) == Letters(s)
    decreases |s|
  {
    if s != [] {
      var r := Collapse(s);
      if IsSpace(s[0]) {
        var t := DropSpaces(s[1..]);
        assert r[1..] == Collapse(t);
        CollapseKeepsLetters(t);
        DropSpacesLetters(s[1..]);
      } else {
        assert r[1..] == Collapse(s[1..]);
        CollapseKeepsLetters(s[1..]);
      }
    }
  }

  /** `text.replace(/\s+/g, ' ').trim()`, the first step of `drawParagraph`. */
  function Normalize(s: string): (r: string)
    ensures Normalized(r)
    ensures r == JoinSpaces(Tokens(s))
  {
    TrimKeepsClean(Collapse(s));
    TrimCollapse(s);
    Trim(Collapse(s))
  }

  lemma TrimKeepsClean(s: string)
    requires Clean(s)
    ensures Clean(Trim(s))
  {
    var a, r := LeadingSpaces(s), Trim(s);
    forall i | 0 <= i < |r| && IsSpace(r[i]) ensures r[i] == ' ' {
      assert r[i] == s[a + i];
    }
    forall i | 0 <= i < |r| - 1 && r[i] == ' ' ensures r[i + 1] != ' ' {
      assert r[i] == s[a + i] && r[i + 1] == s[a + i + 1];
    }
  }

  /** A clean string is left alone by `Collapse`. */
  lemma {:induction false} CollapseClean(s: string)
    requires Clean(s)
    ensures Collapse(s) == s
    decreases |s|
  {
    if s != [] {
      var t := s[1..];
      assert Clean(t) by {
        forall i | 0 <= i < |t| - 1 && t[i] == ' ' ensures t[i + 1] != ' ' {
          assert t[i] == s[i + 1] && t[i + 1] == s[i + 2];
        }
      }
      if IsSpace(s[0]) {
        assert t != [] ==> !IsSpace(t[0]) by {
          if t != [] { assert s[0] == ' ' && t[0] == s[1]; }
        }
        assert DropSpaces(t) == t;
      }
      CollapseClean(t);
    }
  }

  /** Normalising twice is normalising once. */
  lemma NormalizeIdempotent(s: string)
    ensures Normalize(Normalize(s)) == Normalize(s)
  {
    var n := Normalize(s);
    CollapseClean(n);
  }

  /** `s.split(' ')`. */
  function Split(s: string): (r: seq<string>)
    ensures |r| >= 1
    ensures forall w :: w in r ==> ' ' !in w
    ensures JoinSpaces(r) == s
    decreases |s|
  {
    if s == [] then [""]
    else if s[0] == ' ' then [""] + Split(s[1..])
    else
      var rest := Split(s[1..]);
      assert rest == [rest[0]] + rest[1..];
      [[s[0]] + rest[0]] + rest[1..]
  }

  /** `words.join(' ')`. */
  function JoinSpaces(ws: seq<string>): string
    decreases |ws|
  {
    if |ws| == 0 then ""
    else if |ws| == 1 then ws[0]
    else ws[0] + " " + JoinSpaces(ws[1..])
  }

  /** The non-empty elements of `ws`, in order. */
  function NonEmpty(ws: seq<string>): (r: seq<string>)
    ensures forall w :: w in r ==> w != "" && w in ws
    ensures |r| <= |ws|
    decreases |ws|
  {
    if ws == [] then []
    else if ws[0] == "" then NonEmpty(ws[1..])
    else [ws[0]] + NonEmpty(ws[1..])
  }

  /**
   * Splitting a string whose only white space is single spaces, and which does not
   * end in a space: no piece holds white space, and every piece but possibly the
   * first is non-empty (the first too when the string does not start with a space).
   */
  lemma {:induction false} SplitClean(t: string)
    requires Clean(t)
    requires t == [] || t[|t| - 1] != ' '
    ensures forall i, k :: 0 <= i < |Split(t)| && 0 <= k < |Split(t)[i]| ==> !IsSpace(Split(t)[i][k])
    ensures forall i :: 1 <= i < |Split(t)| ==> Split(t)[i] != ""
    ensures t != [] && t[0] != ' ' ==> Split(t)[0] != ""
    decreases |t|
  {
    if t != [] {
      var u := t[1..];
      assert Clean(u) by {
        forall i | 0 <= i < |u| - 1 && u[i] == ' ' ensures u[i + 1] != ' ' {
          assert u[i] == t[i + 1] && u[i + 1] == t[i + 2];
        }
      }
      SplitClean(u);
      if t[0] == ' ' {
        assert u != [] && u[0] != ' ' by {
          assert |t| >= 2 && t[1] != ' ';
        }
        SpacePieces(t);
      } else {
        assert !IsSpace(t[0]);
        WordPieces(t);
      }
    }
  }

  /** No piece holds white space. */
  predicate WhiteFree(ps: seq<string>) {
    forall i, k :: 0 <= i < |ps| && 0 <= k < |ps[i]| ==> !IsSpace(ps[i][k])
  }

  /** The step of `SplitClean` past a leading space. */
  lemma SpacePieces(t: string)
    requires t != [] && t[0] == ' '
    requires WhiteFree(Split(t[1..])) && forall i :: 1 <= i < |Split(t[1..])| ==> Split(t[1..])[i] != ""
    requires Split(t[1..])[0] != ""
    ensures WhiteFree(Split(t)) && forall i :: 1 <= i < |Split(t)| ==> Split(t)[i] != ""
  {
    var rest := Split(t[1..]);
    assert Split(t) == [""] + rest;
  }

  /** The step of `SplitClean` past a leading character that is not white space. */
  lemma WordPieces(t: string)
    requires t != [] && !IsSpace(t[0])
    requires WhiteFree(Split(t[1..])) && forall i :: 1 <= i < |Split(t[1..])| ==> Split(t[1..])[i] != ""
    ensures WhiteFree(Split(t)) && forall i :: 1 <= i < |Split(t)| ==> Split(t)[i] != ""
    ensures Split(t)[0] != ""
  {
    var rest := Split(t[1..]);
    assert t[0] != ' ';
    var first := [t[0]] + rest[0];
    assert Split(t) == [first] + rest[1..];
    assert forall k :: 0 <= k < |first| ==> !IsSpace(first[k]) by {
      forall k | 0 <= k < |first| ensures !IsSpace(first[k]) {
        if k > 0 { assert first[k] == rest[0][k - 1]; }
      }
    }
    ConsPieces(first, rest);
  }

  /** A white-space-free, non-empty first piece in front of the later pieces of a split. */
  lemma ConsPieces(first: string, rest: seq<string>)
    requires rest != [] && WhiteFree(rest) && forall i :: 1 <= i < |rest| ==> rest[i] != ""
    requires first != [] && forall k :: 0 <= k < |first| ==> !IsSpace(first[k])
    ensures var ps := [first] + rest[1..];
      WhiteFree(ps) && forall i :: 1 <= i < |ps| ==> ps[i] != ""
  {
    var ps := [first] + rest[1..];
    forall i, k | 0 <= i < |ps| && 0 <= k < |ps[i]| ensures !IsSpace(ps[i][k]) {
      if i > 0 { assert ps[i] == rest[i]; }
    }
    forall i | 1 <= i < |ps| ensures ps[i] != "" {
      assert ps[i] == rest[i];
    }
  }


  /** The pieces of a non-empty normalised string are its words. */
  lemma NormalizedWords(s: string)
    requires Normalized(s) && s != ""
    ensures forall w :: w in Split(s) ==> IsWord(w)
  {
    SplitClean(s);
  }

  /** Length of the maximal run of non-white-space characters at the start of `s`. */
  function WordLength(s: string): (n: nat)
    ensures n <= |s|
    ensures forall k :: 0 <= k < n ==> !IsSpace(s[k])
    ensures n < |s| ==> IsSpace(s[n])
  {
    if s != [] && !IsSpace(s[0]) then 1 + WordLength(s[1..]) else 0
  }

  /**
   * The white-space-separated tokens of `s`: its maximal runs of characters
   * that are not white space, in order.
   */
  function Tokens(s: string): (r: seq<string>)
    ensures forall w :: w in r ==> IsWord(w)
    decreases |s|
  {
    if s == [] then []
    else if IsSpace(s[0]) then Tokens(s[1..])
    else
      var n := WordLength(s);
      [s[..n]] + Tokens(s[n..])
  }

  lemma {:induction false} TokensDropSpaces(s: string)
    ensures Tokens(DropSpaces(s)) == Tokens(s)
    decreases |s|
  {
    if s != [] && IsSpace(s[0]) {
      assert DropSpaces(s) == DropSpaces(s[1..]);
      TokensDropSpaces(s[1..]);
    }
  }

  /** The characters of a leading word pass through the collapse unchanged. */
  lemma {:induction false} CollapseWord(s: string, k: nat)
    requires k <= WordLength(s)
    ensures Collapse(s) == s[..k] + Collapse(s[k..])
    decreases k
  {
    if k > 0 {
      var t := s[1..];
      assert Collapse(s) == [s[0]] + Collapse(t);
      CollapseWord(t, k - 1);
      assert t[..k - 1] == s[1..k] && t[k - 1..] == s[k..];
      assert s[..k] == [s[0]] + s[1..k];
      Assoc([s[0]], s[1..k], Collapse(s[k..]));
    }
  }

  /** A space at the end of `s` after its last token. */
  function TrailingGap(s: string): string {
    if Tokens(s) != [] && s != [] && IsSpace(s[|s| - 1]) then " " else ""
  }

  /** A run of white space collapses to one space, and hides no token. */
  lemma Gap(r: string)
    requires r != [] && IsSpace(r[0])
    ensures Collapse(r) == " " + Collapse(DropSpaces(r))
    ensures Tokens(r) == Tokens(DropSpaces(r))
    ensures DropSpaces(r) == [] ==> IsSpace(r[|r| - 1])
    ensures DropSpaces(r) != [] ==> r[|r| - 1] == DropSpaces(r)[|DropSpaces(r)| - 1]
  {
    assert DropSpaces(r) == DropSpaces(r[1..]);
    TokensDropSpaces(r);
    var n := LeadingSpaces(r);
    assert DropSpaces(r) == r[n..];
    if n == |r| {
      assert IsSpace(r[|r| - 1]);
    }
  }

  /** The joined tokens of a word followed by the rest. */
  lemma JoinFront(w: string, rest: seq<string>)
    requires rest != []
    ensures JoinSpaces([w] + rest) == w + " " + JoinSpaces(rest)
  {
    assert ([w] + rest)[1..] == rest;
  }

  /** A string that starts with a token collapses to its tokens joined by single spaces, plus one space for a trailing run. */
  lemma {:induction false} CollapseFromWord(t: string)
    requires t == [] || !IsSpace(t[0])
    ensures Collapse(t) == JoinSpaces(Tokens(t)) + TrailingGap(t)
    decreases |t|
  {
    if t != [] {
      var n := WordLength(t);
      var w, r := t[..n], t[n..];
      CollapseWord(t, n);
      assert Tokens(t) == [w] + Tokens(r);
      if r == [] {
        SingleWord(t);
      } else {
        var u := DropSpaces(r);
        Gap(r);
        CollapseFromWord(u);
        LastOfRest(t, n);
        assert Collapse(t) == w + (" " + Collapse(u));
        assert Tokens(t) == [w] + Tokens(u);
        WordGapRest(t, w, u);
      }
    }
  }

  /** The step of `CollapseFromWord` past one word and the white space after it. */
  lemma WordGapRest(t: string, w: string, u: string)
    requires t != [] && (u == [] || !IsSpace(u[0]))
    requires Collapse(t) == w + (" " + Collapse(u))
    requires Tokens(t) == [w] + Tokens(u)
    requires Collapse(u) == JoinSpaces(Tokens(u)) + TrailingGap(u)
    requires u == [] ==> IsSpace(t[|t| - 1])
    requires u != [] ==> t[|t| - 1] == u[|u| - 1]
    ensures Collapse(t) == JoinSpaces(Tokens(t)) + TrailingGap(t)
  {
    if u == [] {
      WordGapEnd(t, w);
    } else {
      var rest := Tokens(u);
      assert rest != [] by {
        assert rest == [u[..WordLength(u)]] + Tokens(u[WordLength(u)..]);
      }
      assert TrailingGap(t) == TrailingGap(u);
      WordGapWords(Collapse(t), w, rest, TrailingGap(u), Collapse(u));
    }
  }

  /** A last word followed by white space collapses to the word and one space. */
  lemma WordGapEnd(t: string, w: string)
    requires t != [] && IsSpace(t[|t| - 1])
    requires Collapse(t) == w + (" " + Collapse([]))
    requires Tokens(t) == [w] + Tokens([])
    ensures Collapse(t) == JoinSpaces(Tokens(t)) + TrailingGap(t)
  {
    assert Collapse([]) == [] && Tokens([]) == [];
    assert Collapse(t) == w + " " by {
      assert " " + [] == " ";
    }
    assert JoinSpaces(Tokens(t)) == w by {
      assert Tokens(t) == [w];
    }
    assert TrailingGap(t) == " ";
  }

  lemma WordGapWords(c: string, w: string, rest: seq<string>, g: string, cu: string)
    requires rest != []
    requires c == w + (" " + cu) && cu == JoinSpaces(rest) + g
    ensures c == JoinSpaces([w] + rest) + g
  {
    JoinFront(w, rest);
    Regroup(w, JoinSpaces(rest), g);
  }

  /** A lone word collapses to itself. */
  lemma SingleWord(t: string)
    requires t != [] && WordLength(t) == |t|
    ensures Collapse(t) == JoinSpaces(Tokens(t)) + TrailingGap(t)
  {
    CollapseWord(t, |t|);
    assert t[..|t|] == t && t[|t|..] == [];
    assert Tokens(t) == [t];
  }

  lemma LastOfRest(t: string, n: nat)
    requires n < |t|
    ensures t[n..][|t| - n - 1] == t[|t| - 1]
  {
  }

  lemma Assoc(a: string, b: string, c: string)
    ensures a + (b + c) == (a + b) + c
  {
  }

  lemma Regroup(w: string, j: string, g: string)
    ensures w + (" " + (j + g)) == (w + " " + j) + g
  {
  }

  /** Words joined by single spaces have no white space at either end. */
  lemma {:induction false} JoinWords(ws: seq<string>)
    requires forall w :: w in ws ==> IsWord(w)
    ensures NoOuterSpace(JoinSpaces(ws))
    ensures ws != [] ==> JoinSpaces(ws) != [] && JoinSpaces(ws)[0] == ws[0][0]
    decreases |ws|
  {
    if |ws| > 1 {
      assert ws[0] in ws && forall x :: x in ws[1..] ==> x in ws;
      JoinWords(ws[1..]);
      assert JoinSpaces(ws) == ws[0] + " " + JoinSpaces(ws[1..]);
    } else if |ws| == 1 {
      assert ws[0] in ws;
    }
  }

  /** Trimming removes exactly the white space around a text with none at its ends. */
  lemma TrimAround(pre: string, j: string, post: string)
    requires forall k :: 0 <= k < |pre| ==> IsSpace(pre[k])
    requires forall k :: 0 <= k < |post| ==> IsSpace(post[k])
    requires j != [] && NoOuterSpace(j)
    ensures Trim(pre + j + post) == j
  {
    var x := pre + j + post;
    var r := Trim(x);
    assert forall k :: 0 <= k < |pre| ==> x[k] == pre[k];
    assert x[|pre|] == j[0];
    assert LeadingSpaces(x) == |pre|;
    assert x[|pre| + |j| - 1] == j[|j| - 1];
    assert forall k :: |pre| + |j| <= k < |x| ==> x[k] == post[k - |pre| - |j|];
    assert |r| == |j|;
    assert r == x[|pre|..|pre| + |j|] == j;
  }

  /** `Trim` of white space alone is empty. */
  lemma TrimBlank(x: string)
    requires forall k :: 0 <= k < |x| ==> IsSpace(x[k])
    ensures Trim(x) == ""
  {
  }

  /** Collapsing replaces each white-space run with one space: a leading run, the gaps between tokens, and a trailing run. */
  lemma CollapseTokens(s: string)
    ensures Collapse(s) == (if s != [] && IsSpace(s[0]) then " " else "") + JoinSpaces(Tokens(s)) + TrailingGap(s)
  {
    if s != [] && IsSpace(s[0]) {
      var t := DropSpaces(s);
      Gap(s);
      CollapseFromWord(t);
      assert TrailingGap(s) == TrailingGap(t);
      Assoc(" ", JoinSpaces(Tokens(t)), TrailingGap(t));
    } else {
      CollapseFromWord(s);
      assert "" + JoinSpaces(Tokens(s)) == JoinSpaces(Tokens(s));
    }
  }

  /** Collapsing and trimming leaves the tokens joined by single spaces. */
  lemma TrimCollapse(s: string)
    ensures Trim(Collapse(s)) == JoinSpaces(Tokens(s))
  {
    CollapseTokens(s);
    var pre := if s != [] && IsSpace(s[0]) then " " else "";
    var j := JoinSpaces(Tokens(s));
    var post := TrailingGap(s);
    JoinWords(Tokens(s));
    Around(Collapse(s), pre, j, post);
  }

  /** `Trim` of a text that is at most one space, a body, and at most one space. */
  lemma Around(c: string, pre: string, j: string, post: string)
    requires pre == "" || pre == " "
    requires post == "" || post == " "
    requires c == pre + j + post
    requires NoOuterSpace(j)
    ensures Trim(c) == j
  {
    if j == [] {
      assert c == pre + post;
      TrimBlank(pre + post);
    } else {
      TrimAround(pre, j, post);
    }
  }

  /** Splitting words joined by single spaces gives the words back. */
  lemma {:induction false} SplitJoin(ws: seq<string>)
    requires ws != [] && forall w :: w in ws ==> IsWord(w)
    ensures Split(JoinSpaces(ws)) == ws
    decreases |ws|
  {
    assert ws[0] in ws;
    NoBlank(ws[0]);
    if |ws| == 1 {
      SplitWord(ws[0], "");
      assert ws[0] + "" == ws[0];
    } else {
      var tail := ws[1..];
      assert forall x :: x in tail ==> x in ws;
      SplitJoin(tail);
      SplitFront(ws[0], tail);
      assert ws == [ws[0]] + tail;
    }
  }

  /** The step of `SplitJoin`: one more word in front. */
  lemma SplitFront(w: string, tail: seq<string>)
    requires ' ' !in w && tail != []
    requires Split(JoinSpaces(tail)) == tail
    ensures Split(JoinSpaces([w] + tail)) == [w] + tail
  {
    JoinFront(w, tail);
    Assoc(w, " ", JoinSpaces(tail));
    SplitWordSpace(w, JoinSpaces(tail));
  }

  /** A word, a space and the rest split into the word and the pieces of the rest. */
  lemma SplitWordSpace(w: string, x: string)
    requires ' ' !in w
    ensures Split(w + (" " + x)) == [w] + Split(x)
  {
    SplitSpace(x);
    SplitWord(w, " " + x);
    var sr := Split(" " + x);
    assert sr[0] == "" && sr[1..] == Split(x);
    assert w + "" == w;
  }

  /** A space in front starts a new, empty piece. */
  lemma SplitSpace(x: string)
    ensures Split(" " + x) == [""] + Split(x)
  {
    assert (" " + x)[0] == ' ' && (" " + x)[1..] == x;
  }

  /** A word holds no plain space. */
  lemma NoBlank(w: string)
    requires IsWord(w)
    ensures ' ' !in w
  {
    assert forall i :: 0 <= i < |w| ==> w[i] != ' ';
  }

  /** A word in front of a rest that starts with a space (or is empty) becomes a piece of its own. */
  lemma {:induction false} SplitWord(w: string, rest: string)
    requires ' ' !in w
    requires rest == [] || rest[0] == ' '
    ensures Split(w + rest) == [w + Split(rest)[0]] + Split(rest)[1..]
    decreases |w|
  {
    var sr := Split(rest);
    if w == [] {
      assert w + rest == rest && "" + sr[0] == sr[0];
      assert sr == [sr[0]] + sr[1..];
    } else {
      var x := w + rest;
      assert x[0] == w[0] && x[1..] == w[1..] + rest;
      assert w[1..] == [] || w[1..][0] == w[1];
      SplitWord(w[1..], rest);
      var tail := Split(x[1..]);
      assert tail[0] == w[1..] + sr[0] && tail[1..] == sr[1..];
      assert Split(x) == [[w[0]] + tail[0]] + tail[1..];
      assert w == [w[0]] + w[1..];
      Assoc([w[0]], w[1..], sr[0]);
    }
  }
}
