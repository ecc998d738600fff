/**
 * Greedy word wrap of `drawParagraph`: the sequence of texts the loop hands to
 * `drawLine`, in order, for a paragraph already split into words. `measure` is
 * the width of a text in the embedded font at the body size.
 */
module WordWrap {
  import opened Strings

  /** The candidate line: the current line, a space and the word, or the word alone. */
  function Joined(current: string, word: string): string {
    if |current| > 0 then current + " " + word else word
  }

  /** The texts flushed for the remaining `words`, starting from the line `current`. */
  function WrapFrom(words: seq<string>, current: string, measure: string -> real, maxWidth: real): seq<string>
    decreases |words|
  {
    if words == [] then (if |current| > 0 then [current] else [])
    else
      var candidate := Joined(current, words[0]);
      if measure(candidate) > maxWidth then [current] + WrapFrom(words[1..], words[0], measure, maxWidth)
      else WrapFrom(words[1..], candidate, measure, maxWidth)
  }

  function Wrap(words: seq<string>, measure: string -> real, maxWidth: real): seq<string> {
    WrapFrom(words, "", measure, maxWidth)
  }

  /** One word of the loop: it either starts a new line after flushing `current`, or joins `current`. */
  lemma WrapStep(words: seq<string>, i: nat, current: string, measure: string -> real, maxWidth: real)
    requires i < |words|
    ensures var candidate := Joined(current, words[i]);
      WrapFrom(words[i..], current, measure, maxWidth)
      == if measure(candidate) > maxWidth then [current] + WrapFrom(words[i + 1..], words[i], measure, maxWidth)
         else WrapFrom(words[i + 1..], candidate, measure, maxWidth)
  {
    assert words[i..][0] == words[i] && words[i..][1..] == words[i + 1..];
  }

  /** Every flushed text fits the usable width, or is a single word, or is the starting line. */
  lemma {:induction false} WrapFromFits(words: seq<string>, current: string, measure: string -> real, maxWidth: real)
    ensures forall l :: l in WrapFrom(words, current, measure, maxWidth) ==>
      l == current || measure(l) <= maxWidth || l in words
    decreases |words|
  {
    if words != [] {
      var candidate := Joined(current, words[0]);
      if measure(candidate) > maxWidth {
        WrapFromFits(words[1..], words[0], measure, maxWidth);
      } else {
        WrapFromFits(words[1..], candidate, measure, maxWidth);
      }
    }
  }

  /** A wrapped line wider than the usable width holds one word that is wider on its own. */
  lemma WrapFits(words: seq<string>, measure: string -> real, maxWidth: real)
    ensures forall l :: l in Wrap(words, measure, maxWidth) ==> l == "" || measure(l) <= maxWidth || l in words
  {
    WrapFromFits(words, "", measure, maxWidth);
  }

  /** Only the starting line can be flushed empty: it happens when the first word alone overflows. */
  lemma {:induction false} WrapFromNonEmpty(words: seq<string>, current: string, measure: string -> real, maxWidth: real)
    requires forall w :: w in words ==> w != ""
    ensures forall i :: 0 <= i < |WrapFrom(words, current, measure, maxWidth)| && WrapFrom(words, current, measure, maxWidth)[i] == "" ==>
      i == 0 && current == "" && words != [] && measure(words[0]) > maxWidth
    decreases |words|
  {
    if words != [] {
      var candidate := Joined(current, words[0]);
      assert words[0] in words && forall x :: x in words[1..] ==> x in words;
      if measure(candidate) > maxWidth {
        WrapFromNonEmpty(words[1..], words[0], measure, maxWidth);
      } else {
        WrapFromNonEmpty(words[1..], candidate, measure, maxWidth);
      }
    }
  }

  /** A line grown from a non-empty `current` is `current` itself or starts with it and a space. */
  lemma {:induction false} WrapFromStarts(words: seq<string>, current: string, measure: string -> real, maxWidth: real)
    requires current != ""
    ensures var ls := WrapFrom(words, current, measure, maxWidth);
      ls != [] && (ls[0] == current || (|ls[0]| > |current| && ls[0][..|current| + 1] == current + " "))
    decreases |words|
  {
    if words != [] {
      var candidate := Joined(current, words[0]);
      if measure(candidate) <= maxWidth {
        WrapFromStarts(words[1..], candidate, measure, maxWidth);
        var l := WrapFrom(words[1..], candidate, measure, maxWidth)[0];
        assert candidate[..|current| + 1] == current + " ";
        if l != candidate {
          assert l[..|current| + 1] == l[..|candidate| + 1][..|current| + 1];
        }
      }
    }
  }

  /** The first `split(' ')` piece of a line that starts with the word `w` is `w`. */
  lemma FirstPiece(w: string, l: string)
    requires ' ' !in w
    requires l == w || (|l| > |w| && l[..|w| + 1] == w + " ")
    ensures Split(l)[0] == w
  {
    if l == w {
      SplitWord(w, []);
      assert w + [] == w;
    } else {
      var x := l[|w| + 1..];
      assert l == l[..|w| + 1] + x;
      SplitWordSpace(w, x);
    }
  }

  /**
   * Greedy packing: each line but the last could not take the first word of
   * the next one, because the loop's test line for them is wider than `maxWidth`.
   */
  predicate Greedy(lines: seq<string>, measure: string -> real, maxWidth: real) {
    forall i :: 0 <= i < |lines| - 1 ==> measure(Joined(lines[i], Split(lines[i + 1])[0])) > maxWidth
  }

  /** The wrap is greedy: a line is flushed only because the next word would not fit on it. */
  lemma {:induction false} WrapFromGreedy(words: seq<string>, current: string, measure: string -> real, maxWidth: real)
    requires forall w :: w in words ==> w != "" && ' ' !in w
    ensures Greedy(WrapFrom(words, current, measure, maxWidth), measure, maxWidth)
    decreases |words|
  {
    if words != [] {
      var w := words[0];
      var candidate := Joined(current, w);
      assert w in words && forall x :: x in words[1..] ==> x in words;
      if measure(candidate) > maxWidth {
        var tail := WrapFrom(words[1..], w, measure, maxWidth);
        WrapFromGreedy(words[1..], w, measure, maxWidth);
        WrapFromStarts(words[1..], w, measure, maxWidth);
        FirstPiece(w, tail[0]);
        GreedyCons(current, tail, measure, maxWidth);
      } else {
        WrapFromGreedy(words[1..], candidate, measure, maxWidth);
      }
    }
  }

  /** A line in front of greedy lines keeps them greedy when the first of them would not fit on it. */
  lemma GreedyCons(line: string, lines: seq<string>, measure: string -> real, maxWidth: real)
    requires Greedy(lines, measure, maxWidth)
    requires lines != [] ==> measure(Joined(line, Split(lines[0])[0])) > maxWidth
    ensures Greedy([line] + lines, measure, maxWidth)
  {
    var ls := [line] + lines;
    forall i | 0 <= i < |ls| - 1
      ensures measure(Joined(ls[i], Split(ls[i + 1])[0])) > maxWidth
    {
      if i > 0 {
        assert ls[i] == lines[i - 1] && ls[i + 1] == lines[i];
      }
    }
  }

  /** Dropping the empty texts from a list whose only possible empty text is the first. */
  lemma DropFirstBlank(ls: seq<string>)
    requires forall i :: 1 <= i < |ls| ==> ls[i] != ""
    ensures NonEmpty(ls) == if ls != [] && ls[0] == "" then ls[1..] else ls
  {
    if ls != [] {
      assert forall x :: x in ls[1..] ==> x != "";
      NonEmptyWords(ls[1..]);
      assert [ls[0]] + ls[1..] == ls;
    }
  }

  /**
   * The visible lines of a wrapped paragraph are packed greedily: each one
   * but the last, followed by a space and the first word of the next line,
   * is wider than the usable width.
   */
  lemma WrapGreedy(words: seq<string>, measure: string -> real, maxWidth: real)
    requires forall w :: w in words ==> w != "" && ' ' !in w
    ensures Greedy(NonEmpty(Wrap(words, measure, maxWidth)), measure, maxWidth)
  {
    var raw := Wrap(words, measure, maxWidth);
    WrapFromGreedy(words, "", measure, maxWidth);
    WrapFromNonEmpty(words, "", measure, maxWidth);
    DropFirstBlank(raw);
    if raw != [] && raw[0] == "" {
      assert Greedy(raw[1..], measure, maxWidth) by {
        forall i | 0 <= i < |raw[1..]| - 1
          ensures measure(Joined(raw[1..][i], Split(raw[1..][i + 1])[0])) > maxWidth
        {
          assert raw[1..][i] == raw[i + 1] && raw[1..][i + 1] == raw[i + 2];
        }
      }
    }
  }

  /** Joining the texts with a space when both sides are non-empty. */
  lemma {:induction false} JoinAppend(a: seq<string>, b: seq<string>)
    requires a != [] && b != []
    ensures JoinSpaces(a + b) == JoinSpaces(a) + " " + JoinSpaces(b)
    decreases |a|
  {
    if |a| == 1 {
      assert a + b == [a[0]] + b;
    } else {
      assert (a + b)[1..] == a[1..] + b;
      JoinAppend(a[1..], b);
    }
  }

  lemma {:induction false} NonEmptyAppend(a: seq<string>, b: seq<string>)
    ensures NonEmpty(a + b) == NonEmpty(a) + NonEmpty(b)
    decreases |a|
  {
    if a == [] {
      assert a + b == b;
    } else {
      assert (a + b)[1..] == a[1..] + b;
      NonEmptyAppend(a[1..], b);
    }
  }

  lemma {:induction false} NonEmptyWords(words: seq<string>)
    requires forall w :: w in words ==> w != ""
    ensures NonEmpty(words) == words
    decreases |words|
  {
    if words != [] {
      assert words[0] in words && forall x :: x in words[1..] ==> x in words;
      NonEmptyWords(words[1..]);
    }
  }

  lemma JoinNonEmptyWords(words: seq<string>)
    requires words != [] && forall w :: w in words ==> w != ""
    ensures JoinSpaces(words) != ""
  {
    assert words[0] in words;
    if |words| > 1 { assert JoinSpaces(words) == words[0] + " " + JoinSpaces(words[1..]); }
  }

  /** Wrapping loses no word and adds none: the non-empty lines, re-joined, are the words re-joined. */
  lemma {:induction false} WrapFromJoin(words: seq<string>, current: string, measure: string -> real, maxWidth: real)
    requires forall w :: w in words ==> w != ""
    ensures JoinSpaces(NonEmpty(WrapFrom(words, current, measure, maxWidth))) == JoinSpaces(NonEmpty([current] + words))
    decreases |words|
  {
    if words == [] {
      assert [current] + words == [current];
    } else {
      var w, rest := words[0], words[1..];
      assert w in words && forall x :: x in rest ==> x in words;
      assert words == [w] + rest;
      var candidate := Joined(current, w);
      if measure(candidate) > maxWidth {
        var tail := WrapFrom(rest, w, measure, maxWidth);
        WrapFromJoin(rest, w, measure, maxWidth);
        NonEmptyWords(words);
        BreakJoin(current, tail, words);
      } else {
        WrapFromJoin(rest, candidate, measure, maxWidth);
        FitJoin(current, w, rest);
      }
    }
  }

  /** The step of `WrapFromJoin` where the current line is flushed before the next word. */
  lemma BreakJoin(current: string, tail: seq<string>, words: seq<string>)
    requires words != [] && forall w :: w in words ==> w != ""
    requires JoinSpaces(NonEmpty(tail)) == JoinSpaces(NonEmpty(words))
    ensures JoinSpaces(NonEmpty([current] + tail)) == JoinSpaces(NonEmpty([current] + words))
  {
    NonEmptyAppend([current], tail);
    NonEmptyAppend([current], words);
    NonEmptyWords(words);
    JoinNonEmptyWords(words);
    if current != "" {
      assert NonEmpty(tail) != [];
      JoinAppend([current], NonEmpty(tail));
      JoinAppend([current], words);
    } else {
      assert [] + NonEmpty(tail) == NonEmpty(tail) && [] + words == words;
    }
  }

  /** The step of `WrapFromJoin` where the next word joins the current line. */
  lemma FitJoin(current: string, w: string, rest: seq<string>)
    requires w != "" && forall x :: x in rest ==> x != ""
    ensures JoinSpaces(NonEmpty([Joined(current, w)] + rest)) == JoinSpaces(NonEmpty([current] + ([w] + rest)))
  {
    var candidate := Joined(current, w);
    NonEmptyWords(rest);
    assert forall x :: x in [w] + rest ==> x != "";
    NonEmptyWords([w] + rest);
    NonEmptyAppend([candidate], rest);
    NonEmptyAppend([current], [w] + rest);
    if current == "" {
      assert [] + ([w] + rest) == [w] + rest;
    } else {
      FitJoinLine(current, w, rest);
    }
  }

  /** `FitJoin` when the current line already holds words. */
  lemma FitJoinLine(current: string, w: string, rest: seq<string>)
    ensures JoinSpaces([current + " " + w] + rest) == JoinSpaces([current] + ([w] + rest))
  {
    if rest != [] {
      JoinAppend([current + " " + w], rest);
      JoinAppend([current], [w] + rest);
      JoinAppend([w], rest);
    } else {
      JoinAppend([current], [w]);
    }
  }

  /** The non-empty wrapped lines of a word sequence re-join to the words. */
  lemma WrapJoin(words: seq<string>, measure: string -> real, maxWidth: real)
    requires forall w :: w in words ==> w != ""
    ensures JoinSpaces(NonEmpty(Wrap(words, measure, maxWidth))) == JoinSpaces(words)
  {
    WrapFromJoin(words, "", measure, maxWidth);
    NonEmptyAppend([""], words);
    NonEmptyWords(words);
  }

  /** Lines built from white-space-free words have no white space at either end. */
  lemma {:induction false} WrapFromTrimmed(words: seq<string>, current: string, measure: string -> real, maxWidth: real)
    requires forall w :: w in words ==> IsWord(w)
    requires NoOuterSpace(current)
    ensures forall l :: l in WrapFrom(words, current, measure, maxWidth) ==> NoOuterSpace(l)
    decreases |words|
  {
    if words != [] {
      var w := words[0];
      assert w in words;
      var candidate := Joined(current, w);
      if measure(candidate) > maxWidth {
        WrapFromTrimmed(words[1..], w, measure, maxWidth);
      } else {
        WrapFromTrimmed(words[1..], candidate, measure, maxWidth);
      }
    }
  }
}
