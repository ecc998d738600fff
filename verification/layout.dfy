/**
 * The layout engine of `createPdf` as a specification on values: a page is the
 * vertical cursor `y` together with the lines drawn so far (text, baseline and
 * font size), and each drawing step maps a page to the next one.
 */
module Layout {
  import opened Strings
  import opened WordWrap

  const MARGIN: real := 72.0
  const HEADER_SIZE: real := 14.0
  const BODY_SIZE: real := 11.0
  /** Distance between baselines, as a multiple of the font size. */
  const LEADING: real := 1.2
  /** Extra space after a paragraph, and the unit of the gaps between blocks. */
  const LINE_HEIGHT: real := BODY_SIZE * 1.4

  /** One `page.drawText` call: the text drawn, its baseline, its font size. */
  datatype Line = Line(text: string, y: real, size: real)

  /** The cursor `y` and the lines drawn so far. */
  datatype Page = Page(y: real, lines: seq<Line>)

  function Texts(lines: seq<Line>): seq<string> {
    seq(|lines|, i requires 0 <= i < |lines| => lines[i].text)
  }

  /** `drawLine`: nothing below the bottom margin or for an empty text; otherwise draw at `y` and move down. */
  function PutLine(p: Page, text: string, size: real): Page {
    if p.y < MARGIN || text == "" then p
    else Page(p.y - size * LEADING, p.lines + [Line(Trim(text), p.y, size)])
  }

  /** `drawLine` at the body size for each text in turn. */
  function PutLines(p: Page, texts: seq<string>): Page
    decreases |texts|
  {
    if texts == [] then p else PutLines(PutLine(p, texts[0], BODY_SIZE), texts[1..])
  }

  lemma PutLinesCons(p: Page, text: string, rest: seq<string>)
    ensures PutLines(p, [text] + rest) == PutLines(PutLine(p, text, BODY_SIZE), rest)
  {
    assert ([text] + rest)[1..] == rest;
  }

  lemma PutLinesLast(p: Page, text: string)
    ensures PutLines(p, if |text| > 0 then [text] else []) == if |text| > 0 then PutLine(p, text, BODY_SIZE) else p
  {
  }

  /** The words of a paragraph: `text.replace(/\s+/g, ' ').trim().split(' ')`. */
  function Words(text: string): seq<string> {
    Split(Normalize(text))
  }
  /** The words of a paragraph are its white-space-separated tokens; a blank paragraph has the one empty word. */
  lemma WordsAreTokens(text: string)
    ensures Tokens(text) != [] ==> Words(text) == Tokens(text)
    ensures Tokens(text) == [] ==> Words(text) == [""]
  {
    if Tokens(text) != [] {
      SplitJoin(Tokens(text));
    }
  }


  /** `drawParagraph`: nothing for an empty text; otherwise the wrapped lines and a paragraph gap. */
  function PutParagraph(p: Page, text: string, measure: string -> real, maxWidth: real): Page {
    if text == "" then p
    else
      var q := PutLines(p, Wrap(Words(text), measure, maxWidth));
      q.(y := q.y - LINE_HEIGHT)
  }

  /** The steps `createPdf` takes: draw a line, move the cursor down, draw a paragraph. */
  datatype Op = Draw(text: string, size: real) | Advance(dy: real) | Paragraph(text: string)

  /** A step never moves the cursor up. */
  predicate Descends(op: Op) {
    match op
    case Draw(_, size) => size > 0.0
    case Advance(dy) => dy >= 0.0
    case Paragraph(_) => true
  }

  function Step(p: Page, op: Op, measure: string -> real, maxWidth: real): Page {
    match op
    case Draw(text, size) => PutLine(p, text, size)
    case Advance(dy) => p.(y := p.y - dy)
    case Paragraph(text) => PutParagraph(p, text, measure, maxWidth)
  }

  /** The page after the steps `ops`, in order. */
  function Run(p: Page, ops: seq<Op>, measure: string -> real, maxWidth: real): Page
    decreases |ops|
  {
    if ops == [] then p
    else Step(Run(p, ops[..|ops| - 1], measure, maxWidth), ops[|ops| - 1], measure, maxWidth)
  }

  /**
   * Every drawn line sits on or above the bottom margin, each baseline lies at
   * least one leading below the previous one, and so does the cursor.
   */
  predicate WellPlaced(p: Page) {
    (forall i :: 0 <= i < |p.lines| ==> p.lines[i].y >= MARGIN && p.lines[i].size > 0.0)
    && (forall i :: 0 < i < |p.lines| ==> p.lines[i].y <= p.lines[i - 1].y - p.lines[i - 1].size * LEADING)
    && (p.lines != [] ==> p.y <= p.lines[|p.lines| - 1].y - p.lines[|p.lines| - 1].size * LEADING)
  }

  /** The cursor only moves down, lines are only appended, and each new line is drawn at or below the old cursor. */
  predicate Follows(p: Page, q: Page) {
    q.y <= p.y && p.lines <= q.lines
    && (forall i :: |p.lines| <= i < |q.lines| ==> q.lines[i].y <= p.y)
    && (p.y < MARGIN ==> q.lines == p.lines)
  }

  lemma FollowsTrans(p: Page, q: Page, r: Page)
    requires Follows(p, q) && Follows(q, r)
    ensures Follows(p, r)
  {
    assert r.lines[..|q.lines|] == q.lines;
  }

  lemma PutLineFollows(p: Page, text: string, size: real)
    requires size > 0.0
    ensures Follows(p, PutLine(p, text, size))
    ensures WellPlaced(p) ==> WellPlaced(PutLine(p, text, size))
  {
  }

  lemma {:induction false} PutLinesFollows(p: Page, texts: seq<string>)
    ensures Follows(p, PutLines(p, texts))
    ensures WellPlaced(p) ==> WellPlaced(PutLines(p, texts))
    decreases |texts|
  {
    if texts != [] {
      var p1 := PutLine(p, texts[0], BODY_SIZE);
      PutLineFollows(p, texts[0], BODY_SIZE);
      PutLinesFollows(p1, texts[1..]);
      FollowsTrans(p, p1, PutLines(p, texts));
    }
  }

  lemma StepFollows(p: Page, op: Op, measure: string -> real, maxWidth: real)
    requires Descends(op)
    ensures Follows(p, Step(p, op, measure, maxWidth))
    ensures WellPlaced(p) ==> WellPlaced(Step(p, op, measure, maxWidth))
  {
    match op
    case Draw(text, size) => PutLineFollows(p, text, size);
    case Advance(dy) =>
    case Paragraph(text) => ParagraphFollows(p, text, measure, maxWidth);
  }

  lemma ParagraphFollows(p: Page, text: string, measure: string -> real, maxWidth: real)
    ensures Follows(p, PutParagraph(p, text, measure, maxWidth))
    ensures WellPlaced(p) ==> WellPlaced(PutParagraph(p, text, measure, maxWidth))
  {
    if text != "" {
      var q := PutLines(p, Wrap(Words(text), measure, maxWidth));
      PutLinesFollows(p, Wrap(Words(text), measure, maxWidth));
      GapFollows(q);
      FollowsTrans(p, q, q.(y := q.y - LINE_HEIGHT));
    }
  }

  /** The paragraph gap moves only the cursor, and down. */
  lemma GapFollows(q: Page)
    ensures Follows(q, q.(y := q.y - LINE_HEIGHT))
    ensures WellPlaced(q) ==> WellPlaced(q.(y := q.y - LINE_HEIGHT))
  {
  }

  /**
   * Running steps that never move the cursor up keeps the page well placed,
   * never moves the cursor up, only appends lines, and draws nothing at all
   * once the cursor is below the bottom margin.
   */
  lemma {:induction false} RunFollows(p: Page, ops: seq<Op>, measure: string -> real, maxWidth: real)
    requires forall op :: op in ops ==> Descends(op)
    ensures Follows(p, Run(p, ops, measure, maxWidth))
    ensures WellPlaced(p) ==> WellPlaced(Run(p, ops, measure, maxWidth))
    decreases |ops|
  {
    if ops != [] {
      var init := ops[..|ops| - 1];
      assert forall op :: op in init ==> op in ops;
      RunFollows(p, init, measure, maxWidth);
      var q := Run(p, init, measure, maxWidth);
      StepFollows(q, ops[|ops| - 1], measure, maxWidth);
      FollowsTrans(p, q, Run(p, ops, measure, maxWidth));
    }
  }

  lemma {:induction false} RunAppend(p: Page, a: seq<Op>, b: seq<Op>, measure: string -> real, maxWidth: real)
    ensures Run(p, a + b, measure, maxWidth) == Run(Run(p, a, measure, maxWidth), b, measure, maxWidth)
    decreases |b|
  {
    if b == [] {
      assert a + b == a;
    } else {
      var b' := b[..|b| - 1];
      assert (a + b)[..|a + b| - 1] == a + b';
      RunAppend(p, a, b', measure, maxWidth);
    }
  }

  lemma RunSnoc(p: Page, ops: seq<Op>, op: Op, measure: string -> real, maxWidth: real)
    ensures Run(p, ops + [op], measure, maxWidth) == Step(Run(p, ops, measure, maxWidth), op, measure, maxWidth)
  {
    assert (ops + [op])[..|ops|] == ops;
  }

  lemma Run1(p: Page, a: Op, measure: string -> real, maxWidth: real)
    ensures Run(p, [a], measure, maxWidth) == Step(p, a, measure, maxWidth)
  {
    RunSnoc(p, [], a, measure, maxWidth);
  }

  lemma Run2(p: Page, a: Op, b: Op, measure: string -> real, maxWidth: real)
    ensures Run(p, [a, b], measure, maxWidth) == Step(Step(p, a, measure, maxWidth), b, measure, maxWidth)
  {
    assert [a, b] == [a] + [b];
    RunSnoc(p, [a], b, measure, maxWidth);
    Run1(p, a, measure, maxWidth);
  }

  lemma Run3(p: Page, a: Op, b: Op, c: Op, measure: string -> real, maxWidth: real)
    ensures Run(p, [a, b, c], measure, maxWidth)
      == Step(Step(Step(p, a, measure, maxWidth), b, measure, maxWidth), c, measure, maxWidth)
  {
    assert [a, b, c] == [a, b] + [c];
    RunSnoc(p, [a, b], c, measure, maxWidth);
    Run2(p, a, b, measure, maxWidth);
  }

  lemma Run4(p: Page, a: Op, b: Op, c: Op, d: Op, measure: string -> real, maxWidth: real)
    ensures Run(p, [a, b, c, d], measure, maxWidth)
      == Step(Step(Step(Step(p, a, measure, maxWidth), b, measure, maxWidth), c, measure, maxWidth), d, measure, maxWidth)
  {
    assert [a, b, c, d] == [a, b, c] + [d];
    RunSnoc(p, [a, b, c], d, measure, maxWidth);
    Run3(p, a, b, c, measure, maxWidth);
  }

  /** Once the cursor has passed the bottom margin, no later step draws anything. */
  lemma NothingAfterOverflow(p: Page, a: seq<Op>, b: seq<Op>, measure: string -> real, maxWidth: real)
    requires forall op :: op in b ==> Descends(op)
    requires Run(p, a, measure, maxWidth).y < MARGIN
    ensures Run(p, a + b, measure, maxWidth).lines == Run(p, a, measure, maxWidth).lines
  {
    RunAppend(p, a, b, measure, maxWidth);
    RunFollows(Run(p, a, measure, maxWidth), b, measure, maxWidth);
  }

  /** The texts of the lines after `before`, when the next one is `line`. */
  lemma NextLine(before: seq<Line>, line: Line, after: seq<Line>)
    requires before + [line] <= after
    ensures Texts(after[|before|..]) == [line.text] + Texts(after[|before| + 1..])
  {
    assert after[|before|..] == [line] + after[|before| + 1..];
  }

  /** The lowest cursor from which `n` body lines all land on or above the bottom margin. */
  function Room(n: nat): real {
    MARGIN + (n as real - 1.0) * BODY_SIZE * LEADING
  }

  /**
   * Drawing texts that have no white space at either end: the lines drawn are
   * the non-empty texts, in order, cut short once the bottom margin is passed;
   * all of them are drawn when the cursor has room for them.
   */
  lemma {:induction false} PutLinesEmits(p: Page, texts: seq<string>)
    requires forall t :: t in texts ==> NoOuterSpace(t)
    ensures p.lines <= PutLines(p, texts).lines
    ensures Texts(PutLines(p, texts).lines[|p.lines|..]) <= NonEmpty(texts)
    ensures p.y >= Room(|NonEmpty(texts)|) ==>
      Texts(PutLines(p, texts).lines[|p.lines|..]) == NonEmpty(texts)
    ensures PutLines(p, texts).y >= MARGIN ==>
      Texts(PutLines(p, texts).lines[|p.lines|..]) == NonEmpty(texts)
    decreases |texts|
  {
    var q := PutLines(p, texts);
    PutLinesFollows(p, texts);
    if texts != [] {
      var t := texts[0];
      assert t in texts && forall x :: x in texts[1..] ==> x in texts;
      var p1 := PutLine(p, t, BODY_SIZE);
      PutLinesEmits(p1, texts[1..]);
      if t == "" {
        assert p1 == p;
      } else if p.y < MARGIN {
        PutLinesFollows(p1, texts[1..]);
        assert q.lines[|p.lines|..] == [];
      } else {
        assert Trim(t) == t;
        assert p1.lines == p.lines + [Line(t, p.y, BODY_SIZE)];
        NextLine(p.lines, Line(t, p.y, BODY_SIZE), q.lines);
        assert Room(|NonEmpty(texts)|) - BODY_SIZE * LEADING == Room(|NonEmpty(texts[1..])|);
      }
    }
  }

  /** A paragraph of white space only has no words to show. */
  lemma BlankParagraph(text: string, measure: string -> real, maxWidth: real)
    requires Normalize(text) == ""
    ensures forall t :: t in Wrap(Words(text), measure, maxWidth) ==> t == ""
    ensures NonEmpty(Wrap(Words(text), measure, maxWidth)) == []
  {
    var flushed := Wrap(Words(text), measure, maxWidth);
    assert Words(text) == [""];
    assert flushed == WrapFrom([""], "", measure, maxWidth);
    assert [""][1..] == [] && Joined("", [""][0]) == "";
    assert WrapFrom([], "", measure, maxWidth) == [];
    assert flushed == (if measure("") > maxWidth then [""] else []);
  }

  /**
   * The lines a paragraph's wrap produces: none is empty; each fits the usable
   * width or is a single word; re-joined with spaces they are the normalised
   * paragraph; and none has white space at either end.
   */
  lemma ParagraphShown(text: string, measure: string -> real, maxWidth: real)
    ensures var shown := NonEmpty(Wrap(Words(text), measure, maxWidth));
      (forall l :: l in shown ==> l != "" && (measure(l) <= maxWidth || l in Words(text)))
      && JoinSpaces(shown) == Normalize(text)
    ensures Greedy(NonEmpty(Wrap(Words(text), measure, maxWidth)), measure, maxWidth)
    ensures forall t :: t in Wrap(Words(text), measure, maxWidth) ==> NoOuterSpace(t)
  {
    var n := Normalize(text);
    var words := Words(text);
    WrapFits(words, measure, maxWidth);
    if n == "" {
      BlankParagraph(text, measure, maxWidth);
      assert words == [""];
    } else {
      NormalizedWords(n);
      WrapJoin(words, measure, maxWidth);
      WrapFromTrimmed(words, "", measure, maxWidth);
      forall w | w in words
        ensures w != "" && ' ' !in w
      {
        NoBlank(w);
      }
      WrapGreedy(words, measure, maxWidth);
    }
  }

  /**
   * A non-empty paragraph: its lines are the non-empty wrapped lines, in order,
   * cut short only at the bottom margin, and all of them are drawn, re-joining
   * to the normalised paragraph, when the cursor has room for them.
   */
  lemma ParagraphLines(p: Page, text: string, measure: string -> real, maxWidth: real)
    requires text != ""
    ensures var q := PutParagraph(p, text, measure, maxWidth);
      var shown := NonEmpty(Wrap(Words(text), measure, maxWidth));
      p.lines <= q.lines
      && Texts(q.lines[|p.lines|..]) <= shown
      && (p.y >= Room(|shown|) ==> JoinSpaces(Texts(q.lines[|p.lines|..])) == Normalize(text))
  {
    var flushed := Wrap(Words(text), measure, maxWidth);
    var q := PutParagraph(p, text, measure, maxWidth);
    assert q.lines == PutLines(p, flushed).lines;
    ParagraphShown(text, measure, maxWidth);
    PutLinesEmits(p, flushed);
    var shown := NonEmpty(flushed);
    if p.y >= Room(|shown|) {
      assert Texts(q.lines[|p.lines|..]) == shown;
    }
  }

  /** The texts a step draws when the page has room for all of them: a trimmed line, a paragraph's non-empty wrapped lines, nothing for a cursor move. */
  function Expand(op: Op, measure: string -> real, maxWidth: real): seq<string> {
    match op
    case Draw(text, _) => if text != "" then [Trim(text)] else []
    case Advance(_) => []
    case Paragraph(text) => if text != "" then NonEmpty(Wrap(Words(text), measure, maxWidth)) else []
  }

  /** The texts the steps `ops` draw, in order, on a page with room for all of them. */
  function Shows(ops: seq<Op>, measure: string -> real, maxWidth: real): seq<string>
    decreases |ops|
  {
    if ops == [] then [] else Shows(ops[..|ops| - 1], measure, maxWidth) + Expand(ops[|ops| - 1], measure, maxWidth)
  }

  lemma {:induction false} ShowsAppend(a: seq<Op>, b: seq<Op>, measure: string -> real, maxWidth: real)
    ensures Shows(a + b, measure, maxWidth) == Shows(a, measure, maxWidth) + Shows(b, measure, maxWidth)
    decreases |b|
  {
    if b == [] {
      assert a + b == a;
    } else {
      var ab, b' := a + b, b[..|b| - 1];
      assert ab[..|ab| - 1] == a + b' && ab[|ab| - 1] == b[|b| - 1];
      var e := Expand(b[|b| - 1], measure, maxWidth);
      assert Shows(ab, measure, maxWidth) == Shows(a + b', measure, maxWidth) + e;
      assert Shows(b, measure, maxWidth) == Shows(b', measure, maxWidth) + e;
      ShowsAppend(a, b', measure, maxWidth);
      SeqAssoc(Shows(a, measure, maxWidth), Shows(b', measure, maxWidth), e);
    }
  }

  lemma SeqAssoc(x: seq<string>, y: seq<string>, z: seq<string>)
    ensures (x + y) + z == x + (y + z)
  {
  }

  lemma Shows1(x: Op, measure: string -> real, maxWidth: real)
    ensures Shows([x], measure, maxWidth) == Expand(x, measure, maxWidth)
  {
    assert [x][..0] == [] && [x][0] == x;
    assert Shows([x], measure, maxWidth) == Shows([], measure, maxWidth) + Expand(x, measure, maxWidth);
  }

  lemma TextsAppend(a: seq<Line>, b: seq<Line>)
    ensures Texts(a + b) == Texts(a) + Texts(b)
  {
  }

  /**
   * One step draws a prefix of what it shows: all of it when the cursor is
   * still on or above the bottom margin afterwards.
   */
  lemma StepShows(q: Page, op: Op, measure: string -> real, maxWidth: real)
    requires Descends(op)
    ensures var r := Step(q, op, measure, maxWidth);
      q.lines <= r.lines
      && Texts(r.lines[|q.lines|..]) <= Expand(op, measure, maxWidth)
      && (r.y >= MARGIN ==> Texts(r.lines[|q.lines|..]) == Expand(op, measure, maxWidth))
      && r.y <= q.y && (q.y < MARGIN ==> r.lines == q.lines)
  {
    var r := Step(q, op, measure, maxWidth);
    StepFollows(q, op, measure, maxWidth);
    match op
    case Draw(text, size) =>
      if q.y >= MARGIN && text != "" {
        assert r.lines[|q.lines|..] == [Line(Trim(text), q.y, size)];
      }
    case Advance(dy) =>
    case Paragraph(text) =>
      if text != "" {
        var flushed := Wrap(Words(text), measure, maxWidth);
        ParagraphShown(text, measure, maxWidth);
        PutLinesEmits(q, flushed);
        assert r.lines == PutLines(q, flushed).lines && r.y < PutLines(q, flushed).y;
      }
  }

  /**
   * Running steps that never move the cursor up draws a prefix of what they
   * show, in order: the whole of it when the cursor ends on or above the
   * bottom margin.
   */
  lemma {:induction false} RunShows(p: Page, ops: seq<Op>, measure: string -> real, maxWidth: real)
    requires forall op :: op in ops ==> Descends(op)
    ensures var r := Run(p, ops, measure, maxWidth);
      p.lines <= r.lines
      && Texts(r.lines[|p.lines|..]) <= Shows(ops, measure, maxWidth)
      && (r.y >= MARGIN ==> Texts(r.lines[|p.lines|..]) == Shows(ops, measure, maxWidth))
    decreases |ops|
  {
    var r := Run(p, ops, measure, maxWidth);
    if ops == [] {
      assert r.lines[|p.lines|..] == [];
    } else {
      var init, last := ops[..|ops| - 1], ops[|ops| - 1];
      assert forall op :: op in init ==> op in ops;
      assert last in ops;
      var q := Run(p, init, measure, maxWidth);
      RunShows(p, init, measure, maxWidth);
      StepShows(q, last, measure, maxWidth);
      assert r == Step(q, last, measure, maxWidth);
      assert Shows(ops, measure, maxWidth) == Shows(init, measure, maxWidth) + Expand(last, measure, maxWidth);
      var before, added := q.lines[|p.lines|..], r.lines[|q.lines|..];
      SliceSplit(p.lines, q.lines, r.lines);
      Extend(before, added, Shows(init, measure, maxWidth), Expand(last, measure, maxWidth), q.y, r.y);
    }
  }

  /** The step of `RunShows`: what one more step draws after what the earlier steps drew. */
  lemma Extend(before: seq<Line>, added: seq<Line>, shown: seq<string>, step: seq<string>, qy: real, ry: real)
    requires Texts(before) <= shown && (qy >= MARGIN ==> Texts(before) == shown)
    requires Texts(added) <= step && (ry >= MARGIN ==> Texts(added) == step)
    requires ry <= qy && (qy < MARGIN ==> added == [])
    ensures Texts(before + added) <= shown + step
    ensures ry >= MARGIN ==> Texts(before + added) == shown + step
  {
    TextsAppend(before, added);
    if Texts(before) == shown {
      PrefixAppend(shown, Texts(added), step);
    } else {
      assert added == [] && Texts(added) == [];
      assert Texts(before) + Texts(added) == Texts(before);
    }
  }

  lemma SliceSplit(a: seq<Line>, b: seq<Line>, c: seq<Line>)
    requires a <= b <= c
    ensures a <= c && c[|a|..] == b[|a|..] + c[|b|..]
  {
  }

  lemma PrefixAppend(a: seq<string>, b: seq<string>, c: seq<string>)
    requires b <= c
    ensures a + b <= a + c
  {
    assert (a + c)[..|a + b|] == a + b;
  }
}
