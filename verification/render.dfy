/**
 * `createPdf` as it runs: one layout session per document holds the page size
 * constants and the mutable cursor `y`; `drawLine` and `drawParagraph` update
 * it in place, and drawing a text appends it to the lines of the page.
 */
module Render {
  import opened Strings
  import opened WordWrap
  import opened Contact
  import opened Layout
  import opened Letter

  class Session {
    /** Width of a text in the embedded font at the body size (`widthOfTextAtSize`). */
    const measure: string -> real
    /** `width - 2 * MARGIN`: the usable width of a line. */
    const maxWidth: real
    /** The vertical cursor: the baseline of the next line. */
    var y: real
    /** The lines drawn so far. */
    var lines: seq<Line>

    function State(): Page
      reads this
    {
      Page(y, lines)
    }

    /** A fresh page: nothing drawn, the cursor one margin below the top edge. */
    constructor (pageWidth: real, pageHeight: real, measure: string -> real)
      ensures this.measure == measure && maxWidth == pageWidth - 2.0 * MARGIN
      ensures y == pageHeight - MARGIN && lines == []
    {
      this.measure := measure;
      maxWidth := pageWidth - 2.0 * MARGIN;
      y := pageHeight - MARGIN;
      lines := [];
    }

    /** `drawLine(text, size)`. */
    method DrawLine(text: string, size: real)
      modifies this
      ensures old(y) < MARGIN || text == "" ==> y == old(y) && lines == old(lines)
      ensures old(y) >= MARGIN && text != "" ==>
        lines == old(lines) + [Line(Trim(text), old(y), size)] && y == old(y) - size * LEADING
      ensures State() == PutLine(old(State()), text, size)
    {
      if y < MARGIN || text == "" {
        return;
      }
      lines := lines + [Line(Trim(text), y, size)];
      y := y - size * LEADING;
    }

    /** `drawParagraph(text)`: greedy word wrap, then the paragraph gap. */
    method DrawParagraph(text: string)
      modifies this
      ensures State() == PutParagraph(old(State()), text, measure, maxWidth)
    {
      if text == "" {
        return;
      }
      var words := Split(Normalize(text));
      DrawWords(words);
      y := y - LINE_HEIGHT;
    }

    /** The loop of `drawParagraph`: grow the current line word by word, drawing it whenever the next word would overflow. */
    method DrawWords(words: seq<string>)
      modifies this
      ensures State() == PutLines(old(State()), Wrap(words, measure, maxWidth))
    {
      var currentLine := "";
      ghost var target := PutLines(State(), Wrap(words, measure, maxWidth));
      for i := 0 to |words|
        invariant PutLines(State(), WrapFrom(words[i..], currentLine, measure, maxWidth)) == target
      {
        var word := words[i];
        var testLine := if |currentLine| > 0 then currentLine + " " + word else word;
        WrapStep(words, i, currentLine, measure, maxWidth);
        if measure(testLine) > maxWidth {
          PutLinesCons(State(), currentLine, WrapFrom(words[i + 1..], word, measure, maxWidth));
          DrawLine(currentLine, BODY_SIZE);
          currentLine := word;
        } else {
          currentLine := testLine;
        }
      }
      assert words[|words|..] == [];
      PutLinesLast(State(), currentLine);
      if |currentLine| > 0 {
        DrawLine(currentLine, BODY_SIZE);
      }
    }

    /** Lines 141-150: the sender's name, address and phone/e-mail line(s). */
    method Header(info: ContactInfo)
      modifies this
      ensures State() == Run(old(State()), HeaderOps(info), measure, maxWidth)
    {
      ghost var start := State();
      ghost var name := [Draw(info.fullName, HEADER_SIZE), Advance(NAME_GAP)];
      DrawLine(info.fullName, HEADER_SIZE);
      ghost var q1 := State();
      assert q1 == Step(start, name[0], measure, maxWidth);
      y := y - NAME_GAP;
      assert State() == Step(q1, name[1], measure, maxWidth);
      Run2(start, name[0], name[1], measure, maxWidth);
      ghost var p1 := State();
      if info.address != "" {
        DrawLine(info.address, BODY_SIZE);
      }
      RunOptional(p1, info.address, measure, maxWidth);
      ghost var p2 := State();
      ContactLines(info.phone, info.email);
      ghost var contact := ContactOps(info.phone, info.email);
      ghost var p3 := State();
      ghost var gap := [Advance(LINE_HEIGHT * 1.5)];
      y := y - LINE_HEIGHT * 1.5;
      assert State() == Step(p3, gap[0], measure, maxWidth);
      Run1(p3, gap[0], measure, maxWidth);
      ghost var addr := Optional(info.address);
      RunAppend(start, name, addr, measure, maxWidth);
      RunAppend(start, name + addr, contact, measure, maxWidth);
      RunAppend(start, name + addr + contact, gap, measure, maxWidth);
    }

    /** Lines 144-149: phone and e-mail on one line when both are known, otherwise each that is. */
    method ContactLines(phone: string, email: string)
      modifies this
      ensures State() == Run(old(State()), ContactOps(phone, email), measure, maxWidth)
    {
      ghost var start := State();
      if phone != "" && email != "" {
        DrawLine(phone + " | " + email, BODY_SIZE);
        Run1(start, Draw(phone + SEPARATOR + email, BODY_SIZE), measure, maxWidth);
      } else {
        if phone != "" {
          DrawLine(phone, BODY_SIZE);
        }
        RunOptional(start, phone, measure, maxWidth);
        ghost var q := State();
        if email != "" {
          DrawLine(email, BODY_SIZE);
        }
        RunOptional(q, email, measure, maxWidth);
        RunAppend(start, Optional(phone), Optional(email), measure, maxWidth);
      }
    }

    /** Lines 152-162: the date, the addressee and the salutation. */
    method Addressee(content: LetterBody, today: string)
      modifies this
      ensures State() == Run(old(State()), AddresseeOps(content, today), measure, maxWidth)
    {
      ghost var start := State();
      DrawLine(today, BODY_SIZE);
      ghost var dated := State();
      assert dated == PutLine(start, today, BODY_SIZE);
      y := y - LINE_HEIGHT * 1.5;
      ghost var gap := State();
      var manager := if content.hiringManagerName != "" then content.hiringManagerName else "Hiring Manager";
      assert manager == Manager(content);
      DrawLine(manager, BODY_SIZE);
      ghost var named := State();
      assert named == PutLine(gap, Manager(content), BODY_SIZE);
      if content.companyName != "" {
        DrawLine(content.companyName, BODY_SIZE);
      }
      ghost var addressed := State();
      assert addressed == if content.companyName != "" then PutLine(named, content.companyName, BODY_SIZE) else named;
      y := y - LINE_HEIGHT * 1.5;
      ghost var spaced := State();
      DrawLine("Dear " + manager + ",", BODY_SIZE);
      ghost var greeted := State();
      assert greeted == PutLine(spaced, Salutation(Manager(content)), BODY_SIZE);
      y := y - LINE_HEIGHT;
      AddresseeSteps(start, dated, gap, named, addressed, spaced, greeted, State(), content, today, measure, maxWidth);
    }

    /** Lines 164-168: the three generated paragraphs and the fixed closing one. */
    method Body(content: LetterBody)
      modifies this
      ensures State() == Run(old(State()), BodyOps(content), measure, maxWidth)
    {
      ghost var start := State();
      DrawParagraph(content.paragraph1);
      assert State() == Step(start, Paragraph(content.paragraph1), measure, maxWidth);
      ghost var p1 := State();
      DrawParagraph(content.paragraph2);
      assert State() == Step(p1, Paragraph(content.paragraph2), measure, maxWidth);
      ghost var p2 := State();
      DrawParagraph(content.paragraph3);
      assert State() == Step(p2, Paragraph(content.paragraph3), measure, maxWidth);
      ghost var p3 := State();
      DrawParagraph(CLOSING);
      assert State() == Step(p3, Paragraph(CLOSING), measure, maxWidth);
      Run4(start, Paragraph(content.paragraph1), Paragraph(content.paragraph2),
        Paragraph(content.paragraph3), Paragraph(CLOSING), measure, maxWidth);
    }

    /** Lines 170-172: the sign-off, the signature gap and the name. */
    method SignOff(info: ContactInfo)
      modifies this
      ensures State() == Run(old(State()), SignOffOps(info), measure, maxWidth)
    {
      ghost var start := State();
      DrawLine("Sincerely,", BODY_SIZE);
      y := y - LINE_HEIGHT * 3.0;
      DrawLine(info.fullName, BODY_SIZE);
      Run3(start, Draw(SIGN_OFF, BODY_SIZE), Advance(LINE_HEIGHT * 3.0), Draw(info.fullName, BODY_SIZE), measure, maxWidth);
    }

    /** Lines 141-172 of `createPdf`: the blocks of the letter, top to bottom. */
    method Compose(info: ContactInfo, content: LetterBody, today: string)
      modifies this
      ensures State() == Run(old(State()), LetterOps(info, content, today), measure, maxWidth)
    {
      ghost var start := State();
      Header(info);
      ghost var p1 := State();
      Addressee(content, today);
      ghost var p2 := State();
      Body(content);
      ghost var p3 := State();
      SignOff(info);
      ghost var h, a, b, s := HeaderOps(info), AddresseeOps(content, today), BodyOps(content), SignOffOps(info);
      RunAppend(start, h, a, measure, maxWidth);
      RunAppend(start, h + a, b, measure, maxWidth);
      RunAppend(start, h + a + b, s, measure, maxWidth);
    }
  }

  /**
   * `createPdf`: the lines of the finished page. They all lie between the
   * bottom margin and the top margin, each baseline is at least one leading
   * below the one before, and their texts are what the letter shows, in
   * order, cut short only where the cursor passed the bottom margin.
   */
  method CreatePdf(info: ContactInfo, content: LetterBody, today: string,
                   pageWidth: real, pageHeight: real, measure: string -> real)
    returns (lines: seq<Line>)
    ensures lines == LetterLines(info, content, today, pageWidth, pageHeight, measure)
    ensures forall i :: 0 <= i < |lines| ==> MARGIN <= lines[i].y <= pageHeight - MARGIN
    ensures forall i :: 0 < i < |lines| ==> lines[i].y <= lines[i - 1].y - lines[i - 1].size * LEADING
    ensures Texts(lines) <= Shows(LetterOps(info, content, today), measure, pageWidth - 2.0 * MARGIN)
  {
    var session := new Session(pageWidth, pageHeight, measure);
    session.Compose(info, content, today);
    lines := session.lines;
    ghost var start := Page(pageHeight - MARGIN, []);
    RunFollows(start, LetterOps(info, content, today), measure, pageWidth - 2.0 * MARGIN);
    LetterPageTexts(info, content, today, pageWidth, pageHeight, measure);
  }

  /** The pages `Session.Addressee` passes through, step by step, are those of running the addressee block. */
  lemma AddresseeSteps(start: Page, dated: Page, gap: Page, named: Page, addressed: Page, spaced: Page, greeted: Page, last: Page,
                       content: LetterBody, today: string, measure: string -> real, maxWidth: real)
    requires dated == PutLine(start, today, BODY_SIZE)
    requires gap == dated.(y := dated.y - LINE_HEIGHT * 1.5)
    requires named == PutLine(gap, Manager(content), BODY_SIZE)
    requires addressed == if content.companyName != "" then PutLine(named, content.companyName, BODY_SIZE) else named
    requires spaced == addressed.(y := addressed.y - LINE_HEIGHT * 1.5)
    requires greeted == PutLine(spaced, Salutation(Manager(content)), BODY_SIZE)
    requires last == greeted.(y := greeted.y - LINE_HEIGHT)
    ensures Run(start, AddresseeOps(content, today), measure, maxWidth) == last
  {
    var d1, a1, d2 := Draw(today, BODY_SIZE), Advance(LINE_HEIGHT * 1.5), Draw(Manager(content), BODY_SIZE);
    var a2, d3, a3 := Advance(LINE_HEIGHT * 1.5), Draw(Salutation(Manager(content)), BODY_SIZE), Advance(LINE_HEIGHT);
    var top, company, bottom := [d1, a1, d2], Optional(content.companyName), [a2, d3, a3];
    assert Step(start, d1, measure, maxWidth) == dated;
    assert Step(dated, a1, measure, maxWidth) == gap;
    assert Step(gap, d2, measure, maxWidth) == named;
    Run3(start, d1, a1, d2, measure, maxWidth);
    RunOptional(named, content.companyName, measure, maxWidth);
    assert Step(addressed, a2, measure, maxWidth) == spaced;
    assert Step(spaced, d3, measure, maxWidth) == greeted;
    assert Step(greeted, a3, measure, maxWidth) == last;
    Run3(addressed, a2, d3, a3, measure, maxWidth);
    RunAppend(start, top, company, measure, maxWidth);
    RunAppend(start, top + company, bottom, measure, maxWidth);
    assert AddresseeOps(content, today) == top + company + bottom;
  }
}
