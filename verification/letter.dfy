/**
 * The blocks of the cover letter, top to bottom, as the steps `createPdf`
 * takes: header, date, addressee, salutation, the three generated paragraphs
 * and the fixed closing paragraph, sign-off and name.
 */
module Letter {
  import opened Strings
  import opened Contact
  import opened Layout

  const CLOSING: string :=
    "I am confident I possess the skills to excel in this role and am eager to discuss my qualifications further. Thank you for your time and consideration."
  const FALLBACK_MANAGER: string := "Hiring Manager"
  const SIGN_OFF: string := "Sincerely,"
  const SEPARATOR: string := " | "
  /** The small gap below the name in the header. */
  const NAME_GAP: real := 4.0

  /** `content.hiringManagerName || "Hiring Manager"`. */
  function Manager(content: LetterBody): (m: string)
    ensures m != ""
    ensures content.hiringManagerName != "" ==> m == content.hiringManagerName
    ensures content.hiringManagerName == "" ==> m == FALLBACK_MANAGER
  {
    Or(content.hiringManagerName, FALLBACK_MANAGER)
  }

  function Salutation(manager: string): string {
    "Dear " + manager + ","
  }

  /** The text a step hands to the drawing helpers: that of a line or paragraph; a cursor move hands none. */
  function Handed(op: Op): seq<string> {
    if op.Advance? then [] else [op.text]
  }

  /** The texts handed to `drawLine` and `drawParagraph`, in order. */
  function Script(ops: seq<Op>): seq<string>
    decreases |ops|
  {
    if ops == [] then [] else Handed(ops[0]) + Script(ops[1..])
  }

  lemma {:induction false} ScriptAppend(a: seq<Op>, b: seq<Op>)
    ensures Script(a + b) == Script(a) + Script(b)
    decreases |a|
  {
    if a == [] {
      assert a + b == b;
    } else {
      assert (a + b)[1..] == a[1..] + b;
      ScriptAppend(a[1..], b);
    }
  }

  lemma Script1(x: Op)
    ensures Script([x]) == Handed(x)
  {
    assert [x][1..] == [];
  }

  lemma Script2(x: Op, y: Op)
    ensures Script([x, y]) == Handed(x) + Handed(y)
  {
    assert [x, y] == [x] + [y];
    ScriptAppend([x], [y]);
    Script1(x);
    Script1(y);
  }

  lemma Script3(x: Op, y: Op, z: Op)
    ensures Script([x, y, z]) == Handed(x) + Handed(y) + Handed(z)
  {
    assert [x, y, z] == [x] + [y, z];
    ScriptAppend([x], [y, z]);
    Script1(x);
    Script2(y, z);
  }

  lemma Script4(w: Op, x: Op, y: Op, z: Op)
    ensures Script([w, x, y, z]) == Handed(w) + Handed(x) + Handed(y) + Handed(z)
  {
    assert [w, x, y, z] == [w, x] + [y, z];
    ScriptAppend([w, x], [y, z]);
    Script2(w, x);
    Script2(y, z);
  }

  lemma ScriptConcat(h: seq<Op>, a: seq<Op>, b: seq<Op>, s: seq<Op>)
    ensures Script(h + a + b + s) == Script(h) + Script(a) + Script(b) + Script(s)
  {
    ScriptAppend(h + a + b, s);
    ScriptAppend(h + a, b);
    ScriptAppend(h, a);
  }

  /** An optional line: drawn when its text is non-empty. */
  function Optional(text: string): seq<Op> {
    if text != "" then [Draw(text, BODY_SIZE)] else []
  }

  lemma OptionalScript(text: string)
    ensures Script(Optional(text)) == NonEmpty([text])
  {
    if text != "" { Script1(Draw(text, BODY_SIZE)); }
  }

  lemma RunOptional(p: Page, text: string, measure: string -> real, maxWidth: real)
    ensures Run(p, Optional(text), measure, maxWidth) == if text != "" then PutLine(p, text, BODY_SIZE) else p
  {
    if text != "" { Run1(p, Draw(text, BODY_SIZE), measure, maxWidth); }
  }

  /** The phone and e-mail line(s) of the header. */
  function ContactOps(phone: string, email: string): (r: seq<Op>)
    ensures forall op :: op in r ==> op.Draw? && op.size == BODY_SIZE && op.text != ""
    ensures phone != "" && email != "" ==> Script(r) == [phone + SEPARATOR + email]
    ensures phone == "" || email == "" ==> Script(r) == NonEmpty([phone, email])
  {
    if phone != "" && email != "" then [Draw(phone + SEPARATOR + email, BODY_SIZE)]
    else
      ScriptAppend(Optional(phone), Optional(email));
      OptionalScript(phone);
      OptionalScript(email);
      assert NonEmpty([phone, email]) == NonEmpty([phone]) + NonEmpty([email]) by {
        assert [phone, email][1..] == [email];
      }
      Optional(phone) + Optional(email)
  }

  function HeaderOps(info: ContactInfo): (r: seq<Op>)
    ensures forall op :: op in r ==> Descends(op) && !op.Paragraph?
  {
    [Draw(info.fullName, HEADER_SIZE), Advance(NAME_GAP)]
    + Optional(info.address)
    + ContactOps(info.phone, info.email)
    + [Advance(LINE_HEIGHT * 1.5)]
  }

  function AddresseeOps(content: LetterBody, today: string): (r: seq<Op>)
    ensures forall op :: op in r ==> Descends(op) && !op.Paragraph?
  {
    [Draw(today, BODY_SIZE), Advance(LINE_HEIGHT * 1.5), Draw(Manager(content), BODY_SIZE)]
    + Optional(content.companyName)
    + [Advance(LINE_HEIGHT * 1.5), Draw(Salutation(Manager(content)), BODY_SIZE), Advance(LINE_HEIGHT)]
  }

  function BodyOps(content: LetterBody): seq<Op> {
    [Paragraph(content.paragraph1), Paragraph(content.paragraph2), Paragraph(content.paragraph3), Paragraph(CLOSING)]
  }

  function SignOffOps(info: ContactInfo): (r: seq<Op>)
    ensures forall op :: op in r ==> Descends(op) && !op.Paragraph?
  {
    [Draw(SIGN_OFF, BODY_SIZE), Advance(LINE_HEIGHT * 3.0), Draw(info.fullName, BODY_SIZE)]
  }

  /** Every step of the letter, in the order `createPdf` takes them; none moves the cursor up. */
  function LetterOps(info: ContactInfo, content: LetterBody, today: string): (ops: seq<Op>)
    ensures forall op :: op in ops ==> Descends(op)
  {
    var h, a, b, s := HeaderOps(info), AddresseeOps(content, today), BodyOps(content), SignOffOps(info);
    assert forall op :: op in b ==> Descends(op);
    h + a + b + s
  }

  /** The finished page, for a page of the given size and a text-width function. */
  function LetterPage(info: ContactInfo, content: LetterBody, today: string,
                      pageWidth: real, pageHeight: real, measure: string -> real): Page
  {
    Run(Page(pageHeight - MARGIN, []), LetterOps(info, content, today), measure, pageWidth - 2.0 * MARGIN)
  }

  /** The lines of the finished page. */
  function LetterLines(info: ContactInfo, content: LetterBody, today: string,
                       pageWidth: real, pageHeight: real, measure: string -> real): seq<Line>
  {
    LetterPage(info, content, today, pageWidth, pageHeight, measure).lines
  }

  lemma HeaderScript(info: ContactInfo)
    ensures Script(HeaderOps(info))
      == [info.fullName] + NonEmpty([info.address]) + Script(ContactOps(info.phone, info.email))
  {
    var name := [Draw(info.fullName, HEADER_SIZE), Advance(NAME_GAP)];
    var addr := Optional(info.address);
    var top := name + addr;
    assert Script(top) == [info.fullName] + NonEmpty([info.address]) by {
      ScriptAppend(name, addr);
      Script2(name[0], name[1]);
      OptionalScript(info.address);
    }
    var contact := ContactOps(info.phone, info.email);
    var gap := [Advance(LINE_HEIGHT * 1.5)];
    assert HeaderOps(info) == top + contact + gap;
    ScriptAppend(top + contact, gap);
    ScriptAppend(top, contact);
    Script1(gap[0]);
  }

  lemma AddresseeScript(content: LetterBody, today: string)
    ensures Script(AddresseeOps(content, today))
      == [today, Manager(content)] + NonEmpty([content.companyName]) + [Salutation(Manager(content))]
  {
    var top := [Draw(today, BODY_SIZE), Advance(LINE_HEIGHT * 1.5), Draw(Manager(content), BODY_SIZE)];
    var company := Optional(content.companyName);
    var bottom := [Advance(LINE_HEIGHT * 1.5), Draw(Salutation(Manager(content)), BODY_SIZE), Advance(LINE_HEIGHT)];
    ScriptAppend(top + company, bottom);
    ScriptAppend(top, company);
    Script3(top[0], top[1], top[2]);
    OptionalScript(content.companyName);
    Script3(bottom[0], bottom[1], bottom[2]);
  }

  /**
   * The letter's steps carry, in this order: the name, the address if any, the
   * phone and e-mail line(s), the date, the manager (or the fallback), the company if any,
   * the salutation, the three generated paragraphs, the closing paragraph, the
   * sign-off and the name again.
   */
  lemma LetterScript(info: ContactInfo, content: LetterBody, today: string)
    ensures Script(LetterOps(info, content, today))
      == ([info.fullName] + NonEmpty([info.address]) + Script(ContactOps(info.phone, info.email)))
       + ([today, Manager(content)] + NonEmpty([content.companyName]) + [Salutation(Manager(content))])
       + [content.paragraph1, content.paragraph2, content.paragraph3, CLOSING]
       + [SIGN_OFF, info.fullName]
  {
    var h, a, b, s := HeaderOps(info), AddresseeOps(content, today), BodyOps(content), SignOffOps(info);
    assert LetterOps(info, content, today) == h + a + b + s;
    ScriptConcat(h, a, b, s);
    HeaderScript(info);
    AddresseeScript(content, today);
    BodyScript(content);
    SignOffScript(info);
  }

  lemma BodyScript(content: LetterBody)
    ensures Script(BodyOps(content)) == [content.paragraph1, content.paragraph2, content.paragraph3, CLOSING]
  {
    var b := BodyOps(content);
    Script4(b[0], b[1], b[2], b[3]);
  }

  lemma SignOffScript(info: ContactInfo)
    ensures Script(SignOffOps(info)) == [SIGN_OFF, info.fullName]
  {
    var s := SignOffOps(info);
    Script3(s[0], s[1], s[2]);
  }

  /** The texts `drawLine` puts on the page for the given texts: the non-empty ones, trimmed. */
  function Visible(texts: seq<string>): seq<string>
    decreases |texts|
  {
    if texts == [] then []
    else (if texts[0] != "" then [Trim(texts[0])] else []) + Visible(texts[1..])
  }

  lemma {:induction false} VisibleAppend(a: seq<string>, b: seq<string>)
    ensures Visible(a + b) == Visible(a) + Visible(b)
    decreases |a|
  {
    if a == [] {
      assert a + b == b;
    } else {
      var head := if a[0] != "" then [Trim(a[0])] else [];
      assert (a + b)[1..] == a[1..] + b && (a + b)[0] == a[0];
      assert Visible(a + b) == head + Visible(a[1..] + b);
      assert Visible(a) == head + Visible(a[1..]);
      VisibleAppend(a[1..], b);
      SeqAssoc(head, Visible(a[1..]), Visible(b));
    }
  }

  /** A paragraph's non-empty wrapped lines: what `drawParagraph` shows on a page with room for them. */
  function Flow(text: string, measure: string -> real, maxWidth: real): seq<string> {
    Expand(Paragraph(text), measure, maxWidth)
  }

  /** Steps without a paragraph show the non-empty texts they hand to `drawLine`, trimmed. */
  lemma {:induction false} DrawsShow(ops: seq<Op>, measure: string -> real, maxWidth: real)
    requires forall op :: op in ops ==> !op.Paragraph?
    ensures Shows(ops, measure, maxWidth) == Visible(Script(ops))
    decreases |ops|
  {
    if ops != [] {
      var x, rest := ops[0], ops[1..];
      assert x in ops && forall op :: op in rest ==> op in ops;
      assert ops == [x] + rest;
      ShowsAppend([x], rest, measure, maxWidth);
      Shows1(x, measure, maxWidth);
      DrawsShow(rest, measure, maxWidth);
      VisibleAppend(Handed(x), Script(rest));
      if x.Draw? {
        assert Visible([x.text]) == Expand(x, measure, maxWidth) by {
          assert [x.text][1..] == [];
        }
      }
    }
  }

  lemma Shows4(w: Op, x: Op, y: Op, z: Op, measure: string -> real, maxWidth: real)
    ensures Shows([w, x, y, z], measure, maxWidth)
      == Expand(w, measure, maxWidth) + Expand(x, measure, maxWidth) + Expand(y, measure, maxWidth) + Expand(z, measure, maxWidth)
  {
    assert [w, x, y, z] == [w] + [x] + [y] + [z];
    ShowsAppend([w] + [x] + [y], [z], measure, maxWidth);
    ShowsAppend([w] + [x], [y], measure, maxWidth);
    ShowsAppend([w], [x], measure, maxWidth);
    Shows1(w, measure, maxWidth);
    Shows1(x, measure, maxWidth);
    Shows1(y, measure, maxWidth);
    Shows1(z, measure, maxWidth);
  }

  lemma ShowsConcat(h: seq<Op>, a: seq<Op>, b: seq<Op>, s: seq<Op>, measure: string -> real, maxWidth: real)
    ensures Shows(h + a + b + s, measure, maxWidth)
      == Shows(h, measure, maxWidth) + Shows(a, measure, maxWidth) + Shows(b, measure, maxWidth) + Shows(s, measure, maxWidth)
  {
    ShowsAppend(h + a + b, s, measure, maxWidth);
    ShowsAppend(h + a, b, measure, maxWidth);
    ShowsAppend(h, a, measure, maxWidth);
  }

  /** The header and addressee blocks show their non-empty lines, trimmed. */
  lemma TopShows(info: ContactInfo, content: LetterBody, today: string, measure: string -> real, maxWidth: real)
    ensures Shows(HeaderOps(info), measure, maxWidth) + Shows(AddresseeOps(content, today), measure, maxWidth)
      == Visible(([info.fullName] + NonEmpty([info.address]) + Script(ContactOps(info.phone, info.email)))
                 + ([today, Manager(content)] + NonEmpty([content.companyName]) + [Salutation(Manager(content))]))
  {
    var h, a := HeaderOps(info), AddresseeOps(content, today);
    DrawsShow(h, measure, maxWidth);
    DrawsShow(a, measure, maxWidth);
    VisibleAppend(Script(h), Script(a));
    HeaderScript(info);
    AddresseeScript(content, today);
  }

  lemma SignOffShows(info: ContactInfo, measure: string -> real, maxWidth: real)
    ensures Shows(SignOffOps(info), measure, maxWidth) == Visible([SIGN_OFF, info.fullName])
  {
    DrawsShow(SignOffOps(info), measure, maxWidth);
    SignOffScript(info);
  }

  /**
   * What the letter shows on a page with room for all of it, in order: the
   * header and addressee lines that are not empty, trimmed; the wrapped lines
   * of the three generated paragraphs and of the closing paragraph; the
   * sign-off and the name.
   */
  lemma LetterShows(info: ContactInfo, content: LetterBody, today: string, measure: string -> real, maxWidth: real)
    ensures Shows(LetterOps(info, content, today), measure, maxWidth)
      == Visible(([info.fullName] + NonEmpty([info.address]) + Script(ContactOps(info.phone, info.email)))
                 + ([today, Manager(content)] + NonEmpty([content.companyName]) + [Salutation(Manager(content))]))
       + (Flow(content.paragraph1, measure, maxWidth) + Flow(content.paragraph2, measure, maxWidth)
          + Flow(content.paragraph3, measure, maxWidth) + Flow(CLOSING, measure, maxWidth))
       + Visible([SIGN_OFF, info.fullName])
  {
    var h, a, b, s := HeaderOps(info), AddresseeOps(content, today), BodyOps(content), SignOffOps(info);
    assert LetterOps(info, content, today) == h + a + b + s;
    ShowsConcat(h, a, b, s, measure, maxWidth);
    TopShows(info, content, today, measure, maxWidth);
    BodyShows(content, measure, maxWidth);
    SignOffShows(info, measure, maxWidth);
  }

  lemma BodyShows(content: LetterBody, measure: string -> real, maxWidth: real)
    ensures Shows(BodyOps(content), measure, maxWidth)
      == Flow(content.paragraph1, measure, maxWidth) + Flow(content.paragraph2, measure, maxWidth)
       + Flow(content.paragraph3, measure, maxWidth) + Flow(CLOSING, measure, maxWidth)
  {
    var b := BodyOps(content);
    Shows4(b[0], b[1], b[2], b[3], measure, maxWidth);
  }

  /**
   * The finished page draws a prefix of what the letter shows, in order, and
   * all of it when the cursor ends on or above the bottom margin.
   */
  lemma LetterPageTexts(info: ContactInfo, content: LetterBody, today: string,
                        pageWidth: real, pageHeight: real, measure: string -> real)
    ensures Texts(LetterLines(info, content, today, pageWidth, pageHeight, measure))
      <= Shows(LetterOps(info, content, today), measure, pageWidth - 2.0 * MARGIN)
    ensures LetterPage(info, content, today, pageWidth, pageHeight, measure).y >= MARGIN ==>
      Texts(LetterLines(info, content, today, pageWidth, pageHeight, measure))
        == Shows(LetterOps(info, content, today), measure, pageWidth - 2.0 * MARGIN)
  {
    var start := Page(pageHeight - MARGIN, []);
    var page := LetterPage(info, content, today, pageWidth, pageHeight, measure);
    RunShows(start, LetterOps(info, content, today), measure, pageWidth - 2.0 * MARGIN);
    assert page.lines[|start.lines|..] == page.lines;
  }
}
