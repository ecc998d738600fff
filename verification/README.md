# Cover Letter Genius: the request handler and PDF layout, modelled in Dafny

Cover Letter Genius is an HTTP service (`POST /api/generate`, in `index.ts`).
It takes a résumé, a job description, a company description, a model API key
and optional contact overrides. It answers with a one-page PDF cover letter.
This project models the deterministic core of that service and proves
properties of it:

- **Handler** (`handler.dfy`). A request without an API key is rejected before
  anything else. The model is then asked to extract the contact details from
  the résumé. The user's overrides are merged over the extracted details. A
  merged record without a name or an e-mail address is rejected before the
  second model call. The second call generates the letter body, and the PDF is
  laid out. Any failure of a model call becomes the 500 response.
- **Model call** (`handler.dfy`, `fence.dfy`). A failed HTTP status or an
  answer without text is an error. The ```` ```json ```` opening fence (with
  the white space after it) and the closing ```` ``` ```` are removed, as the
  global regular-expression replace does. The rest is parsed.
- **Contact merge and gate** (`contact.dfy`). A non-empty override wins over
  the extracted value. The phone always comes from the extraction.
- **String operations** (`strings.dfy`). `trim()`, `replace(/\s+/g, ' ')` and
  `split(' ')` over the ECMAScript white-space set.
- **Word wrap** (`wrap.dfy`). The greedy loop of `drawParagraph`.
- **Layout** (`layout.dfy`, `letter.dfy`). The page is a value: the cursor `y`
  and the lines drawn so far. `drawLine`, `drawParagraph` and the cursor moves
  are steps on that value. The letter is the fixed sequence of steps that
  `createPdf` takes.
- **Rendering** (`render.dfy`). `createPdf` as it runs. A `Session` object
  holds the mutable cursor and the drawn lines. Its methods `DrawLine`,
  `DrawParagraph` (a `for` loop over the words) and the block-by-block
  composition update them in place. Each is proved to produce the page the
  value-level layout describes.

Interfaces the model does not own are parameters:

- the width of a text in the embedded font (`measure`);
- the page size;
- the formatted date;
- the model service's answers;
- `JSON.parse` read as each record.

A missing or `undefined` text field is the empty string. The source only ever
tests these fields for truthiness or combines them with `||`, where `undefined`
and `""` behave alike. Coordinates and sizes are `real`, so the multipliers
1.2 and 1.4 are exact.

## Model

| member | source | states |
|---|---|---|
| Strings.Trim | index.ts:115 | The result has no white space at either end. It is the slice of the input after its maximal leading white-space run. Everything after it is white space. A string with no outer white space is unchanged. |
| Strings.Collapse | index.ts:121 | The result has no white space but single spaces. It is empty exactly when the input is. It is no longer than the input. A leading non-space character is kept. Its exact value is stated by `Strings.CollapseTokens`. |
| Strings.Tokens | index.ts:121 | The reference reading of a text: its maximal runs of non-white-space characters, in order. Every token is a word: non-empty and free of white space. |
| Strings.TokensDropSpaces | index.ts:121 | Leading white space does not change the tokens. |
| Strings.CollapseTokens | index.ts:121 | `replace(/\s+/g, ' ')` is the tokens joined by single spaces, with one space in front when the text starts with white space, and one space behind when it ends with white space after a token. |
| Strings.TrimCollapse | index.ts:121 | Trimming the collapsed text leaves exactly the tokens joined by single spaces. |
| Strings.CollapseKeepsLetters | index.ts:121 | Collapsing white space keeps every non-white-space character, in order. |
| Strings.CollapseClean | index.ts:121 | A string whose only white space is single spaces is a fixed point of the collapse. |
| Strings.TrimKeepsClean | index.ts:121 | Trimming a collapsed string leaves it collapsed. |
| Strings.Normalize | index.ts:121 | `replace(/\s+/g,' ').trim()` is the text's white-space-separated tokens joined by single spaces. The result is normalised: no white space at either end, and only single spaces inside. |
| Strings.NormalizeIdempotent | index.ts:121 | Normalising a normalised paragraph changes nothing. |
| Strings.Split | index.ts:121 | `split(' ')` yields at least one piece. No piece contains a space. The pieces re-joined with single spaces are the input. |
| Strings.SplitClean | index.ts:121 | Splitting a collapsed string that does not end in a space gives pieces free of white space. Every piece after the first is non-empty, and so is the first when the string does not start with a space. |
| Strings.NormalizedWords | index.ts:121 | The pieces of a non-empty normalised paragraph are words: non-empty and free of white space. |
| Strings.SplitJoin | index.ts:121 | `split(' ')` undoes joining words with single spaces: it gives back the same words. |
| Strings.NonEmpty | index.ts:114 | The texts `drawLine` does not skip are non-empty, are drawn from the input, and are no more than the input. |
| Fence.OpenMatchEnd | index.ts:62 | The match of ```` ^```json\s* ```` ends after the maximal white-space run that follows the opening fence. |
| Fence.ScanTail | index.ts:62 | Once the scan is past the opening fence, the replace removes exactly a closing fence at the end. |
| Fence.StripFenceIsReplace | index.ts:62 | The global replace equals a plain definition: drop a leading ```` ```json ```` and the white space after it, then drop a trailing ```` ``` ````. |
| Fence.FencedReply | index.ts:62 | Wrapping a body in ```` ```json ````, white space and ```` ``` ```` and then replacing gives the body back, provided the body does not itself start with white space (the `\s*` would remove that too). |
| Fence.UnfencedReply | index.ts:62 | A text with neither fence is unchanged. |
| Fence.FencedEqualsUnfenced | index.ts:62 | A fenced body and the same body without fences clean to the same text. |
| Contact.Merge | index.ts:191-196 | Name, e-mail and address: a non-empty override wins, otherwise the extracted value. The phone is always the extracted one. |
| Contact.Gate | index.ts:191-200 | The gate passes exactly when the name and the e-mail are each given by the override or by the extraction. On success the value is the merged record, with a non-empty name and e-mail. On failure the error is the "Could not automatically extract Name and Email" message. |
| WordWrap.WrapFromFits | index.ts:125-137 | Every line the loop flushes fits the usable width, or is one word, or is the starting line. |
| WordWrap.WrapFits | index.ts:125-137 | Every wrapped line is empty, fits the usable width, or is a single word. |
| WordWrap.WrapFromNonEmpty | index.ts:125-137 | For non-empty words, an empty flushed line can only be the first one. It happens only when the starting line is empty and the first word alone is wider than the usable width. `drawLine` skips it. |
| WordWrap.WrapFromStarts | index.ts:125-137 | When the starting line is not empty, the first flushed line is that line, or that line followed by a space and more text. |
| WordWrap.FirstPiece | index.ts:121 | If a text is a word, alone or followed by a space and more, its first space-separated piece is that word. |
| WordWrap.WrapFromGreedy | index.ts:125-137 | The wrap is greedy. Each flushed line was flushed only because its test line with the next line's first word is wider than the usable width. |
| WordWrap.GreedyCons | index.ts:128-132 | A flushed line stays greedy in front of the following lines when their first word did not fit on it. |
| WordWrap.WrapGreedy | index.ts:121-137 | The greedy packing holds for the visible lines: each one but the last, with a space and the next line's first word, is wider than the usable width. |
| WordWrap.WrapFromJoin | index.ts:125-137 | The non-empty flushed lines, re-joined with spaces, are the starting line and the words re-joined. |
| WordWrap.WrapJoin | index.ts:121-137 | Wrapping loses no word and adds none: the non-empty lines, re-joined with spaces, are the words re-joined. |
| WordWrap.WrapFromTrimmed | index.ts:125-137 | Lines built from white-space-free words have no white space at either end. |
| WordWrap.JoinAppend | index.ts:121 | Joining two non-empty lists with spaces is joining each and putting one space between. |
| WordWrap.NonEmptyWords | index.ts:114 | A list of non-empty texts loses nothing to the `!text` guard. |
| Layout.PutLineFollows | index.ts:113-117 | `drawLine` never moves the cursor up. It only appends, at or below the cursor. It draws nothing once the cursor is below the bottom margin. It keeps the page well placed: lines on or above the margin, each at least one leading below the previous. |
| Layout.PutLinesFollows | index.ts:125-137 | The same holds for a sequence of `drawLine` calls. |
| Layout.ParagraphFollows | index.ts:119-139 | The same holds for `drawParagraph`. |
| Layout.StepFollows | index.ts:141-172 | The same holds for any step of the letter that does not move the cursor up. |
| Layout.RunFollows | index.ts:102-172 | Running such steps in order keeps the page well placed, never moves the cursor up, only appends lines, and draws nothing once the cursor has passed the bottom margin. |
| Layout.RunAppend | index.ts:141-172 | Running two step lists in a row is running their concatenation. |
| Layout.NothingAfterOverflow | index.ts:114 | Once the cursor is below the bottom margin, no later step adds a line. |
| Layout.PutLinesEmits | index.ts:113-117 | The lines drawn from trimmed texts are a prefix of the non-empty texts. All of them are drawn when the cursor has room for that many lines, or when the cursor is still on or above the bottom margin afterwards. |
| Layout.BlankParagraph | index.ts:119-139 | A paragraph of white space only flushes nothing visible. |
| Layout.ParagraphShown | index.ts:119-137 | A paragraph's visible lines are non-empty. Each fits the width or is a single word. Re-joined, they are the normalised paragraph. None has white space at either end. They are packed greedily: no line could have taken the next line's first word. |
| Layout.WordsAreTokens | index.ts:121 | The words `drawParagraph` loops over are the paragraph's white-space-separated tokens. A paragraph of white space only gives the one empty word. |
| Layout.ParagraphLines | index.ts:119-139 | A paragraph's drawn lines follow the old ones. They are a prefix of its visible wrapped lines. With room for all of them, they re-join to the normalised paragraph. |
| Layout.ShowsAppend | index.ts:141-172 | What two step lists show in a row is what each shows, concatenated. |
| Layout.StepShows | index.ts:113-139 | One step appends lines whose texts are a prefix of what the step shows: the trimmed text of a non-empty line, or the visible wrapped lines of a paragraph. They are all of it when the cursor is still on or above the bottom margin afterwards. The step never moves the cursor up, and adds nothing once the cursor is below the margin. |
| Layout.RunShows | index.ts:141-172 | Running steps in order appends lines whose texts are a prefix of what the steps show, in order. They are all of it when the cursor ends on or above the bottom margin. |
| Letter.Manager | index.ts:156 | The addressee is the inferred hiring manager when there is one, else "Hiring Manager". It is never empty. |
| Letter.ContactOps | index.ts:144-149 | With both phone and e-mail there is one line, `phone \| email`. Otherwise each one present gets its own line, phone first. Every line is at body size and non-empty. |
| Letter.HeaderOps | index.ts:141-150 | The header's steps are lines and cursor moves only, and none moves the cursor up. |
| Letter.AddresseeOps | index.ts:152-162 | The same holds for the date, addressee and salutation steps. |
| Letter.SignOffOps | index.ts:170-172 | The same holds for the sign-off steps. |
| Letter.LetterOps | index.ts:141-172 | No step of the letter moves the cursor up. |
| Letter.HeaderScript | index.ts:141-150 | The header's steps carry the name, then the address if any, then the phone/e-mail line(s). |
| Letter.AddresseeScript | index.ts:152-162 | The addressee block's steps carry the date, the manager (or the fallback), the company if any, and `Dear <manager>,`. |
| Letter.BodyScript | index.ts:164-168 | The body's steps carry the three generated paragraphs and the closing paragraph, in order. |
| Letter.SignOffScript | index.ts:170-172 | The sign-off's steps carry "Sincerely," and the name. |
| Letter.LetterScript | index.ts:141-172 | The letter's steps carry their texts in this fixed order: header, date, addressee, salutation, the three generated paragraphs, the closing paragraph, "Sincerely,", the name. |
| Letter.DrawsShow | index.ts:113-117 | Steps without paragraphs show the trimmed texts of their non-empty lines, in order. |
| Letter.TopShows | index.ts:141-162 | The header and addressee blocks show the trimmed non-empty texts among: name, address, phone/e-mail line(s), date, manager, company, salutation. |
| Letter.BodyShows | index.ts:164-168 | The body shows the visible wrapped lines of each of the four paragraphs, in order. |
| Letter.SignOffShows | index.ts:170-172 | The sign-off shows "Sincerely," and the trimmed name, if any. |
| Letter.LetterShows | index.ts:141-172 | The whole letter shows, in order: the header and addressee texts, the wrapped lines of the three generated paragraphs and of the closing paragraph, then "Sincerely," and the name. |
| Letter.LetterPageTexts | index.ts:102-172 | The texts on the finished page are a prefix of what the letter shows. They are all of it when the cursor ends on or above the bottom margin. |
| Render.Session.constructor | index.ts:102 | The cursor starts one margin below the top edge. Nothing is drawn yet. The usable width is the page width less both margins. |
| Render.Session.DrawLine | index.ts:113-117 | Below the margin or for an empty text, nothing changes. Otherwise the trimmed text is appended at the cursor, and the cursor drops by 1.2 × size. |
| Render.Session.DrawParagraph | index.ts:119-139 | An empty text changes nothing. Otherwise the page is the one that the greedy wrap of the normalised words, drawn line by line, and the paragraph gap describe. |
| Render.Session.DrawWords | index.ts:122-137 | The loop over the words, with its final flush, leaves the page that drawing the greedy wrap of the words line by line describes. |
| Render.Session.Header | index.ts:141-150 | The header code leaves the page that running the header's steps describes. |
| Render.Session.ContactLines | index.ts:144-149 | The phone/e-mail branch leaves the page that running the contact lines describes. |
| Render.Session.Addressee | index.ts:152-162 | The date, addressee and salutation code leaves the page that running those steps describes. |
| Render.Session.Body | index.ts:164-168 | The four paragraphs leave the page that running the body's steps describes. |
| Render.Session.SignOff | index.ts:170-172 | The sign-off code leaves the page that running the sign-off's steps describes. |
| Render.Session.Compose | index.ts:141-172 | The whole block sequence leaves the page that running the letter's steps describes. |
| Render.CreatePdf | index.ts:75-175 | The drawn lines are the letter's lines. They all lie between the bottom and top margins. Each baseline is at least one leading (1.2 × that line's size) below the previous one. Their texts are a prefix of what the letter shows, in order. |
| Handler.Digits | index.ts:55 | `${status}` is a non-empty string of decimal digits with no leading zero. It is "0" exactly for 0. |
| Handler.DigitsValue | index.ts:55 | Those digits denote the status. |
| Handler.CallModel | index.ts:46-63 | A status outside 200-299 fails with "AI API request failed with status N". A successful answer without text fails with "Invalid response structure from AI API." Any other answer is parsed from its text with the opening and closing fence removed. |
| Handler.FencedAnswer | index.ts:58-63 | A successful answer fenced as ```` ```json ```` … ```` ``` ```` is parsed from the text inside the fence. |
| Handler.PlainAnswer | index.ts:58-63 | A successful answer without fences is parsed as it is. |
| Handler.Handle | index.ts:178-216 | The key check comes first, then extraction, then the gate, and only then generation. Each failure gives its own 400 or 500 answer. A document is produced exactly when every step succeeds, and it is the letter for the merged record. Details below. |

`Handler.Handle` states:

- Without a key, the answer is the 400 "Gemini API key was not provided." and no model call is made.
- Otherwise extraction is always the first call.
- A failed extraction gives the 500 "Failed to generate cover letter." with its message, and no second call.
- A merged record lacking a name or e-mail gives the 400 incomplete-contact error, and no second call.
- Generation is called exactly when the key is present, the extraction succeeded and the gate passed. Its input then has a name and an e-mail.
- A failed generation gives the 500 with its message.
- Otherwise the answer is the letter's lines for the merged record and the generated body, all within the margins.

## Left out

- The HTTP layer is not modelled: Hono routing, CORS, reading the JSON payload (`c.req.json`) and the response headers. A malformed payload, which the source turns into the 500 through its `catch`, is not modelled; the request is taken as already parsed.
- The `fetch` to the model service (index.ts:47-52) and `response.json()` are not modelled. The status and the first candidate's text are the input `Reply`. A candidate text that is not a string is not modelled.
- `JSON.parse` (index.ts:63) is the parameter `parseContact`/`parseLetter`. A parsed record whose fields are missing or not strings is whatever that parameter returns.
- The prompt texts (index.ts:66, 70) are not modelled. The model's answers are parameters of the request (and, for generation, of the merged record the prompt quotes).
- The date (`toLocaleDateString`, index.ts:152-153) is the input `today`.
- Font loading, `atob` and `embedFont` (index.ts:76-90) are not modelled, and neither is text width. `widthOfTextAtSize` is the parameter `measure`.
- The page size comes from pdf-lib's default page (index.ts:92-93), which is not part of this model. It is a parameter.
- The border rectangle and the colours (index.ts:98-111) are not modelled: they draw no text and do not move the cursor.
- Serialising the PDF (`pdfDoc.save`, index.ts:174) is not modelled. The model's document is the list of drawn lines, each with its text, baseline and size.
- Floating-point rounding is not modelled. Coordinates are exact reals, so a comparison such as `y < MARGIN` that is decided by rounding in the source may be decided differently here.
- `console.error` logging is not modelled.
- Exceptions thrown inside `createPdf` (a font that fails to load) are not modelled.
- Render.CreatePdf: a drawn text that contains a line break is one `Line` in the model. pdf-lib would lay it out as several lines going down from that baseline, so the spacing stated for baselines says nothing about such a text's own extra lines. Lines that overflow the right margin (a single word wider than the page) are not excluded either.
