/**
 * The `POST /api/generate` handler and the model call it makes twice: reject a
 * request without an API key, extract the contact details from the résumé,
 * merge them with the user's overrides and check them, generate the letter
 * body, and lay out the PDF. The model service is a parameter: what it answers
 * to each of the two prompts, and how the answer's JSON is read.
 */
module Handler {
  import opened Wrappers
  import opened Strings
  import opened Fence
  import opened Contact
  import opened Layout
  import opened Letter
  import opened Render

  const MISSING_KEY: string := "Gemini API key was not provided."
  const GENERATION_FAILED: string := "Failed to generate cover letter."
  const INVALID_RESPONSE: string := "Invalid response structure from AI API."
  const STATUS_FAILED: string := "AI API request failed with status "

  /** The two model calls the handler can make. */
  datatype Call = Extraction | Generation

  /** The request payload: the texts, the key and model name, and the optional overrides. */
  datatype Request = Request(
    resumeText: string, jobDescription: string, companyInfo: string,
    apiKey: string, modelName: string, overrides: Overrides)

  /**
   * What the model service answers: the HTTP status, and the text of the first
   * part of the first candidate (empty when the answer has none).
   */
  datatype Reply = Reply(status: nat, text: string)

  /**
   * The model service and the JSON reader: the answer to the extraction prompt
   * for a request, the answer to the generation prompt for a request and the
   * merged contact details, and `JSON.parse` read as each record.
   */
  datatype Upstream = Upstream(
    extract: Request -> Reply,
    generate: (Request, ContactInfo) -> Reply,
    parseContact: string -> Result<ContactInfo, string>,
    parseLetter: string -> Result<LetterBody, string>)

  /** What the handler answers: the PDF's lines, a 400 with its error, or a 500 with its error and details. */
  datatype Response = Document(lines: seq<Line>) | BadRequest(error: string) | ServerError(error: string, details: string)

  /** The decimal digits of `n`, as `${n}` prints it. */
  function Digits(n: nat): (s: string)
    ensures |s| >= 1 && forall k :: 0 <= k < |s| ==> '0' <= s[k] <= '9'
    ensures |s| == 1 || s[0] != '0'
    ensures n == 0 <==> s == "0"
  {
    var d := [(n % 10) as char + '0'];
    if n < 10 then d else Digits(n / 10) + d
  }

  /** The number a string of decimal digits denotes. */
  function Value(s: string): int
  {
    if s == [] then 0 else 10 * Value(s[..|s| - 1]) + (s[|s| - 1] as int - '0' as int)
  }

  lemma {:induction false} DigitsValue(n: nat)
    ensures Value(Digits(n)) == n
  {
    var s := Digits(n);
    if n >= 10 {
      DigitsValue(n / 10);
      assert s[..|s| - 1] == Digits(n / 10);
    }
  }

  /**
   * `callGemini` after the request: a failed status or an answer without text
   * is an error; otherwise the opening and closing code fence are removed, as
   * `replace(/^```json\s*|```$/g, '')` does, and the rest is parsed.
   */
  function CallModel<T>(reply: Reply, parse: string -> Result<T, string>): (r: Result<T, string>)
    ensures !(200 <= reply.status <= 299) ==> r == Failure(STATUS_FAILED + Digits(reply.status))
    ensures 200 <= reply.status <= 299 && reply.text == "" ==> r == Failure(INVALID_RESPONSE)
    ensures 200 <= reply.status <= 299 && reply.text != "" ==> r == parse(StripFence(reply.text))
  {
    StripFenceIsReplace(reply.text);
    if !(200 <= reply.status <= 299) then Failure(STATUS_FAILED + Digits(reply.status))
    else if reply.text == "" then Failure(INVALID_RESPONSE)
    else parse(ReplaceScan(reply.text, 0))
  }

  /** A successful answer wrapped in a ```json code fence is read as the text inside it. */
  lemma FencedAnswer<T>(status: nat, ws: string, body: string, parse: string -> Result<T, string>)
    requires 200 <= status <= 299
    requires forall k :: 0 <= k < |ws| ==> IsSpace(ws[k])
    requires body == [] || !IsSpace(body[0])
    ensures CallModel(Reply(status, OPEN + ws + body + CLOSE), parse) == parse(body)
  {
    FencedReply(ws, body);
  }

  /** A successful answer with no code fence is read as it is. */
  lemma PlainAnswer<T>(status: nat, text: string, parse: string -> Result<T, string>)
    requires 200 <= status <= 299 && text != ""
    requires !StartsWith(text, OPEN) && !EndsWith(text, CLOSE)
    ensures CallModel(Reply(status, text), parse) == parse(text)
  {
    UnfencedReply(text);
  }

  /** `extractUserInfoFromCV`. */
  function Extracted(req: Request, up: Upstream): Result<ContactInfo, string> {
    CallModel(up.extract(req), up.parseContact)
  }

  /** `generateCoverLetterContent`, given the merged contact details. */
  function Generated(req: Request, up: Upstream, info: ContactInfo): Result<LetterBody, string> {
    CallModel(up.generate(req, info), up.parseLetter)
  }

  /**
   * The handler. `calls` lists the model calls made, in order. The key is
   * checked before anything else; extraction always comes first; generation
   * is reached only by a merged record with a name and an e-mail address; a
   * document is produced exactly when every step succeeds, and it is the
   * letter for the merged record and the generated body.
   */
  method Handle(req: Request, up: Upstream, today: string,
                pageWidth: real, pageHeight: real, measure: string -> real)
    returns (resp: Response, calls: seq<Call>)
    ensures calls <= [Extraction, Generation]
    ensures calls == [] <==> req.apiKey == ""
    ensures req.apiKey == "" ==> resp == BadRequest(MISSING_KEY)
    ensures req.apiKey != "" && Extracted(req, up).Failure? ==>
      calls == [Extraction] && resp == ServerError(GENERATION_FAILED, Extracted(req, up).error)
    ensures req.apiKey != "" && Extracted(req, up).Success? ==>
      var gate := Gate(req.overrides, Extracted(req, up).value);
      (gate.Failure? ==> calls == [Extraction] && resp == BadRequest(INCOMPLETE_CONTACT))
      && (gate.Success? && Generated(req, up, gate.value).Failure? ==>
            resp == ServerError(GENERATION_FAILED, Generated(req, up, gate.value).error))
      && (gate.Success? && Generated(req, up, gate.value).Success? ==>
            resp == Document(LetterLines(gate.value, Generated(req, up, gate.value).value, today, pageWidth, pageHeight, measure)))
    ensures Generation in calls <==> req.apiKey != "" && Extracted(req, up).Success? && Gate(req.overrides, Extracted(req, up).value).Success?
    ensures Generation in calls ==> var info := Merge(req.overrides, Extracted(req, up).value); info.fullName != "" && info.email != ""
    ensures resp.Document? ==> calls == [Extraction, Generation]
    ensures resp.Document? ==> forall i :: 0 <= i < |resp.lines| ==> MARGIN <= resp.lines[i].y <= pageHeight - MARGIN
  {
    calls := [];
    if req.apiKey == "" {
      return BadRequest(MISSING_KEY), calls;
    }
    calls := calls + [Extraction];
    var extracted := CallModel(up.extract(req), up.parseContact);
    if extracted.Failure? {
      return ServerError(GENERATION_FAILED, extracted.error), calls;
    }
    var info := Merge(req.overrides, extracted.value);
    if info.fullName == "" || info.email == "" {
      return BadRequest(INCOMPLETE_CONTACT), calls;
    }
    calls := calls + [Generation];
    var content := CallModel(up.generate(req, info), up.parseLetter);
    if content.Failure? {
      return ServerError(GENERATION_FAILED, content.error), calls;
    }
    var lines := CreatePdf(info, content.value, today, pageWidth, pageHeight, measure);
    resp := Document(lines);
  }
}
