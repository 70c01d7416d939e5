/** The deterministic part of `POST /resume/analyze-match` (routers/resume.py
    lines 28-152): text extraction with its placeholders, the API-key check,
    the shaping of the model's JSON reply key by key, and the fixed fallback
    answer. PDF parsing and the model call are inputs. */
module ResumeAnalysis {
  import opened Common
  import opened Strings
  import opened JsonData

  /** What PyMuPDF yields for the uploaded bytes: the text of each page in
      order, or the message of the exception raised while opening or reading. */
  type Document = Result<seq<string>, string>

  /** The generative model asked about (job description, resume text): the
      decoded JSON of its reply, or the message of the exception raised by the
      call or by `json.loads`. */
  type Engine = (string, string) -> Result<Json, string>

  // ---------------------------------------------------------------- extraction

  /** `filename.lower().endswith('.pdf')`. */
  predicate IsPdfName(filename: string) {
    EndsWith(Lower(filename), ".pdf")
  }

  /** The test looks only at the last four characters, in any letter case. */
  lemma PdfNameIff(filename: string)
    ensures IsPdfName(filename) <==> |filename| >= 4 && Lower(filename[|filename| - 4..]) == ".pdf"
  {
    if |filename| >= 4 {
      assert Lower(filename)[|filename| - 4..] == Lower(filename[|filename| - 4..]);
    }
  }

  /** An upper-case extension, as in "CV.PDF", is accepted. */
  lemma UpperPdfAccepted(stem: string)
    ensures IsPdfName(stem + ".PDF")
  {
    var l := Lower(stem + ".PDF");
    assert l[|l| - 4..] == ".pdf";
  }

  /** A `.docx` upload is not a PDF name, so extraction takes the error path. */
  lemma DocxRefused(stem: string)
    ensures !IsPdfName(stem + ".docx")
  {
    var l := Lower(stem + ".docx");
    assert l[|l| - 1] == 'x';
  }

  function Unreadable(filename: string): string {
    "Could not extract text. Filename: " + filename
  }

  function BlankPdf(filename: string): string {
    "Resume filename: " + filename + " (Empty or scanned PDF)"
  }

  /** The page texts concatenated in page order. */
  function JoinPages(pages: seq<string>): string {
    if pages == [] then "" else JoinPages(pages[..|pages| - 1]) + pages[|pages| - 1]
  }

  /** Joining splits over a split of the pages: page order is kept. */
  lemma {:induction false} JoinPagesAppend(a: seq<string>, b: seq<string>)
    ensures JoinPages(a + b) == JoinPages(a) + JoinPages(b)
    decreases |b|
  {
    if b == [] {
      assert a + b == a;
    } else {
      var b' := b[..|b| - 1];
      assert (a + b)[..|a + b| - 1] == a + b';
      JoinPagesAppend(a, b');
    }
  }

  /** Lines 36-52: the text handed to the model. A failure anywhere in the
      extraction, the 400 for a non-PDF name included, is caught and replaced by
      a placeholder naming the file; so is a whitespace-only result. */
  function ExtractedText(filename: string, doc: Document): (t: string)
    ensures !IsPdfName(filename) || doc.Failure? ==> t == Unreadable(filename)
    ensures Strip(t) != []
  {
    if !IsPdfName(filename) then
      NotBlankAt(Unreadable(filename), 0);
      Unreadable(filename)
    else
      match doc
      case Failure(_) =>
        NotBlankAt(Unreadable(filename), 0);
        Unreadable(filename)
      case Success(pages) =>
        var text := JoinPages(pages);
        if Strip(text) == [] then
          NotBlankAt(BlankPdf(filename), 0);
          BlankPdf(filename)
        else text
  }

  /** A readable PDF yields its joined pages, unless they are whitespace only. */
  lemma ExtractedFromPages(filename: string, pages: seq<string>)
    requires IsPdfName(filename)
    ensures AllSpace(JoinPages(pages)) ==> ExtractedText(filename, Success(pages)) == BlankPdf(filename)
    ensures !AllSpace(JoinPages(pages)) ==> ExtractedText(filename, Success(pages)) == JoinPages(pages)
  {
    StripEmptyIffAllSpace(JoinPages(pages));
  }

  /** Lines 36-52 as the route runs them: the page loop accumulates the text. */
  method ExtractText(filename: string, doc: Document) returns (text: string)
    ensures text == ExtractedText(filename, doc)
  {
    if !IsPdfName(filename) {
      return Unreadable(filename);
    }
    match doc
    case Failure(_) =>
      text := Unreadable(filename);
    case Success(pages) =>
      text := "";
      var i := 0;
      while i < |pages|
        invariant 0 <= i <= |pages|
        invariant text == JoinPages(pages[..i])
      {
        assert pages[..i + 1][..i] == pages[..i];
        text := text + pages[i];
        i := i + 1;
      }
      assert pages[..|pages|] == pages;
      if Strip(text) == [] {
        text := BlankPdf(filename);
      }
  }

  // ---------------------------------------------------------------- API key

  const PlaceholderMarker := "YOUR_GEMINI"
  const KeyMissingMessage := "GEMINI_API_KEY not found or still placeholder in environment."

  /** Line 58: `os.getenv("GEMINI_API_KEY") or os.getenv("GOOGLE_API_KEY")`. */
  function ChosenKey(gemini: Option<string>, google: Option<string>): (r: Option<string>)
    ensures gemini.Some? && gemini.value != [] ==> r == gemini
    ensures gemini.None? || gemini.value == [] ==> r == google
  {
    if gemini.Some? && gemini.value != [] then gemini else google
  }

  /** Lines 60-61: the error raised for a missing, empty or placeholder key. */
  function KeyProblem(key: Option<string>): (r: Option<string>)
    ensures r.Some? <==> key.None? || key.value == [] || Contains(key.value, PlaceholderMarker)
    ensures r.Some? ==> r.value == KeyMissingMessage
  {
    if key.None? || key.value == [] || Contains(key.value, PlaceholderMarker) then Some(KeyMissingMessage)
    else None
  }

  /** A key with the placeholder text anywhere in it is refused. */
  lemma PlaceholderKeyRefused(before: string, after: string)
    ensures KeyProblem(Some(before + PlaceholderMarker + after)) == Some(KeyMissingMessage)
  {
    var k := before + PlaceholderMarker + after;
    assert k[|before|..|before| + |PlaceholderMarker|] == PlaceholderMarker;
    ContainsAt(k, PlaceholderMarker, |before|);
  }

  /** A non-empty key with no occurrence of the placeholder text is accepted. */
  lemma RealKeyAccepted(key: string)
    requires key != []
    requires forall i: nat :: !OccursAt(key, PlaceholderMarker, i)
    ensures KeyProblem(Some(key)).None?
  {
    if Contains(key, PlaceholderMarker) {
      var i := ContainsHasOccurrence(key, PlaceholderMarker);
      assert false;
    }
  }

  /** A placeholder `GEMINI_API_KEY` shadows `GOOGLE_API_KEY`: the placeholder
      is chosen on line 58 and refused on line 60, even when the Google key is valid. */
  lemma PlaceholderShadowsGoogleKey(before: string, after: string, google: Option<string>)
    ensures KeyProblem(ChosenKey(Some(before + PlaceholderMarker + after), google)) == Some(KeyMissingMessage)
  {
    PlaceholderKeyRefused(before, after);
  }

  /** An unset or empty `GEMINI_API_KEY` leaves the decision to `GOOGLE_API_KEY` alone. */
  lemma GoogleKeyDecidesWhenGeminiUnset(gemini: Option<string>, google: Option<string>)
    requires gemini.None? || gemini.value == []
    ensures KeyProblem(ChosenKey(gemini, google)) == KeyProblem(google)
  {
  }

  // ---------------------------------------------------------------- response

  /** schemas/resume.py `AnalysisResponse`, with each field holding the JSON
      value the route put there. */
  datatype AnalysisResponse = AnalysisResponse(
    candidateName: Json,
    score: Json,
    matchRate: Json,
    strengths: Json,
    gaps: Json,
    detailedBreakdown: Json,
    recommendedFields: Json,
    feedback: Json)

  const ResponseKeys := ["candidateName", "score", "matchRate", "strengths", "gaps",
                         "detailedBreakdown", "recommendedFields", "feedback"]

  /** The response member named `key`. */
  function Field(r: AnalysisResponse, key: string): Json {
    match key
    case "candidateName" => r.candidateName
    case "score" => r.score
    case "matchRate" => r.matchRate
    case "strengths" => r.strengths
    case "gaps" => r.gaps
    case "detailedBreakdown" => r.detailedBreakdown
    case "recommendedFields" => r.recommendedFields
    case "feedback" => r.feedback
    case _ => JNull
  }

  /** The response body as the JSON object the client receives. */
  function Encode(r: AnalysisResponse): (d: map<string, Json>)
    ensures d.Keys == set k | k in ResponseKeys
    ensures forall k :: k in d ==> d[k] == Field(r, k)
  {
    map k | k in ResponseKeys :: Field(r, k)
  }

  function BreakdownItem(category: string, score: int, comment: string): Json {
    JObject(map["category" := JString(category), "score" := JInt(score), "comment" := JString(comment)])
  }

  /** Lines 126-135: what each key gets when the reply lacks it. */
  function DefaultFor(key: string): Json {
    match key
    case "candidateName" => JString("Applicant")
    case "score" => JInt(0)
    case "matchRate" => JInt(0)
    case "strengths" => StringList(["No strengths identified"])
    case "gaps" => StringList(["No specific gaps identified"])
    case "detailedBreakdown" => JArray([BreakdownItem("General", 0, "Low match detected.")])
    case "recommendedFields" => StringList(["General Roles"])
    case "feedback" => JString("Analysis complete.")
    case _ => JNull
  }

  /** Lines 125-136: the answer built from a decoded reply, key by key. */
  function Shaped(reply: map<string, Json>): (r: AnalysisResponse)
    ensures forall k :: k in ResponseKeys ==> Field(r, k) == Get(reply, k, DefaultFor(k))
  {
    AnalysisResponse(
      Get(reply, "candidateName", DefaultFor("candidateName")),
      Get(reply, "score", DefaultFor("score")),
      Get(reply, "matchRate", DefaultFor("matchRate")),
      Get(reply, "strengths", DefaultFor("strengths")),
      Get(reply, "gaps", DefaultFor("gaps")),
      Get(reply, "detailedBreakdown", DefaultFor("detailedBreakdown")),
      Get(reply, "recommendedFields", DefaultFor("recommendedFields")),
      Get(reply, "feedback", DefaultFor("feedback")))
  }

  /** A reply that already is a response body comes back unchanged. */
  lemma ShapedEncode(r: AnalysisResponse)
    ensures Shaped(Encode(r)) == r
  {
    var d := Encode(r);
    assert "candidateName" in ResponseKeys && d["candidateName"] == r.candidateName;
    assert "score" in ResponseKeys && d["score"] == r.score;
    assert "matchRate" in ResponseKeys && d["matchRate"] == r.matchRate;
    assert "strengths" in ResponseKeys && d["strengths"] == r.strengths;
    assert "gaps" in ResponseKeys && d["gaps"] == r.gaps;
    assert "detailedBreakdown" in ResponseKeys && d["detailedBreakdown"] == r.detailedBreakdown;
    assert "recommendedFields" in ResponseKeys && d["recommendedFields"] == r.recommendedFields;
    assert "feedback" in ResponseKeys && d["feedback"] == r.feedback;
  }

  /** A reply carrying all eight keys is passed through as it is, keys beyond
      the eight dropped. */
  lemma ShapedCompleteReply(reply: map<string, Json>)
    requires forall k :: k in ResponseKeys ==> k in reply
    ensures Encode(Shaped(reply)) == map k | k in ResponseKeys :: reply[k]
  {
  }

  /** An empty reply yields the documented defaults. */
  lemma ShapedEmptyReply()
    ensures var r := Shaped(map[]);
      && r.candidateName == JString("Applicant") && r.score == JInt(0) && r.matchRate == JInt(0)
      && r.strengths == StringList(["No strengths identified"])
      && r.recommendedFields == StringList(["General Roles"])
      && r.feedback == JString("Analysis complete.")
  {
    assert "candidateName" in ResponseKeys && "score" in ResponseKeys && "matchRate" in ResponseKeys;
    assert "strengths" in ResponseKeys && "recommendedFields" in ResponseKeys && "feedback" in ResponseKeys;
  }

  const FallbackFeedback :=
    "We encountered an error connecting to our AI engine. Please ensure your GEMINI_API_KEY is valid."

  /** Lines 141-152: the answer given whenever analysis fails with `message`. */
  function Fallback(message: string): (r: AnalysisResponse)
    ensures r.candidateName == JString("Applicant") && r.score == JInt(50) && r.matchRate == JInt(45)
    ensures r.gaps == StringList(["AI Analysis failed: " + message])
    ensures r.strengths == StringList(["Document received"]) && r.recommendedFields == StringList(["Pending Analysis"])
  {
    AnalysisResponse(
      JString("Applicant"), JInt(50), JInt(45),
      StringList(["Document received"]),
      StringList(["AI Analysis failed: " + message]),
      JArray([BreakdownItem("Status", 50, "Analysis engine error.")]),
      StringList(["Pending Analysis"]),
      JString(FallbackFeedback))
  }

  /** A `DetailedBreakdownItem`: an object with a string category, an integer
      score and a string comment. */
  predicate IsBreakdownItem(j: Json) {
    && j.JObject?
    && "category" in j.fields && j.fields["category"].JString?
    && "score" in j.fields && j.fields["score"].JInt?
    && "comment" in j.fields && j.fields["comment"].JString?
  }

  /** The type each response field has in schemas/resume.py lines 32-40. */
  predicate FieldTyped(key: string, v: Json) {
    match key
    case "candidateName" => v.JString? || v.JNull?
    case "score" => v.JInt?
    case "matchRate" => v.JInt?
    case "strengths" => IsStringList(v)
    case "gaps" => IsStringList(v)
    case "detailedBreakdown" => v.JArray? && forall i :: 0 <= i < |v.items| ==> IsBreakdownItem(v.items[i])
    case "recommendedFields" => IsStringList(v)
    case "feedback" => v.JString?
    case _ => true
  }

  /** A response whose every field has its declared type. */
  predicate WellTyped(r: AnalysisResponse) {
    forall k :: k in ResponseKeys ==> FieldTyped(k, Field(r, k))
  }

  /** Every default has the declared type. */
  lemma DefaultsTyped()
    ensures forall k :: k in ResponseKeys ==> FieldTyped(k, DefaultFor(k))
  {
  }

  /** The fallback answer is well typed, whatever the failure message. */
  lemma FallbackWellTyped(message: string)
    ensures WellTyped(Fallback(message))
  {
  }

  /** Shaping a reply whose present keys are well typed gives a well-typed answer. */
  lemma ShapedWellTyped(reply: map<string, Json>)
    requires forall k :: k in ResponseKeys && k in reply ==> FieldTyped(k, reply[k])
    ensures WellTyped(Shaped(reply))
  {
    DefaultsTyped();
  }

  // ---------------------------------------------------------------- saving

  /** The message of the AttributeError raised by `.get` on a reply that is not an object. */
  function NoGetMessage(j: Json): string {
    "'" + TypeName(j) + "' object has no attribute 'get'"
  }

  /** Line 118, `float(value)` on integers: numbers and booleans convert,
      `None`, lists, objects and text do not. */
  function ScoreValue(j: Json): (r: Result<int, string>)
    ensures j.JInt? ==> r == Success(j.n)
    ensures j.JNull? || j.JArray? || j.JObject? || j.JString? ==> r.Failure?
  {
    match j
    case JInt(n) => Success(n)
    case JBool(b) => Success(if b then 1 else 0)
    case JString(s) => Failure("could not convert string to float: '" + s + "'")
    case _ => Failure("float() argument must be a string or a real number, not '" + TypeName(j) + "'")
  }

  /** The column values lines 113-120 write for a signed-in caller. */
  datatype Saved = Saved(candidateName: Json, recommendedFields: Json, score: int, parsedData: Json)

  /** What the route answers, and what (if anything) it adds to the resume table. */
  datatype Outcome = Outcome(response: AnalysisResponse, saved: Option<Saved>)

  /** Lines 55-152 once the text is extracted: `key` is the chosen API key,
      `engine` the model, `signedIn` whether a user is attached to the request. */
  function Analyze(text: string, jobDescription: string, key: Option<string>, engine: Engine, signedIn: bool)
    : (o: Outcome)
    ensures KeyProblem(key).Some? ==> o == Outcome(Fallback(KeyMissingMessage), None)
    ensures KeyProblem(key).None? && engine(jobDescription, text).Failure? ==>
              o == Outcome(Fallback(engine(jobDescription, text).error), None)
    ensures KeyProblem(key).None? && engine(jobDescription, text).Success? &&
            !engine(jobDescription, text).value.JObject? ==>
              o == Outcome(Fallback(NoGetMessage(engine(jobDescription, text).value)), None)
    ensures !signedIn ==> o.saved.None?
    ensures o.saved.Some? ==>
              && KeyProblem(key).None?
              && engine(jobDescription, text).Success?
              && engine(jobDescription, text).value.JObject?
              && var reply := engine(jobDescription, text).value;
              && o.response == Shaped(reply.fields)
              && o.saved.value.candidateName == Get(reply.fields, "candidateName", JString("Applicant"))
              && o.saved.value.recommendedFields == Get(reply.fields, "recommendedFields", JArray([]))
              && ScoreValue(Get(reply.fields, "score", JInt(0))) == Success(o.saved.value.score)
              && o.saved.value.parsedData == JObject(map["analysis" := reply])
    ensures signedIn && KeyProblem(key).None? && engine(jobDescription, text).Success? &&
            engine(jobDescription, text).value.JObject? &&
            ScoreValue(Get(engine(jobDescription, text).value.fields, "score", JInt(0))).Success? ==>
              o.saved.Some?
    ensures KeyProblem(key).None? && engine(jobDescription, text).Success? &&
            engine(jobDescription, text).value.JObject? &&
            (!signedIn || ScoreValue(Get(engine(jobDescription, text).value.fields, "score", JInt(0))).Success?) ==>
              o.response == Shaped(engine(jobDescription, text).value.fields)
    ensures signedIn && KeyProblem(key).None? && engine(jobDescription, text).Success? &&
            engine(jobDescription, text).value.JObject? &&
            ScoreValue(Get(engine(jobDescription, text).value.fields, "score", JInt(0))).Failure? ==>
              o == Outcome(Fallback(ScoreValue(Get(engine(jobDescription, text).value.fields, "score", JInt(0))).error), None)
  {
    if KeyProblem(key).Some? then Outcome(Fallback(KeyMissingMessage), None)
    else
      match engine(jobDescription, text)
      case Failure(message) => Outcome(Fallback(message), None)
      case Success(reply) =>
        if !reply.JObject? then Outcome(Fallback(NoGetMessage(reply)), None)
        else if !signedIn then Outcome(Shaped(reply.fields), None)
        else
          match ScoreValue(Get(reply.fields, "score", JInt(0)))
          case Failure(message) => Outcome(Fallback(message), None)
          case Success(score) =>
            var saved := Saved(Get(reply.fields, "candidateName", JString("Applicant")),
                               Get(reply.fields, "recommendedFields", JArray([])),
                               score, JObject(map["analysis" := reply]));
            Outcome(Shaped(reply.fields), Some(saved))
  }

  /** Every failure is answered with the fixed fallback: score 50 and match rate 45. */
  lemma FailureAnswersFallback(text: string, jobDescription: string, key: Option<string>, engine: Engine, signedIn: bool)
    requires KeyProblem(key).Some? || engine(jobDescription, text).Failure?
    ensures var o := Analyze(text, jobDescription, key, engine, signedIn);
      o.response.score == JInt(50) && o.response.matchRate == JInt(45) && o.saved.None?
      && WellTyped(o.response)
  {
    var o := Analyze(text, jobDescription, key, engine, signedIn);
    if KeyProblem(key).Some? {
      FallbackWellTyped(KeyMissingMessage);
    } else {
      FallbackWellTyped(engine(jobDescription, text).error);
    }
  }
}
