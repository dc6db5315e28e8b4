/** The tool registry and the routing of chat messages to it: the request
    predicates, the choice of a section to extract, the PDF test, the
    fallback chain that answers a content request about the newest
    document, the enabled-tool filter and the mapping of a chain answer to
    a tool result. The server methods the chain calls are a `Services`
    value; the stores are `Finder`s. */
module McpToolsRegistry {
  import opened Wrappers
  import opened Text
  import opened Patterns
  import opened Documents
  import opened DocumentStorage
  import opened PdfExtractor

  // ---------------------------------------------------------------- registry

  /** A registered tool's descriptive fields. */
  datatype Tool = Tool(name: string, icon: string, description: string)

  /** The registry, by tool id. */
  const Registry: map<string, Tool> := map[
    "mongodb" := Tool("MongoDB", "database", "Query and store data in MongoDB using natural language"),
    "documents" := Tool("Documents", "file", "Manage and query documents with natural language")
  ]

  /** `isMcpToolEnabled`: the id is one of the configured ones, at some
      position of the list. */
  predicate IsMcpToolEnabled(enabled: seq<string>, toolId: string): (r: bool)
    ensures r <==> exists i :: 0 <= i < |enabled| && enabled[i] == toolId
  {
    toolId in enabled
  }

  /** `getEnabledMcpTools`: the configured ids that name a registered tool,
      each with its tool. */
  method GetEnabledMcpTools(enabled: seq<string>) returns (acc: map<string, Tool>)
    ensures forall id :: id in acc <==> IsMcpToolEnabled(enabled, id) && id in Registry
    ensures forall id :: id in acc ==> acc[id] == Registry[id]
  {
    acc := map[];
    for i := 0 to |enabled|
      invariant forall id :: id in acc <==> id in enabled[..i] && id in Registry
      invariant forall id :: id in acc ==> acc[id] == Registry[id]
    {
      var toolId := enabled[i];
      if toolId in Registry {
        acc := acc[toolId := Registry[toolId]];
      }
    }
    assert enabled[..|enabled|] == enabled;
  }

  // ---------------------------------------------------------------- request predicates

  /** The words of the two request tests. */
  const PdfNouns: seq<string> := ["pdf", "document"]
  const ContentCues: seq<string> := ["content", "extract", "read", "from", "in the", "inside"]
  const SkillWords: seq<string> := ["skills", "abilities", "competencies", "qualifications"]

  /** `isPdfContentRequest`: the lower-cased prompt names a PDF or document
      and one of the content cues. */
  predicate IsPdfContentRequest(prompt: string): (r: bool)
    ensures r <==> MentionsAny(Lower(prompt), PdfNouns) && MentionsAny(Lower(prompt), ContentCues)
  {
    var p := Lower(prompt);
    (Contains(p, "pdf") || Contains(p, "document")) &&
    (Contains(p, "content") || Contains(p, "extract") || Contains(p, "read") ||
     Contains(p, "from") || Contains(p, "in the") || Contains(p, "inside"))
  }

  /** `isSkillsRequest`: the lower-cased prompt names one of the skill
      words. */
  predicate IsSkillsRequest(prompt: string): (r: bool)
    ensures r <==> MentionsAny(Lower(prompt), SkillWords)
  {
    var p := Lower(prompt);
    Contains(p, "skills") || Contains(p, "abilities") || Contains(p, "competencies") || Contains(p, "qualifications")
  }

  /** Both predicates ignore letter case. */
  lemma {:induction false} RequestsIgnoreCase(prompt: string)
    ensures IsPdfContentRequest(Lower(prompt)) == IsPdfContentRequest(prompt)
    ensures IsSkillsRequest(Upper(prompt)) == IsSkillsRequest(prompt)
  {
    LowerIdempotent(prompt);
    assert Lower(Upper(prompt)) == Lower(prompt) by {
      assert forall k | 0 <= k < |prompt| :: LowerChar(UpperChar(prompt[k])) == LowerChar(prompt[k]);
    }
  }

  /** A content request about the newest document. */
  predicate RoutesToPdf(prompt: string) {
    IsPdfContentRequest(prompt) || IsSkillsRequest(prompt)
  }

  /** The routing decision of `analyzeMessageIntent`. */
  datatype Intent = Intent(intent: string, tool: string, message: string)

  /** `analyzeMessageIntent`: no intent for a missing, non-string or empty
      message; a PDF content intent when either predicate holds; none
      otherwise. */
  function AnalyzeMessageIntent(message: Option<string>): (r: Option<Intent>)
    ensures r.Some? <==> message.Some? && message.value != "" && RoutesToPdf(message.value)
    ensures r.Some? ==> r.value == Intent("extractPdfContent", "documents", message.value)
  {
    if message.None? || message.value == "" then None
    else if RoutesToPdf(message.value) then Some(Intent("extractPdfContent", "documents", message.value))
    else None
  }

  // ---------------------------------------------------------------- section choice

  /** The sections a request may ask for. */
  const ValidSections: seq<string> := [
    "skills", "experience", "education", "summary",
    "contact", "projects", "certifications", "languages"
  ]

  /** The word the first section regex that matches captures: the
      `find|get|...` form before the `from|in` form. */
  function SectionCapture(prompt: string): (r: Option<string>)
    ensures KeywordCapture(prompt, FindVerbs).Some? ==> r == KeywordCapture(prompt, FindVerbs)
    ensures KeywordCapture(prompt, FindVerbs).None? ==> r == KeywordCapture(prompt, FromWords)
    ensures r.Some? ==> r.value != [] && forall k :: 0 <= k < |r.value| ==> IsWordChar(r.value[k])
  {
    if KeywordCapture(prompt, FindVerbs).Some? then KeywordCapture(prompt, FindVerbs)
    else KeywordCapture(prompt, FromWords)
  }

  /** The section a request extracts: the lower-cased capture when it is a
      known section, `skills` otherwise. */
  function SelectedSection(prompt: string): (r: string)
    ensures r in ValidSections
    ensures r != ""
    ensures SectionCapture(prompt).None? ==> r == "skills"
    ensures SectionCapture(prompt).Some? && Lower(SectionCapture(prompt).value) in ValidSections ==>
      r == Lower(SectionCapture(prompt).value)
    ensures SectionCapture(prompt).Some? && Lower(SectionCapture(prompt).value) !in ValidSections ==> r == "skills"
  {
    var capture := SectionCapture(prompt);
    if capture.Some? && Lower(capture.value) in ValidSections then Lower(capture.value) else "skills"
  }

  /** The `find` form decides alone once it matches: a `from` phrase later in
      the request cannot override it, even when the `find` word is no known
      section. */
  lemma FindFormDecides(prompt: string)
    requires KeywordCapture(prompt, FindVerbs).Some?
    ensures SelectedSection(prompt) ==
      (if Lower(KeywordCapture(prompt, FindVerbs).value) in ValidSections
       then Lower(KeywordCapture(prompt, FindVerbs).value) else "skills")
  {
  }

  // ---------------------------------------------------------------- PDF test

  /** The PDF test on a stored document: each of a PDF media type, a `.pdf`
      name and string content with the PDF data prefix suffices alone, and
      content that is no string never counts. */
  predicate IsPdf(doc: Doc): (r: bool)
    ensures Contains(doc.mimeType, "pdf") ==> r
    ensures EndsWith(Lower(doc.filename), ".pdf") ==> r
    ensures doc.content.Plain? && StartsWith(doc.content.text, DataPrefix) ==> r
    ensures !Contains(doc.mimeType, "pdf") && !EndsWith(Lower(doc.filename), ".pdf") && !doc.content.Plain? ==> !r
    ensures r ==> Contains(doc.mimeType, "pdf") || EndsWith(Lower(doc.filename), ".pdf") ||
                  (doc.content.Plain? && StartsWith(doc.content.text, DataPrefix))
  {
    Contains(doc.mimeType, "pdf") || EndsWith(Lower(doc.filename), ".pdf") ||
    (doc.content.Plain? && StartsWith(doc.content.text, DataPrefix))
  }

  /** The name test ignores letter case: `REPORT.PDF` passes as `report.pdf`. */
  lemma {:induction false} PdfNameIgnoresCase(doc: Doc)
    ensures IsPdf(doc.(filename := Upper(doc.filename))) == IsPdf(doc)
  {
    assert Lower(Upper(doc.filename)) == Lower(doc.filename) by {
      assert forall k | 0 <= k < |doc.filename| :: LowerChar(UpperChar(doc.filename[k])) == LowerChar(doc.filename[k]);
    }
  }

  /** A document whose string content carries the PDF data prefix passes the
      test whatever its name and type, and it is exactly the content the
      extractor strips a prefix from. */
  lemma DataUrlIsPdf(doc: Doc)
    requires doc.content.Plain? && StripDataPrefix(doc.content.text) != doc.content.text
    ensures IsPdf(doc)
  {
  }

  // ---------------------------------------------------------------- recent documents

  /** `getMostRecentDocuments`: the newest `limit` documents from the
      storage layer; when it finds none, the same lookup on the raw
      collection; any failure gives none. */
  function GetMostRecentDocuments(limit: nat, find: Finder, rawFind: Finder): (r: seq<Doc>)
    ensures var stored := FindDocuments(MatchAll, FindRequest("", Some(NewestFirst), limit), find);
      (stored.Success? && stored.value != [] ==> r == stored.value) &&
      (stored.Failure? ==> r == []) &&
      (stored.Success? && stored.value == [] ==>
        r == (if rawFind(MatchAll, FetchOptions("documents", NewestFirst, limit)).Success?
              then rawFind(MatchAll, FetchOptions("documents", NewestFirst, limit)).value else []))
  {
    match FindDocuments(MatchAll, FindRequest("", Some(NewestFirst), limit), find)
    case Failure(_) => []
    case Success(docs) =>
      if docs != [] then docs
      else match rawFind(MatchAll, FetchOptions("documents", NewestFirst, limit))
        case Success(raw) => raw
        case Failure(_) => []
  }

  // ---------------------------------------------------------------- the fallback chain

  /** The three server methods the chain calls, each answering or throwing. */
  datatype Services = Services(
    extractSection: (Content, string) -> Result<SectionReply, Failure>,
    identifySections: Content -> Result<SurveyReply, Failure>,
    extract: Content -> Result<TextReply, Failure>)

  /** A returned document with the fields the chain adds to it. */
  datatype Found = Found(doc: Doc, extractedContent: Option<string>, extractedSection: Option<string>)

  /** What `handlePdfContentRequest` answers, one alternative per returned
      object shape. */
  datatype ContentReply =
    | NoDocuments
    | NotPdf
    | SectionFound(doc: Doc, sectionName: string, content: string)
    | SectionList(doc: Doc, sections: seq<string>, previews: map<string, string>)
    | WholeText(doc: Doc, text: string)
    | NotExtracted(doc: Doc)
  {
    /** The `success` field. */
    predicate Succeeded() {
      SectionFound? || SectionList? || WholeText?
    }

    /** The `documents` field (absent, here empty, for the first two). */
    function Documents(): seq<Found> {
      match this
      case NoDocuments => []
      case NotPdf => []
      case SectionFound(d, name, content) => [Found(d, Some(content), Some(name))]
      case SectionList(d, _, _) => [Found(d, None, None)]
      case WholeText(d, text) => [Found(d, Some(text), None)]
      case NotExtracted(d) => [Found(d, None, None)]
    }

    /** The `message` field. */
    function Message(): Option<string> {
      match this
      case NoDocuments => Some("No documents found")
      case NotPdf => Some("The most recent document is not a PDF")
      case SectionFound(_, _, _) => None
      case SectionList(_, sections, _) => Some("I found these sections in the document: " + JoinWith(sections, ", "))
      case WholeText(_, _) => Some("I extracted the full text from the document")
      case NotExtracted(_) => Some("I found the document but could not extract the requested content")
    }
  }

  /** The section step answers: it succeeded with non-empty content. */
  predicate SectionAnswered(res: Result<SectionReply, Failure>) {
    res.Success? && res.value.success && res.value.content != ""
  }

  /** The survey step answers: it succeeded with at least one section. */
  predicate SurveyAnswered(res: Result<SurveyReply, Failure>) {
    res.Success? && res.value.success && |res.value.sections| > 0
  }

  /** The full-text step answers. */
  predicate TextAnswered(res: Result<TextReply, Failure>) {
    res.Success? && res.value.success
  }

  /** The chain on the newest documents: none found, not a PDF, then the
      section, the section list and the full text, each tried only when the
      one before did not answer; a thrown error ends the chain with the
      generic failure. */
  function Answer(recent: seq<Doc>, sectionName: string, services: Services): (r: ContentReply)
    ensures recent == [] <==> r == NoDocuments
    ensures r == NotPdf <==> recent != [] && !IsPdf(recent[0])
    ensures r.SectionFound? || r.SectionList? || r.WholeText? || r.NotExtracted? ==>
      recent != [] && IsPdf(recent[0]) && r.doc == recent[0]
    ensures recent != [] && IsPdf(recent[0]) ==>
      var content := recent[0].content;
      var s1 := services.extractSection(content, sectionName);
      var s2 := services.identifySections(content);
      var s3 := services.extract(content);
      (r.SectionFound? <==> SectionAnswered(s1)) &&
      (r.SectionFound? ==> r.sectionName == sectionName && r.content == s1.value.content) &&
      (r.SectionList? <==> s1.Success? && !SectionAnswered(s1) && SurveyAnswered(s2)) &&
      (r.SectionList? ==> r.sections == s2.value.sections && r.previews == s2.value.previews) &&
      (r.WholeText? <==> s1.Success? && !SectionAnswered(s1) && s2.Success? && !SurveyAnswered(s2) && TextAnswered(s3)) &&
      (r.WholeText? ==> r.text == s3.value.text)
  {
    if recent == [] then NoDocuments
    else
      var doc := recent[0];
      if !IsPdf(doc) then NotPdf
      else match services.extractSection(doc.content, sectionName)
        case Failure(_) => NotExtracted(doc)
        case Success(section) =>
          if section.success && section.content != "" then SectionFound(doc, sectionName, section.content)
          else match services.identifySections(doc.content)
            case Failure(_) => NotExtracted(doc)
            case Success(survey) =>
              if survey.success && |survey.sections| > 0 then SectionList(doc, survey.sections, survey.previews)
              else match services.extract(doc.content)
                case Failure(_) => NotExtracted(doc)
                case Success(full) =>
                  if full.success then WholeText(doc, full.text) else NotExtracted(doc)
  }

  /** A successful answer always carries exactly one document. */
  lemma SucceededCarriesOneDocument(recent: seq<Doc>, sectionName: string, services: Services)
    ensures var r := Answer(recent, sectionName, services);
      r.Succeeded() ==> |r.Documents()| == 1 && r.Documents()[0].doc == recent[0]
  {
  }

  /** `handlePdfContentRequest`: the newest document, the section the
      request names, then the chain. */
  method HandlePdfContentRequest(prompt: string, find: Finder, rawFind: Finder, services: Services)
    returns (r: ContentReply)
    ensures r == Answer(GetMostRecentDocuments(1, find, rawFind), SelectedSection(prompt), services)
  {
    var recentDocs := GetMostRecentDocuments(1, find, rawFind);
    if |recentDocs| == 0 {
      return NoDocuments;
    }
    var doc := recentDocs[0];
    if !IsPdf(doc) {
      return NotPdf;
    }
    var sectionName := "skills";
    var firstMatch := SectionCapture(prompt);
    if firstMatch.Some? {
      var possibleSection := Lower(firstMatch.value);
      if possibleSection in ValidSections {
        sectionName := possibleSection;
      }
    }
    assert sectionName == SelectedSection(prompt);
    var pdfContent := doc.content;
    var result := services.extractSection(pdfContent, sectionName);
    if result.Failure? {
      return NotExtracted(doc);
    }
    if result.value.success && result.value.content != "" {
      return SectionFound(doc, sectionName, result.value.content);
    }
    var sectionsResult := services.identifySections(pdfContent);
    if sectionsResult.Failure? {
      return NotExtracted(doc);
    }
    if sectionsResult.value.success && |sectionsResult.value.sections| > 0 {
      return SectionList(doc, sectionsResult.value.sections, sectionsResult.value.previews);
    }
    var extractResult := services.extract(pdfContent);
    if extractResult.Success? && extractResult.value.success {
      return WholeText(doc, extractResult.value.text);
    }
    r := NotExtracted(doc);
  }

  // ---------------------------------------------------------------- the server's own services

  /** The chain wired to this server's `pdf.extractSection` and `pdf.extract`;
      `pdf.identifySections` is passed in. */
  function ServerServices(decode: Decoder, oracle: RegexOracle,
                          identify: Content -> Result<SurveyReply, Failure>): Services
  {
    Services((c, name) => PdfExtractSection(c, name, decode, oracle), identify, c => PdfExtract(c, decode))
  }

  /** With the server's own `pdf.extractSection`, the section list and the
      full text are never the answer: for any known section name that
      method either throws or returns non-empty content (its not-found
      message), so the chain stops at the first step. */
  lemma ServerChainStopsAtSection(recent: seq<Doc>, sectionName: string, decode: Decoder, oracle: RegexOracle,
                                  identify: Content -> Result<SurveyReply, Failure>)
    requires sectionName in ValidSections
    ensures var r := Answer(recent, sectionName, ServerServices(decode, oracle, identify));
      !r.SectionList? && !r.WholeText?
  {
    if recent != [] && IsPdf(recent[0]) {
      var s1 := PdfExtractSection(recent[0].content, sectionName, decode, oracle);
      assert s1.Success? ==> SectionAnswered(s1);
    }
  }

  /** `pdf.extractSection` as its caller evidently expects it: a section no
      strategy finds comes back as empty content, not as a message. */
  function PdfExtractSectionReported(data: Content, sectionName: string, decode: Decoder, oracle: RegexOracle)
    : (r: Result<SectionReply, Failure>)
    ensures r.Success? <==> (data.Truthy() && sectionName != "" && ExtractText(data, decode).Success? &&
                             SectionError(oracle, ExtractText(data, decode).value, sectionName).None?)
    ensures r.Success? ==>
      r.value.content == StagesContent(oracle, ExtractText(data, decode).value, sectionName) &&
      r.value.section == sectionName
    ensures r.Success? && r.value.content != "" ==>
      PdfExtractSection(data, sectionName, decode, oracle) == r
  {
    if !data.Truthy() || sectionName == "" then
      Failure(MeteorError("invalid-parameters", "PDF data and section name are required"))
    else match ExtractText(data, decode)
      case Success(text) =>
        (match SectionError(oracle, text, sectionName)
         case Some(m) => Failure(MeteorError("section-extraction-error", Message(MeteorError("section-extraction-error", m))))
         case None => Success(SectionReply(true, sectionName, StagesContent(oracle, text, sectionName))))
      case Failure(e) => Failure(MeteorError("section-extraction-error", Message(MeteorError("section-extraction-error", Message(e)))))
  }

  /** The chain wired to the corrected section method. */
  function ReportingServices(decode: Decoder, oracle: RegexOracle,
                             identify: Content -> Result<SurveyReply, Failure>): Services
  {
    Services((c, name) => PdfExtractSectionReported(c, name, decode, oracle), identify, c => PdfExtract(c, decode))
  }

  /** With the corrected section method, a readable PDF in which no strategy
      finds the section falls through to the section list whenever the
      survey finds sections. */
  lemma ReportingChainReachesSurvey(recent: seq<Doc>, sectionName: string, decode: Decoder, oracle: RegexOracle,
                                    identify: Content -> Result<SurveyReply, Failure>)
    requires recent != [] && IsPdf(recent[0]) && recent[0].content.Truthy() && sectionName != ""
    requires ExtractText(recent[0].content, decode).Success?
    requires SectionError(oracle, ExtractText(recent[0].content, decode).value, sectionName).None?
    requires StagesContent(oracle, ExtractText(recent[0].content, decode).value, sectionName) == ""
    requires SurveyAnswered(identify(recent[0].content))
    ensures Answer(recent, sectionName, ReportingServices(decode, oracle, identify)) ==
      SectionList(recent[0], identify(recent[0].content).value.sections, identify(recent[0].content).value.previews)
  {
    var s1 := PdfExtractSectionReported(recent[0].content, sectionName, decode, oracle);
    assert s1.Success? && s1.value.content == "";
  }

  // ---------------------------------------------------------------- tool results

  /** One row of a tool result. */
  datatype ResultRow = ResultRow(
    id: Option<string>,
    documentType: string,
    filename: string,
    extractedSection: Option<string>,
    extractedContent: Option<string>)

  /** What `processMcpMessage` answers for a content request. */
  datatype ToolResult = ToolResult(
    tool: string,
    intent: string,
    query: string,
    results: seq<ResultRow>,
    sections: seq<string>,
    sectionName: Option<string>,
    sectionContent: Option<string>,
    fullText: Option<string>,
    message: Option<string>,
    rawResults: ContentReply)

  /** A string field read with `|| null`. */
  function NonEmpty(s: string): (r: Option<string>)
    ensures r.Some? <==> s != ""
    ensures r.Some? ==> r.value == s
  {
    if s == "" then None else Some(s)
  }

  /** The content a row shows: the section content, else the full text,
      else the previews as JSON. */
  function RowContent(reply: ContentReply, toJson: map<string, string> -> string): (r: Option<string>)
    ensures reply.SectionFound? ==> r == NonEmpty(reply.content)
    ensures reply.WholeText? ==> r == NonEmpty(reply.text)
    ensures reply.SectionList? ==> r == Some(toJson(reply.previews))
    ensures !(reply.SectionFound? || reply.WholeText? || reply.SectionList?) ==> r.None?
  {
    match reply
    case SectionFound(_, _, content) => NonEmpty(content)
    case WholeText(_, text) => NonEmpty(text)
    case SectionList(_, _, previews) => Some(toJson(previews))
    case _ => None
  }

  /** A result row for one returned document. */
  function Row(f: Found, reply: ContentReply, toJson: map<string, string> -> string): (r: ResultRow)
    ensures r.documentType != "" && r.filename != ""
    ensures f.doc.documentType != "" ==> r.documentType == f.doc.documentType
    ensures f.doc.filename != "" ==> r.filename == f.doc.filename
    ensures r.id == f.doc.id
    ensures r.extractedSection.Some? <==> reply.SectionFound? && reply.sectionName != ""
    ensures r.extractedSection.Some? ==> r.extractedSection.value == reply.sectionName
    ensures r.extractedContent == RowContent(reply, toJson)
  {
    ResultRow(f.doc.id,
              if f.doc.documentType == "" then "unknown" else f.doc.documentType,
              if f.doc.filename == "" then "unnamed" else f.doc.filename,
              if reply.SectionFound? then NonEmpty(reply.sectionName) else None,
              RowContent(reply, toJson))
  }

  /** `processMcpMessage`: a content request whose chain succeeds becomes a
      `documents` tool result; anything else gets no result. */
  method ProcessMcpMessage(message: string, find: Finder, rawFind: Finder, services: Services,
                           toJson: map<string, string> -> string)
    returns (r: Option<ToolResult>)
    ensures var reply := Answer(GetMostRecentDocuments(1, find, rawFind), SelectedSection(message), services);
      (r.Some? <==> RoutesToPdf(message) && reply.Succeeded()) &&
      (r.Some? ==>
        r.value.tool == "documents" && r.value.intent == "extractPdfContent" && r.value.query == message &&
        r.value.rawResults == reply &&
        |r.value.results| == 1 && r.value.results[0] == Row(reply.Documents()[0], reply, toJson) &&
        r.value.sectionContent == (if reply.SectionFound? then NonEmpty(reply.content) else None) &&
        r.value.fullText == (if reply.WholeText? then NonEmpty(reply.text) else None) &&
        r.value.sections == (if reply.SectionList? then reply.sections else []) &&
        r.value.message == reply.Message())
  {
    if !RoutesToPdf(message) {
      return None;
    }
    var result := HandlePdfContentRequest(message, find, rawFind, services);
    if !result.Succeeded() {
      return None;
    }
    var docs := result.Documents();
    var results := seq(|docs|, k requires 0 <= k < |docs| => Row(docs[k], result, toJson));
    r := Some(ToolResult(
      "documents", "extractPdfContent", message, results,
      if result.SectionList? then result.sections else [],
      if result.SectionFound? then NonEmpty(result.sectionName) else None,
      if result.SectionFound? then NonEmpty(result.content) else None,
      if result.WholeText? then NonEmpty(result.text) else None,
      result.Message(),
      result));
  }

  // ---------------------------------------------------------------- the documents tool

  /** What the `documents` tool's `query` answers. */
  datatype QueryAnswer = ContentAnswer(reply: ContentReply) | StorageAnswer(storage: QueryReply)

  /** The `documents` tool's `query`: content requests go through the chain,
      everything else to the natural-language storage query. */
  method DocumentsQuery(prompt: string, find: Finder, rawFind: Finder, services: Services)
    returns (r: QueryAnswer)
    ensures r.ContentAnswer? <==> RoutesToPdf(prompt)
    ensures r.ContentAnswer? ==> r.reply == Answer(GetMostRecentDocuments(1, find, rawFind), SelectedSection(prompt), services)
    ensures r.StorageAnswer? ==> AnswersQuery(prompt, find, r.storage)
  {
    if RoutesToPdf(prompt) {
      var reply := HandlePdfContentRequest(prompt, find, rawFind, services);
      return ContentAnswer(reply);
    }
    var storage := QueryByNaturalLanguage(prompt, find);
    r := StorageAnswer(storage);
  }
}
