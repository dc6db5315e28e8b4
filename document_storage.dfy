/** The storage side of the document layer: classifying a document by its
    name and text, cleaning it for the store, storing it with merged
    metadata, finding documents with default options, and turning a
    natural-language question into a store filter. The store itself is a
    pair of functions (`Finder`, `Inserter`). */
module DocumentStorage {
  import opened Wrappers
  import opened Text
  import opened Patterns
  import opened Documents

  // ---------------------------------------------------------------- type detection

  /** One of `words` occurs in `hay`. */
  predicate MentionsAny(hay: string, words: seq<string>) {
    exists w | w in words :: Contains(hay, w)
  }

  /** The classification rules in priority order: a kind, the words that give
      it away in the lower-cased file name, and those in the lower-cased
      text. */
  const TypeRules: seq<(string, seq<string>, seq<string>)> := [
    ("resume", ["resume", "cv", "curriculum"], ["resume", "experience", "education", "skills"]),
    ("patient", ["patient", "medical", "health"], ["patient", "diagnosis", "medical record"]),
    ("financial", ["invoice", "bill", "receipt"], ["invoice", "payment", "amount due"]),
    ("research", ["research", "study", "paper"], ["research", "conclusion", "methodology"])
  ]

  /** Rule `k` fires on this file name and text. */
  predicate RuleFires(filename: string, text: string, k: nat)
    requires k < |TypeRules|
  {
    MentionsAny(filename, TypeRules[k].1) || MentionsAny(text, TypeRules[k].2)
  }

  /** The first rule from `k` on that fires, or `"document"`. */
  function FirstRule(filename: string, text: string, k: nat): (r: string)
    requires k <= |TypeRules|
    ensures r == "document" <==> forall j :: k <= j < |TypeRules| ==> !RuleFires(filename, text, j)
    ensures forall j :: k <= j < |TypeRules| ==>
      (r == TypeRules[j].0 <==> RuleFires(filename, text, j) && forall i :: k <= i < j ==> !RuleFires(filename, text, i))
    decreases |TypeRules| - k
  {
    if k == |TypeRules| then "document"
    else if RuleFires(filename, text, k) then TypeRules[k].0
    else FirstRule(filename, text, k + 1)
  }

  /** The text the rules look at: string content lower-cased, anything else
      counts as empty. */
  function ContentText(c: Content): string {
    if c.Plain? then Lower(c.text) else ""
  }

  /** `detectDocumentType`: an existing type is kept; otherwise the first rule
      that fires (resume, then patient, financial, research) names it, and
      `"document"` when none does. */
  function DetectDocumentType(d: Doc): (r: string)
    ensures d.documentType != "" ==> r == d.documentType
    ensures r != ""
    ensures d.documentType == "" ==> r == FirstRule(Lower(d.filename), ContentText(d.content), 0)
  {
    if d.documentType != "" then d.documentType
    else FirstRule(Lower(d.filename), ContentText(d.content), 0)
  }

  /** Classifying an already classified document changes nothing. */
  lemma DetectIdempotent(d: Doc)
    ensures DetectDocumentType(d.(documentType := DetectDocumentType(d))) == DetectDocumentType(d)
  {
  }

  /** Only string content is read: any other content classifies as no
      content at all. */
  lemma DetectIgnoresNonString(d: Doc, json: Option<string>)
    ensures DetectDocumentType(d.(content := Structured(json))) == DetectDocumentType(d.(content := NoContent))
  {
  }

  /** A resume signal wins over every later rule. */
  lemma {:induction false} ResumeHasPriority(d: Doc)
    requires d.documentType == ""
    requires d.content.Plain? && MentionsAny(Lower(d.content.text), ["skills"])
    ensures DetectDocumentType(d) == "resume"
  {
    assert "skills" in TypeRules[0].2;
    assert RuleFires(Lower(d.filename), ContentText(d.content), 0);
  }

  // ---------------------------------------------------------------- cleaning

  const MaxContentLength: nat := 10000000

  /** The content as stored: long strings cut to the limit, other truthy
      values replaced by their JSON text (empty when that throws). */
  function StoredContent(c: Content): (r: Content)
    ensures c.Plain? && |c.text| > MaxContentLength ==> r == Plain(c.text[..MaxContentLength])
    ensures c.Plain? && |c.text| <= MaxContentLength ==> r == c
    ensures c.Structured? ==> r == Plain(c.json.GetOr(""))
    ensures c.NoContent? ==> r == c
  {
    match c
    case Plain(t) => if |t| > MaxContentLength then Plain(t[..MaxContentLength]) else c
    case Structured(json) => Plain(json.GetOr(""))
    case NoContent => c
  }

  /** `simplifyForStorage`: a copy without `_id`, with its content made
      storable; every other field is kept (date fields are already dates
      here). */
  function SimplifyForStorage(d: Doc): (r: Doc)
    ensures r.id.None?
    ensures r.content == StoredContent(d.content)
    ensures r.(id := d.id, content := d.content) == d
  {
    d.(id := None, content := StoredContent(d.content))
  }

  /** Stored string content never exceeds the limit and is a prefix of the
      original. */
  lemma StoredContentBounded(c: Content)
    requires c.Plain?
    ensures StoredContent(c).Plain?
    ensures |StoredContent(c).text| <= MaxContentLength
    ensures StoredContent(c).text == c.text[..|StoredContent(c).text|]
  {
  }

  /** Cleaning a document whose content is already a string (or missing)
      twice is cleaning it once. */
  lemma SimplifyIdempotent(d: Doc)
    requires !d.content.Structured?
    ensures SimplifyForStorage(SimplifyForStorage(d)) == SimplifyForStorage(d)
  {
  }

  // ---------------------------------------------------------------- storing

  /** `storeDocument`'s options. */
  datatype StoreOptions = StoreOptions(collection: string, metadata: Metadata)

  /** What `storeDocument` answers. */
  datatype StoreReply = StoreReply(success: bool, documentId: string, document: Doc, usedFallback: bool)

  /** The keys `storeDocument` sets itself. */
  const StampKeys: set<string> := {"storedAt", "contentType", "size"}

  /** The merged metadata: the existing entries, then the store's own stamp
      (time, MIME type or `text/plain`, size or 0), then the caller's
      entries, each layer overriding the one before. */
  function MergedMetadata(existing: Metadata, mimeType: string, filesize: nat, now: int, overrides: Metadata): (r: Metadata)
    ensures r.Keys == existing.Keys + StampKeys + overrides.Keys
    ensures forall k :: k in overrides ==> r[k] == overrides[k]
    ensures "storedAt" !in overrides ==> r["storedAt"] == DateValue(now)
    ensures "contentType" !in overrides ==> r["contentType"] == StrValue(if mimeType == "" then "text/plain" else mimeType)
    ensures "size" !in overrides ==> r["size"] == NumValue(filesize)
    ensures forall k :: k in existing && k !in StampKeys && k !in overrides ==> r[k] == existing[k]
  {
    existing + map["storedAt" := DateValue(now),
                   "contentType" := StrValue(if mimeType == "" then "text/plain" else mimeType),
                   "size" := NumValue(filesize)] + overrides
  }

  /** The name given to a document stored without one. */
  function UnnamedFilename(now: nat): (r: string)
    ensures StartsWith(r, "unnamed_document_")
  {
    "unnamed_document_" + NatToString(now)
  }

  /** The fallback record: name, content as a string (its JSON text when it
      is not one; JSON failing makes the fallback fail too), type, time and
      metadata. */
  function MinimalDocument(d: Doc, now: int): (r: Option<Doc>)
    ensures r.Some? <==> !(d.content.Structured? && d.content.json.None?)
    ensures r.Some? ==> r.value.filename == d.filename && r.value.metadata == d.metadata &&
                        r.value.documentType == (if d.documentType == "" then "unknown" else d.documentType) &&
                        r.value.uploadDate == Some(now) && r.value.id.None?
  {
    var content := match d.content
      case Structured(json) => if json.Some? then Some(Plain(json.value)) else None
      case _ => Some(d.content);
    if content.None? then None
    else Some(Doc(None, d.filename, "", "", 0, content.value,
                  if d.documentType == "" then "unknown" else d.documentType,
                  d.metadata, None, None, Some(now), "", []))
  }

  /** The collection a store goes to. */
  function CollectionFor(options: StoreOptions): (r: string)
    ensures r != ""
    ensures options.collection != "" ==> r == options.collection
  {
    if options.collection == "" then "documents" else options.collection
  }

  /** The document as `storeDocument` completes it before storing: a name
      when it has none, the merged metadata, and a type when it has none
      (detected on the named document). */
  function Prepared(d: Doc, options: StoreOptions, now: nat): (r: Doc)
    ensures r.filename == if d.filename == "" then UnnamedFilename(now) else d.filename
    ensures r.metadata == MergedMetadata(d.metadata, d.mimeType, d.filesize, now, options.metadata)
    ensures r.documentType == DetectDocumentType(d.(filename := r.filename, metadata := r.metadata))
    ensures r.documentType != ""
    ensures r.(filename := d.filename, metadata := d.metadata, documentType := d.documentType) == d
  {
    var named := if d.filename == "" then d.(filename := UnnamedFilename(now)) else d;
    var stamped := named.(metadata := MergedMetadata(d.metadata, d.mimeType, d.filesize, now, options.metadata));
    stamped.(documentType := DetectDocumentType(stamped))
  }

  /** What storing a prepared document answers: the cleaned copy when the
      store takes it, otherwise the minimal record; a failing fallback is a
      storage error. */
  function StoreOutcome(d: Doc, collection: string, now: int, insert: Inserter): (r: Result<StoreReply, Failure>)
    ensures insert(SimplifyForStorage(d), collection).Success? ==>
      r == Success(StoreReply(true, insert(SimplifyForStorage(d), collection).value, SimplifyForStorage(d), false))
    ensures r.Success? && r.value.usedFallback ==>
      insert(SimplifyForStorage(d), collection).Failure? && MinimalDocument(d, now) == Some(r.value.document) &&
      insert(r.value.document, collection) == Success(r.value.documentId)
    ensures r.Success? ==> r.value.success
    ensures r.Failure? <==> (insert(SimplifyForStorage(d), collection).Failure? &&
      (MinimalDocument(d, now).None? || insert(MinimalDocument(d, now).value, collection).Failure?))
    ensures r.Failure? ==> r.error.code == "document-storage-error"
  {
    var clean := SimplifyForStorage(d);
    match insert(clean, collection)
    case Success(id) => Success(StoreReply(true, id, clean, false))
    case Failure(_) =>
      match MinimalDocument(d, now)
      case None => Failure(MeteorError("document-storage-error", "content could not be converted to JSON"))
      case Some(minimal) =>
        match insert(minimal, collection)
        case Success(id) => Success(StoreReply(true, id, minimal, true))
        case Failure(msg) => Failure(MeteorError("document-storage-error", msg))
  }

  /** `storeDocument`: fills in the document's name, metadata and type in
      place, then stores it. */
  method StoreDocument(doc: Document, options: StoreOptions, now: nat, insert: Inserter)
    returns (r: Result<StoreReply, Failure>)
    modifies doc
    ensures doc.Snapshot() == Prepared(old(doc.Snapshot()), options, now)
    ensures r == StoreOutcome(doc.Snapshot(), CollectionFor(options), now, insert)
  {
    ghost var d := doc.Snapshot();
    if doc.filename == "" {
      doc.filename := UnnamedFilename(now);
    }
    ghost var named := doc.Snapshot();
    assert named == if d.filename == "" then d.(filename := UnnamedFilename(now)) else d;
    doc.metadata := MergedMetadata(doc.metadata, doc.mimeType, doc.filesize, now, options.metadata);
    ghost var stamped := doc.Snapshot();
    assert stamped == named.(metadata := MergedMetadata(d.metadata, d.mimeType, d.filesize, now, options.metadata));
    doc.documentType := DetectDocumentType(doc.Snapshot());
    assert doc.Snapshot() == stamped.(documentType := DetectDocumentType(stamped));
    r := StoreOutcome(doc.Snapshot(), CollectionFor(options), now, insert);
  }

  // ---------------------------------------------------------------- finding

  /** `findDocuments`' options: collection `documents`, newest first and no
      limit unless the caller says otherwise. */
  function FetchOptionsFor(req: FindRequest): (r: FetchOptions)
    ensures r.collection == if req.collection == "" then "documents" else req.collection
    ensures r.sort == if req.sort.Some? then req.sort.value else NewestFirst
    ensures r.limit == req.limit
  {
    FetchOptions(if req.collection == "" then "documents" else req.collection, req.sort.GetOr(NewestFirst), req.limit)
  }

  /** `findDocuments`: the store's answer, a store failure reported as a
      query error. (Cleaning a filter changes nothing: filters hold neither
      `_id` nor content.) */
  function FindDocuments(query: Filter, req: FindRequest, find: Finder): (r: Result<seq<Doc>, Failure>)
    ensures find(query, FetchOptionsFor(req)).Success? ==> r == Success(find(query, FetchOptionsFor(req)).value)
    ensures find(query, FetchOptionsFor(req)).Failure? ==>
      r == Failure(MeteorError("document-query-error", find(query, FetchOptionsFor(req)).error))
  {
    match find(query, FetchOptionsFor(req))
    case Success(docs) => Success(docs)
    case Failure(msg) => Failure(MeteorError("document-query-error", msg))
  }

  // ---------------------------------------------------------------- natural language

  /** The document kind a question asks about, first matching group wins:
      patient or medical, then invoice, bill or financial, then research,
      paper or study, then resume, cv or job. */
  function AskedType(lower: string): (r: Option<string>)
    ensures r == Some("patient") <==> Contains(lower, "patient") || Contains(lower, "medical")
    ensures r == Some("financial") <==>
      !(Contains(lower, "patient") || Contains(lower, "medical")) &&
      (Contains(lower, "invoice") || Contains(lower, "bill") || Contains(lower, "financial"))
    ensures r == Some("research") <==>
      !(Contains(lower, "patient") || Contains(lower, "medical")) &&
      !(Contains(lower, "invoice") || Contains(lower, "bill") || Contains(lower, "financial")) &&
      (Contains(lower, "research") || Contains(lower, "paper") || Contains(lower, "study"))
    ensures r == Some("resume") <==>
      !(Contains(lower, "patient") || Contains(lower, "medical")) &&
      !(Contains(lower, "invoice") || Contains(lower, "bill") || Contains(lower, "financial")) &&
      !(Contains(lower, "research") || Contains(lower, "paper") || Contains(lower, "study")) &&
      (Contains(lower, "resume") || Contains(lower, "cv") || Contains(lower, "job"))
    ensures r.None? <==>
      !(Contains(lower, "patient") || Contains(lower, "medical")) &&
      !(Contains(lower, "invoice") || Contains(lower, "bill") || Contains(lower, "financial")) &&
      !(Contains(lower, "research") || Contains(lower, "paper") || Contains(lower, "study")) &&
      !(Contains(lower, "resume") || Contains(lower, "cv") || Contains(lower, "job"))
  {
    if Contains(lower, "patient") || Contains(lower, "medical") then Some("patient")
    else if Contains(lower, "invoice") || Contains(lower, "bill") || Contains(lower, "financial") then Some("financial")
    else if Contains(lower, "research") || Contains(lower, "paper") || Contains(lower, "study") then Some("research")
    else if Contains(lower, "resume") || Contains(lower, "cv") || Contains(lower, "job") then Some("resume")
    else None
  }

  /** The words that override the file-name condition of a resume question,
      in the order they are tried. */
  const ResumeTerms: seq<string> := ["poonam", "resume", "cv"]

  /** The file-name condition after trying `terms` in order: each one the
      question holds replaces the pattern. */
  function NameOverride(lower: string, current: Option<RegexCond>, terms: seq<string>): (r: Option<RegexCond>)
    decreases |terms|
  {
    if terms == [] then current
    else if Contains(lower, terms[|terms| - 1]) then Some(RegexCond(terms[|terms| - 1], "i"))
    else NameOverride(lower, current, terms[..|terms| - 1])
  }

  /** The file-name condition from `file called X` / `filename named X`: the
      captured name as a case-insensitive pattern, when the phrase is there. */
  function NamedFile(query: string): (r: Option<RegexCond>)
    ensures r.Some? <==> FilenameCapture(query).Some?
    ensures r.Some? ==> r.value == RegexCond(FilenameCapture(query).value, "i") && r.value.pattern != []
  {
    match FilenameCapture(query)
    case Some(c) => Some(RegexCond(c, "i"))
    case None => None
  }

  /** For a resume or cv question the override words decide the file-name
      pattern: the last of them present, which is `cv` when the question
      holds it and `resume` otherwise. So `poonam` is never the final
      pattern. */
  lemma ResumeQuestionPattern(lower: string, named: Option<RegexCond>)
    requires Contains(lower, "resume") || Contains(lower, "cv")
    ensures NameOverride(lower, named, ResumeTerms) ==
      Some(RegexCond(if Contains(lower, "cv") then "cv" else "resume", "i"))
  {
    assert ResumeTerms[..2] == ["poonam", "resume"];
    assert ResumeTerms[..2][..1] == ["poonam"];
  }

  /** The filter a question translates to: the asked-for type, and a
      file-name pattern that is the override word for a resume or cv
      question and the `file called` name otherwise. */
  function StorageFilter(query: string): (r: Filter)
    ensures r.documentType == AskedType(Lower(query))
    ensures r.filename ==
      if Contains(Lower(query), "resume") || Contains(Lower(query), "cv")
      then Some(RegexCond(if Contains(Lower(query), "cv") then "cv" else "resume", "i"))
      else NamedFile(query)
    ensures r.allOf.None? && r.anyOf.None?
  {
    var lower := Lower(query);
    var named := NamedFile(query);
    if Contains(lower, "resume") || Contains(lower, "cv") then
      ResumeQuestionPattern(lower, named);
      Filter(AskedType(lower), NameOverride(lower, named, ResumeTerms), None, None)
    else
      Filter(AskedType(lower), named, None, None)
  }

  /** The filter construction, with its override loop. */
  method BuildStorageFilter(query: string) returns (mongoQuery: Filter)
    ensures mongoQuery == StorageFilter(query)
  {
    var queryLower := Lower(query);
    mongoQuery := MatchAll;
    var asked := AskedType(queryLower);
    if asked.Some? {
      mongoQuery := mongoQuery.(documentType := asked);
    }
    var named := NamedFile(query);
    if named.Some? {
      mongoQuery := mongoQuery.(filename := named);
    }
    if Contains(queryLower, "resume") || Contains(queryLower, "cv") {
      for i := 0 to |ResumeTerms|
        invariant mongoQuery == Filter(asked, NameOverride(queryLower, named, ResumeTerms[..i]), None, None)
      {
        var term := ResumeTerms[i];
        if Contains(queryLower, term) {
          mongoQuery := mongoQuery.(filename := Some(RegexCond(term, "i")));
        }
        assert ResumeTerms[..i + 1][..i] == ResumeTerms[..i];
      }
      assert ResumeTerms[..|ResumeTerms|] == ResumeTerms;
    }
  }

  /** What `queryByNaturalLanguage` answers; `source` names a shortcut taken. */
  datatype QueryReply = QueryReply(
    originalQuery: string,
    mongoQuery: Option<Filter>,
    documents: seq<Doc>,
    count: nat,
    source: Option<string>,
    error: Option<string>)

  /** Questions about recent uploads (or resumes) first try the newest
      document alone. */
  predicate AsksForRecent(query: string) {
    var lower := Lower(query);
    Contains(lower, "recent") || Contains(lower, "upload") || Contains(lower, "resume")
  }

  const NewestOne: FindRequest := FindRequest("", Some(NewestFirst), 1)

  /** A lookup that succeeded with at least one document. */
  predicate FoundSome(res: Result<seq<Doc>, Failure>) {
    res.Success? && res.value != []
  }

  /** `r` is the answer to `query`, the first case that applies deciding:
      the newest document for a recent-upload question, the newest document
      when the translated filter is empty, the filter's documents when that
      query succeeds, any one document when it fails, and otherwise an empty
      answer carrying the failed query's message. */
  predicate AnswersQuery(query: string, find: Finder, r: QueryReply) {
    var newest := FindDocuments(MatchAll, NewestOne, find);
    var filter := StorageFilter(query);
    var filtered := FindDocuments(filter, FindRequest("", None, 0), find);
    var anyOne := FindDocuments(MatchAll, FindRequest("", None, 1), find);
    if FoundSome(newest) && AsksForRecent(query) then
      r == QueryReply(query, None, newest.value, |newest.value|, Some("recent_uploads"), None)
    else if FoundSome(newest) && filter.IsEmpty() then
      r == QueryReply(query, None, newest.value, |newest.value|, Some("most_recent"), None)
    else if filtered.Success? then
      r == QueryReply(query, Some(filter), filtered.value, |filtered.value|, None, None)
    else if FoundSome(anyOne) then
      r == QueryReply(query, None, anyOne.value, |anyOne.value|, Some("fallback_any"), None)
    else
      r == QueryReply(query, Some(filter), [], 0, None, Some(Message(filtered.error)))
  }

  /** Whatever the store does, an answer counts its documents, a shortcut
      answer is never empty, and an error answer is empty and comes only
      from a failed filter query. */
  lemma AnswerShape(query: string, find: Finder, r: QueryReply)
    requires AnswersQuery(query, find, r)
    ensures r.originalQuery == query && r.count == |r.documents|
    ensures r.source.Some? ==> r.documents != [] && r.mongoQuery.None? && r.error.None?
    ensures r.error.Some? ==>
      r.documents == [] && r.source.None? &&
      FindDocuments(StorageFilter(query), FindRequest("", None, 0), find).Failure?
  {
  }

  /** `queryByNaturalLanguage`: the newest document for a recent-upload
      question; otherwise the translated filter (the newest document when it
      is empty); when the store fails, any one document, or an empty answer
      carrying the error. */
  method QueryByNaturalLanguage(query: string, find: Finder) returns (r: QueryReply)
    ensures AnswersQuery(query, find, r)
  {
    if AsksForRecent(query) {
      var recent := FindDocuments(MatchAll, NewestOne, find);
      if recent.Success? && |recent.value| > 0 {
        return QueryReply(query, None, recent.value, |recent.value|, Some("recent_uploads"), None);
      }
    }
    var mongoQuery := BuildStorageFilter(query);
    if mongoQuery.IsEmpty() {
      var recent := FindDocuments(MatchAll, NewestOne, find);
      if recent.Success? && |recent.value| > 0 {
        return QueryReply(query, None, recent.value, |recent.value|, Some("most_recent"), None);
      }
    }
    var documents := FindDocuments(mongoQuery, FindRequest("", None, 0), find);
    if documents.Success? {
      return QueryReply(query, Some(mongoQuery), documents.value, |documents.value|, None, None);
    }
    var anyDocs := FindDocuments(MatchAll, FindRequest("", None, 1), find);
    if anyDocs.Success? && |anyDocs.value| > 0 {
      return QueryReply(query, None, anyDocs.value, |anyDocs.value|, Some("fallback_any"), None);
    }
    r := QueryReply(query, Some(mongoQuery), [], 0, None, Some(Message(documents.error)));
  }
}
