# Document layer of the MCP chat application, in Dafny

This project models the server-side document layer of a Meteor chat
application. The chat routes requests to "MCP tools" (MongoDB, document
storage, PDF extraction). The model covers five modules of that layer:

- **PDF extractor** (`imports/api/pdf-extractor.js`). It decodes a base64 PDF
  data URL into page-marked text. It extracts a named section with three
  strategies in turn: header regexes, a line scanner, and keyword paragraphs.
  It surveys the header lines of a document, with paragraph previews, and
  classifies the document by keyword scores.
- **Document storage** (`imports/api/document-storage.js`). It prepares and
  stores a document: default file name, merged metadata, detected type, and
  content cut for storage, with a minimal-document fallback. It also finds
  documents and turns a natural-language question into a store filter.
- **MCP tools registry** (`imports/api/mcp-tools-registry.js`). It selects the
  enabled tools, decides a message's intent, and picks the section a prompt
  asks for. It runs the section / section-list / full-text chain on the newest
  PDF and packages the tool result.
- **File hooks** (`imports/api/file-hooks.js`). Each upload goes to a
  per-MIME-type handler. The handlers update the upload object in place
  (type, preview, metadata scraped from text). The file is then registered
  with its search terms.
- **MongoDB MCP client** (`imports/api/mongodb-mcp-client.js`). It holds the
  connection, wraps find and insert with their error codes, and turns a
  natural-language query into a MongoDB filter whose results are formatted
  for display.

Files:

- `wrappers.dfy`: `Option` and `Result`.
- `text.dfy`: the JavaScript string operations the code uses, restricted to
  ASCII case mapping (`toLowerCase`, `includes`, `startsWith`, `substring`,
  `trim`, `split`).
- `patterns.dfy`: the small capture regexes, each worked out as a function
  with JavaScript's backtracking order.
- `documents.dfy`: the document record and the in-place `Document` object,
  store filters, find options, the store's find and insert as function
  parameters, and `Meteor.Error` as `Failure`.
- One file per source module: `pdf_extractor.dfy`, `document_storage.dfy`,
  `mcp_tools_registry.dfy`, `file_hooks.dfy` and `mongodb_mcp_client.dfy`.

Loops in the source are methods with loop invariants. Each is proved equal to
a specification function, and the properties are proved about those
functions. The upload object the hooks mutate is the class
`Documents.Document`; the MongoDB client is the class
`MongoDbMcpClient.McpClient`.

Everything outside the process becomes a parameter:

- the database (`Finder`, `Inserter`, and a `reachable` flag for the
  network);
- the PDF library and `atob` (`Decoder`: payload to pages of text items);
- the three dynamic stage-1 section regexes and whether they compile (`RegexOracle`);
- `JSON.stringify` (`toJson`);
- the clock (`now`).

## Model

| member | source | states |
|---|---|---|
| Text.Lower | imports/api/mongodb-mcp-client.js:73 | `toLowerCase` keeps the length and maps every character by the (ASCII) lower-case mapping |
| Text.Take | imports/api/file-hooks.js:119 | `substring(0, n)` is the prefix of length min(n, length), the whole string when it is short enough |
| Text.TrimCharacterised | imports/api/pdf-extractor.js:139 | `trim()` is the input with exactly its leading and trailing white space removed: the piece after the leading run, followed only by white space |
| Text.Trim | imports/api/pdf-extractor.js:139 | `trim()` gives a piece of the input with no white space at either end |
| Text.TrimKeepsChars | imports/api/pdf-extractor.js:139 | every character of the trimmed text is a character of the input |
| Text.SplitSpaceRunsJoin | imports/api/mongodb-mcp-client.js:103-104 | `split(/\s+/)` joined back with single spaces is the input with each white-space run collapsed to one space |
| Text.SplitSpaceRunsAt | imports/api/mongodb-mcp-client.js:103-104 | splitting at a white-space run between two words gives the pieces before it followed by those after it |
| Text.SplitJoin | imports/api/pdf-extractor.js:133 | splitting on a single-character separator and joining with it gives back the string |
| Text.SplitWhereAt | imports/api/file-hooks.js:85 | splitting at a separator character gives the pieces before it followed by those after it |
| Text.Abbreviate | imports/api/pdf-extractor.js:282-283 | the first n characters plus `...` when longer than n, the string itself otherwise |
| Patterns.FilenameCapture | imports/api/document-storage.js:275-276 | the file-name regex's capture at the leftmost matching position, none exactly when it matches nowhere; non-empty and free of quotes |
| Patterns.KeywordCapture | imports/api/mcp-tools-registry.js:104-107 | the section regex's capture at the leftmost matching position, none exactly when it matches nowhere; a non-empty run of word characters |
| Patterns.LabelValueAt | imports/api/file-hooks.js:230 | `[:=\s]+([^\n,]+)` after a label: a separator run then a non-empty value free of line breaks and commas |
| Patterns.FieldMatchAt | imports/api/file-hooks.js:230-246 | a patient, date or diagnosis match starts at the label and captures value characters; a date match is well formed |
| Patterns.FirstMatch | imports/api/file-hooks.js:230 | `text.match(re)` is the match at the leftmost position where the pattern matches; none exactly when it matches nowhere |
| Patterns.DateEntryIsCapture | imports/api/file-hooks.js:238-240 | removing the label from a date match and trimming equals doing the same to its capture |
| Patterns.AllMatchesFrom | imports/api/file-hooks.js:236 | the global matches: the first match, then each next one the first at or after the previous end, and none after the last |
| Patterns.DateEntryClean | imports/api/file-hooks.js:238-240 | removing the date label and trimming leaves only characters of the captured value |
| PdfExtractor.StripDataPrefix | imports/api/pdf-extractor.js:31-34 | data with the `data:application/pdf;base64,` prefix is that prefix plus the result; other data is unchanged |
| PdfExtractor.StripDataPrefixOnce | imports/api/pdf-extractor.js:31-34 | stripping a prefixed payload gives back exactly the payload |
| PdfExtractor.BlocksSplit | imports/api/pdf-extractor.js:49-55 | the text of consecutive page runs concatenates, page numbers continuing |
| PdfExtractor.PageBlockPosition | imports/api/pdf-extractor.js:49-55 | page k's block (marker, items joined by spaces, blank line) sits between the blocks of the pages before and after it |
| PdfExtractor.AssemblePages | imports/api/pdf-extractor.js:49-55 | the page loop's text equals the full-text specification |
| PdfExtractor.ExtractText | imports/api/pdf-extractor.js:7-62 | falsy data gives `invalid-pdf`; otherwise success exactly when the decoder reads the payload, with the page-marked full text |
| PdfExtractor.ExtractTextFromBase64Pdf | imports/api/pdf-extractor.js:7-62 | the method returns what `ExtractText` specifies |
| PdfExtractor.LookupFrom | imports/api/pdf-extractor.js:72-96 | the alias lookup finds the table entry for the key, or reports that none exists |
| PdfExtractor.PossibleHeaders | imports/api/pdf-extractor.js:99 | the headers are the table's own aliases for the lower-cased name, or the name itself when the table lacks it (for an inherited key such as `constructor` the source's lookup finds a value that is no list, which `SectionError` turns into the failure) |
| PdfExtractor.PatternHit | imports/api/pdf-extractor.js:109-127 | the first pattern with a non-empty capture answers; none answers only when every capture is missing or empty |
| PdfExtractor.RegexStageEmpty | imports/api/pdf-extractor.js:105-128 | stage 1 finds nothing exactly when every header's trimmed capture is empty |
| PdfExtractor.RegexStageFirstHit | imports/api/pdf-extractor.js:105-128 | a stage-1 result is the first header's non-empty result, every earlier header giving nothing |
| PdfExtractor.TryPatterns | imports/api/pdf-extractor.js:120-127 | the pattern loop for one header equals its specification |
| PdfExtractor.RegexStageErrorAt | imports/api/pdf-extractor.js:105-118 | stage 1 throws exactly when it reaches a header whose patterns do not compile, every earlier header compiling and giving nothing; the error is that header's |
| PdfExtractor.RegexStage | imports/api/pdf-extractor.js:105-128 | the header loop equals its specification, including the `SyntaxError` of a header whose patterns do not compile |
| PdfExtractor.ScanOneLine | imports/api/pdf-extractor.js:139-176 | one scanned line updates the in-section flag, current header and collected lines as the step function says |
| PdfExtractor.ScanLines | imports/api/pdf-extractor.js:131-182 | the line loop equals the scan specification |
| PdfExtractor.ScanUnknownSection | imports/api/pdf-extractor.js:143-171 | a section name missing from the table is never entered and nothing is collected |
| PdfExtractor.ScanSkipsOtherHeaders | imports/api/pdf-extractor.js:143-176 | no collected line announces another known section |
| PdfExtractor.ScanStepOrigin | imports/api/pdf-extractor.js:143-176 | a step collects at most its own line, and only a target header line enters the section from outside it |
| PdfExtractor.ScanCollectsInputLines | imports/api/pdf-extractor.js:139-176 | every collected line is some input line, trimmed |
| PdfExtractor.ScanCollectsAfterHeader | imports/api/pdf-extractor.js:143-176 | the scanner collects or stays in the section only after a line announcing the target |
| PdfExtractor.BreakEnd | imports/api/pdf-extractor.js:190 | a `\n\s*\n` separator starts and ends with a line break |
| PdfExtractor.ParagraphsJoin | imports/api/pdf-extractor.js:190 | the paragraphs joined with blank lines give back the text with each `\n\s*\n` separator normalised to one blank line |
| PdfExtractor.ParagraphsFrom | imports/api/pdf-extractor.js:190 | splitting on blank lines gives at least one paragraph |
| PdfExtractor.ParagraphsHaveNoBlankLine | imports/api/pdf-extractor.js:190 | no paragraph holds two consecutive line breaks |
| PdfExtractor.NoPairInside | imports/api/pdf-extractor.js:190 | a stretch with no separator start holds no pair of line breaks |
| PdfExtractor.KeepRelevantAppend | imports/api/pdf-extractor.js:192-195 | filtering keeps the original order and repeats: the kept paragraphs of a concatenation are those of each part, in turn |
| PdfExtractor.KeepRelevant | imports/api/pdf-extractor.js:192-195 | exactly the paragraphs mentioning a keyword (case-insensitively) are kept; one paragraph is kept or dropped alone |
| PdfExtractor.StagesContent | imports/api/pdf-extractor.js:105-200 | stage 1's result when non-empty, else stage 2's, else stage 3's; empty exactly when all three are |
| PdfExtractor.SectionContent | imports/api/pdf-extractor.js:202 | the found content, or the not-found message when every stage is empty; never empty |
| PdfExtractor.UnknownNameError | imports/api/pdf-extractor.js:99-117 | a name the table lacks is tried as its own pattern, so it fails exactly when the patterns built around it do not compile |
| PdfExtractor.CompilingHeadersNeverThrow | imports/api/pdf-extractor.js:99-117 | a name that is not an inherited key and whose headers all compile never makes the strategies throw |
| PdfExtractor.ExtractSection | imports/api/pdf-extractor.js:65-207 | success exactly when the text is extracted and the name neither is an inherited key (`constructor`, `__proto__`) nor reaches a pattern that does not compile; the content is then the found content or the not-found message, never empty; every failure is `section-extraction-error` with the thrown message |
| PdfExtractor.ExtractSectionFromPdf | imports/api/pdf-extractor.js:65-207 | the method returns what `ExtractSection` specifies |
| PdfExtractor.SelectSnoc | imports/api/pdf-extractor.js:248-270 | the survey's selection grows by the next line exactly when it is flagged |
| PdfExtractor.SelectCharacterised | imports/api/pdf-extractor.js:248-270 | the selection is exactly the flagged items, in order, each once |
| PdfExtractor.TrimAll | imports/api/pdf-extractor.js:250 | every line trimmed, position by position |
| PdfExtractor.HeaderFlags | imports/api/pdf-extractor.js:250-268 | each line's flag is the header test on it |
| PdfExtractor.SurveyCharacterised | imports/api/pdf-extractor.js:248-270 | the survey reports exactly the header lines, trimmed, in document order, repeats included |
| PdfExtractor.ReportsLine | imports/api/pdf-extractor.js:263-268 | a line is reported exactly when it looks like a header and contains one of the patterns |
| PdfExtractor.SurveyLine | imports/api/pdf-extractor.js:250-268 | one survey step decides as the header predicate does |
| PdfExtractor.LooksLikeHeader | imports/api/pdf-extractor.js:258-261 | a line looks like a header exactly when it has no lower-case letter, the next line is blank, it is a numbered heading, or it starts with a capitalised word and a colon |
| PdfExtractor.DetectHeaders | imports/api/pdf-extractor.js:248-270 | the survey loop equals the survey specification |
| PdfExtractor.FindParagraph | imports/api/pdf-extractor.js:278 | `findIndex` gives the first paragraph whose trimmed text starts with the header, or the end |
| PdfExtractor.Preview | imports/api/pdf-extractor.js:278-284 | a preview exactly when a paragraph follows the header's; it is that paragraph, cut to 200 characters plus `...` only when longer |
| PdfExtractor.PreviewMap | imports/api/pdf-extractor.js:276-285 | the map's keys are exactly the surveyed headers with a preview, each mapped to that preview |
| PdfExtractor.BuildPreviews | imports/api/pdf-extractor.js:276-285 | the preview loop equals the preview map |
| PdfExtractor.AddPreview | imports/api/pdf-extractor.js:278-284 | one header adds its preview when there is one and leaves the map alone otherwise |
| PdfExtractor.ScoreOf | imports/api/pdf-extractor.js:320-338 | a kind scores one per keyword in the text plus two per keyword in a section name |
| PdfExtractor.ScoreAll | imports/api/pdf-extractor.js:320-338 | one score per kind, each as specified |
| PdfExtractor.Classify | imports/api/pdf-extractor.js:299-352 | `document` when every kind scores zero; otherwise the earliest kind with the maximal, positive score |
| PdfExtractor.IdentifySections | imports/api/pdf-extractor.js:210-296 | success exactly when the text is extracted, with the header survey, its preview map and the classification; failures are `section-identification-error` |
| PdfExtractor.PdfExtract | imports/api/pdf-extractor.js:357-369 | falsy data is `invalid-pdf`; otherwise the extracted text with success |
| PdfExtractor.PdfExtractSection | imports/api/pdf-extractor.js:371-387 | missing data or name is `invalid-parameters`; otherwise success with non-empty content exactly when `extractSectionFromPDF` does not throw, and `section-extraction-error` when it does |
| PdfExtractor.PdfIdentifySections | imports/api/pdf-extractor.js:389-401 | falsy data is `invalid-pdf`; otherwise as `IdentifySections`, with success set |
| DocumentStorage.FirstRule | imports/api/document-storage.js:139-181 | a kind is chosen exactly when its rule fires and no earlier rule does; `document` exactly when none fires |
| DocumentStorage.DetectDocumentType | imports/api/document-storage.js:130-182 | an existing type is kept; otherwise the first firing rule on the lower-cased name and string content; never empty |
| DocumentStorage.DetectIdempotent | imports/api/document-storage.js:132 | detecting again on the typed document gives the same type |
| DocumentStorage.DetectIgnoresNonString | imports/api/document-storage.js:135-137 | non-string content is treated as no content |
| DocumentStorage.ResumeHasPriority | imports/api/document-storage.js:139-148 | untyped text mentioning "skills" is a resume, whatever else it mentions |
| DocumentStorage.StoredContent | imports/api/document-storage.js:85-102 | string content over 10,000,000 characters is cut to that length, a JSON object becomes its string |
| DocumentStorage.SimplifyForStorage | imports/api/document-storage.js:76-127 | the copy drops `_id`, stores the simplified content and keeps every other field |
| DocumentStorage.StoredContentBounded | imports/api/document-storage.js:89-92 | stored text is a prefix of the original of at most 10,000,000 characters |
| DocumentStorage.SimplifyIdempotent | imports/api/document-storage.js:76-127 | simplifying twice is simplifying once |
| DocumentStorage.MergedMetadata | imports/api/document-storage.js:18-24 | the keys are the old keys, the three stamps and the caller's; caller's values win, then the stamps, then the old values |
| DocumentStorage.UnnamedFilename | imports/api/document-storage.js:13-15 | a missing file name becomes `unnamed_document_<time>` |
| DocumentStorage.MinimalDocument | imports/api/document-storage.js:51-57 | the fallback keeps name and metadata, defaults the type to `unknown`, stamps the upload date |
| DocumentStorage.CollectionFor | imports/api/document-storage.js:35 | the caller's collection, otherwise a non-empty default |
| DocumentStorage.Prepared | imports/api/document-storage.js:13-29 | only name, metadata and type change, each as specified; the type is never empty |
| DocumentStorage.StoreOutcome | imports/api/document-storage.js:32-72 | the simplified insert's id on success; otherwise the minimal fallback's; `document-storage-error` exactly when both fail |
| DocumentStorage.StoreDocument | imports/api/document-storage.js:8-73 | the document object is updated in place to its prepared form and the outcome is the store outcome of it |
| DocumentStorage.FetchOptionsFor | imports/api/document-storage.js:188-192 | collection defaults to `documents`, sort to newest first, the limit is passed on |
| DocumentStorage.FindDocuments | imports/api/document-storage.js:185-205 | the store's documents, or `document-query-error` with its message |
| DocumentStorage.AskedType | imports/api/document-storage.js:258-272 | the first group whose word appears decides: patient, financial, research, resume; none exactly when no word of any group appears |
| DocumentStorage.NamedFile | imports/api/document-storage.js:275-279 | a pattern exactly when the file-name regex matches: its capture, case-insensitive |
| DocumentStorage.ResumeQuestionPattern | imports/api/document-storage.js:282-290 | the override loop on a resume or cv question ends with `cv` when the question says cv, otherwise `resume` |
| DocumentStorage.StorageFilter | imports/api/document-storage.js:255-290 | the filter holds the asked type, and as name pattern the override word for resume or cv questions, the named file otherwise |
| DocumentStorage.BuildStorageFilter | imports/api/document-storage.js:255-290 | the filter-building code equals the filter specification |
| DocumentStorage.QueryByNaturalLanguage | imports/api/document-storage.js:219-354 | the answer is the first applicable case: newest document for a recent-upload question, newest for an empty filter, the filter's documents, any one document after a failure, else empty with the error's message |
| DocumentStorage.AnswerShape | imports/api/document-storage.js:219-354 | every answer counts its documents; a shortcut answer is non-empty; an error answer is empty and follows a failed filter query |
| McpToolsRegistry.GetEnabledMcpTools | imports/api/mcp-tools-registry.js:241-250 | exactly the enabled ids that name a registered tool, each with its tool |
| McpToolsRegistry.IsMcpToolEnabled | imports/api/mcp-tools-registry.js:253-256 | a tool is enabled exactly when its id occurs in the configured list |
| McpToolsRegistry.RequestsIgnoreCase | imports/api/mcp-tools-registry.js:45-67 | both request tests ignore letter case |
| McpToolsRegistry.IsPdfContentRequest | imports/api/mcp-tools-registry.js:45-56 | the lower-cased prompt names a PDF or document and one of the content cues |
| McpToolsRegistry.IsSkillsRequest | imports/api/mcp-tools-registry.js:59-67 | the lower-cased prompt names one of the skill words |
| McpToolsRegistry.AnalyzeMessageIntent | imports/api/mcp-tools-registry.js:259-280 | a PDF content intent exactly for a non-empty message either test accepts |
| McpToolsRegistry.SectionCapture | imports/api/mcp-tools-registry.js:104-107 | the find-verb form's capture wins over the from/in form |
| McpToolsRegistry.SelectedSection | imports/api/mcp-tools-registry.js:101-122 | always a known section: the lower-cased capture when it is known, `skills` otherwise |
| McpToolsRegistry.FindFormDecides | imports/api/mcp-tools-registry.js:104-121 | when the find-verb form matches, its capture alone decides the section |
| McpToolsRegistry.DataUrlIsPdf | imports/api/mcp-tools-registry.js:87-97 | content the extractor strips a prefix from always passes the PDF test |
| McpToolsRegistry.IsPdf | imports/api/mcp-tools-registry.js:87-90 | a document is a PDF exactly when it has a PDF media type, a `.pdf` name or string content with the data prefix; each suffices alone, and non-string content never counts |
| McpToolsRegistry.PdfNameIgnoresCase | imports/api/mcp-tools-registry.js:88 | the name test ignores letter case |
| McpToolsRegistry.GetMostRecentDocuments | imports/api/mcp-tools-registry.js:206-236 | the stored newest documents, the raw collection's when none, nothing when the store throws |
| McpToolsRegistry.Answer | imports/api/mcp-tools-registry.js:74-190 | none found, not a PDF, then section, section list and full text, each exactly when the earlier steps did not answer |
| McpToolsRegistry.SucceededCarriesOneDocument | imports/api/mcp-tools-registry.js:134-176 | a successful answer carries exactly the newest document |
| McpToolsRegistry.HandlePdfContentRequest | imports/api/mcp-tools-registry.js:70-191 | the handler equals the answer chain on the newest document and the selected section |
| McpToolsRegistry.ServerChainStopsAtSection | imports/api/mcp-tools-registry.js:130-178 | with the extractor's own section method the list and full-text steps are never reached |
| McpToolsRegistry.PdfExtractSectionReported | imports/api/pdf-extractor.js:371-387 | a section method that reports "not found" as empty content, failing on the same names, agreeing otherwise |
| McpToolsRegistry.ReportingChainReachesSurvey | imports/api/mcp-tools-registry.js:147-160 | with that method a section that is not found falls through to the section list |
| McpToolsRegistry.NonEmpty | imports/api/mcp-tools-registry.js:306-307 | a string is kept exactly when it is not empty |
| McpToolsRegistry.RowContent | imports/api/mcp-tools-registry.js:299-302 | a row's content is the section, the full text or the previews' JSON, in that order |
| McpToolsRegistry.Row | imports/api/mcp-tools-registry.js:296-305 | a row has the document's id, its type and name with non-empty defaults, the section name only for a found non-empty-named section, and the row content |
| McpToolsRegistry.ProcessMcpMessage | imports/api/mcp-tools-registry.js:283-325 | a tool result exactly for routed messages whose answer succeeded, built from that answer |
| McpToolsRegistry.DocumentsQuery | imports/api/mcp-tools-registry.js:29-42 | routed prompts get the content answer; the others get exactly the storage answer `queryByNaturalLanguage` specifies |
| FileHooks.HandlerFor | imports/api/file-hooks.js:17-31 | text before image before PDF, generic otherwise and for a missing type |
| FileHooks.LongerThanAppend | imports/api/file-hooks.js:86 | the length filter keeps order and repeats: filtering a concatenation filters each part in turn |
| FileHooks.LongerThan | imports/api/file-hooks.js:86 | never longer than the input; a single part is kept exactly when longer than the bound |
| FileHooks.LongerThanMembers | imports/api/file-hooks.js:86 | exactly the parts longer than the bound are kept |
| FileHooks.LowerKeepsOut | imports/api/file-hooks.js:86 | lower-casing adds none of the separator characters |
| FileHooks.LowerAllKeepsOut | imports/api/file-hooks.js:86 | lower-casing keeps lengths and adds no separators |
| FileHooks.NamePartsAt | imports/api/file-hooks.js:85-86 | the name parts of a name split at a separator are the parts before it followed by those after it |
| FileHooks.NameParts | imports/api/file-hooks.js:85-86 | exactly the split parts longer than two characters; none holds a separator |
| FileHooks.NamePartsOfWord | imports/api/file-hooks.js:85-86 | a name with no separator is one part, kept when longer than two characters |
| FileHooks.FilenameTerms | imports/api/file-hooks.js:81-87 | the lower-cased name first, then exactly its name parts lower-cased, in order |
| FileHooks.LongWordsAt | imports/api/file-hooks.js:97-99 | the long words of a text split at a white-space run are those before the run followed by those after it |
| FileHooks.LongWords | imports/api/file-hooks.js:97-99 | exactly the white-space separated words longer than three characters |
| FileHooks.LongWordsOfWord | imports/api/file-hooks.js:97-99 | a text with no white space is one word, kept when longer than three characters |
| FileHooks.ContentWords | imports/api/file-hooks.js:97-101 | the first 50 long words (all of them when fewer), lower-cased, in order |
| FileHooks.Distinct | imports/api/file-hooks.js:106 | duplicates removed, no member lost |
| FileHooks.DistinctPrefix | imports/api/file-hooks.js:106 | removing duplicates keeps first occurrences in order |
| FileHooks.SearchTerms | imports/api/file-hooks.js:77-107 | distinct terms: exactly the name terms, the lower-cased type and the content words |
| FileHooks.SearchTermsStartWithName | imports/api/file-hooks.js:81-82 | a named file's first term is its lower-cased name |
| FileHooks.SearchTermsBounded | imports/api/file-hooks.js:77-107 | at most the name terms, one type and 50 words |
| FileHooks.DistinctNoLonger | imports/api/file-hooks.js:106 | removing duplicates never lengthens the list |
| FileHooks.GenerateSearchTerms | imports/api/file-hooks.js:77-107 | the method equals the search-term specification |
| FileHooks.FieldValue | imports/api/file-hooks.js:230-233 | a value exactly when the pattern matches: the trimmed capture of the leftmost match |
| FileHooks.Scrape | imports/api/file-hooks.js:226-247 | name and diagnosis exactly when their patterns match, each the trimmed leftmost capture; one date per date match, in order, the label removed and trimmed |
| FileHooks.AsMetadata | imports/api/file-hooks.js:249 | no metadata exactly when nothing was found; a key exactly per field found, holding that field's value |
| FileHooks.DateMatchesWellFormed | imports/api/file-hooks.js:236 | every date match is well formed |
| FileHooks.DateEntryOf | imports/api/file-hooks.js:238-240 | a date entry is the capture with its leading label separators removed, trimmed |
| FileHooks.DateEntries | imports/api/file-hooks.js:238-240 | entry k is date match k's capture with the label removed and trimmed |
| FileHooks.ExtractMetadataFromText | imports/api/file-hooks.js:226-250 | the method equals the scraped-metadata specification |
| FileHooks.TextPreview | imports/api/file-hooks.js:119-120 | the first 200 characters plus `...` when longer, the text otherwise |
| FileHooks.WithScraped | imports/api/file-hooks.js:123-129 | scraped fields override existing metadata; nothing changes when nothing was scraped |
| FileHooks.ProcessTextFile | imports/api/file-hooks.js:110-133 | string content sets type, preview and scraped metadata; other content leaves the object unchanged |
| FileHooks.ProcessPdfFile | imports/api/file-hooks.js:136-196 | tags the metadata as pdf; data URLs get empty extracted text; object content throws after the tag |
| FileHooks.ImageFormat | imports/api/file-hooks.js:206 | a format exactly when the type holds `/`: the text between the first and the second `/` |
| FileHooks.ProcessImageFile | imports/api/file-hooks.js:199-213 | tags image metadata with its format and types the document |
| FileHooks.ProcessGenericFile | imports/api/file-hooks.js:216-223 | only the type changes, to the detected type |
| FileHooks.RegistryEntry | imports/api/file-hooks.js:52-61 | the entry keeps name, MIME type and size, defaults original name and type, and carries the search terms |
| FileHooks.RegisterProcessedFile | imports/api/file-hooks.js:48-74 | true exactly when storing the prepared registry entry succeeds |
| FileHooks.ProcessFile | imports/api/file-hooks.js:7-45 | fails exactly when the PDF handler meets object content, with the pdf tag already set; otherwise the document becomes what its handler makes of it, and the reply carries the new type |
| MongoDbMcpClient.ConnectAsWritten | imports/api/mongodb-mcp-client.js:15-29 | a cached client answers its database; a failed connect leaves the client stored |
| MongoDbMcpClient.FailedConnectSticks | imports/api/mongodb-mcp-client.js:15-29 | after one failed connect, a reachable connect answers no database |
| MongoDbMcpClient.ConnectCorrected | imports/api/mongodb-mcp-client.js:15-29 | client and database are set together; a failure resets both; a success has a database |
| MongoDbMcpClient.RetryAfterFailureConnects | imports/api/mongodb-mcp-client.js:15-29 | after a failed connect, a reachable connect yields the database |
| MongoDbMcpClient.ConnectAgreesOnAnswers | imports/api/mongodb-mcp-client.js:15-29 | from a coherent state both versions answer the same |
| MongoDbMcpClient.McpClient.constructor | imports/api/mongodb-mcp-client.js:7-12 | settings or the defaults `mongodb://localhost:27017` and `mcpDB`; closed |
| MongoDbMcpClient.McpClient.Connect | imports/api/mongodb-mcp-client.js:15-29 | the client's state and answer follow the corrected connect |
| MongoDbMcpClient.McpClient.Close | imports/api/mongodb-mcp-client.js:168-175 | afterwards client and database are cleared |
| MongoDbMcpClient.McpClient.FindDocuments | imports/api/mongodb-mcp-client.js:48-62 | the state after the corrected connect; the store's documents exactly when a database is open and the find succeeds, `mongodb-find-error` otherwise |
| MongoDbMcpClient.McpClient.StoreDocument | imports/api/mongodb-mcp-client.js:32-45 | the state after the corrected connect; the new id exactly when a database is open and the insert succeeds, `mongodb-store-error` otherwise |
| MongoDbMcpClient.McpClient.QueryWithNaturalLanguage | imports/api/mongodb-mcp-client.js:65-165 | the state after the corrected connect; success exactly when a database is open and the translated filter's find succeeds, with one formatted row per result; `mcp-query-error` otherwise |
| MongoDbMcpClient.MongoType | imports/api/mongodb-mcp-client.js:80-92 | the first group whose word appears decides: patient, financial, research; none exactly when no word of the three groups appears |
| MongoDbMcpClient.KeepTermsAppend | imports/api/mongodb-mcp-client.js:105 | the term filter keeps order and repeats: filtering a concatenation filters each part in turn |
| MongoDbMcpClient.KeepTerms | imports/api/mongodb-mcp-client.js:105 | never longer than the input; every kept word is a term; one word is kept exactly when it is a term |
| MongoDbMcpClient.KeepTermsMembers | imports/api/mongodb-mcp-client.js:105 | exactly the words longer than three characters that are not stop words are kept |
| MongoDbMcpClient.QueryTermsAt | imports/api/mongodb-mcp-client.js:102-105 | the terms of a question split at a white-space run are the terms before it followed by those after it, in question order |
| MongoDbMcpClient.QueryTerms | imports/api/mongodb-mcp-client.js:102-105 | the terms are the query's lower-cased words passing that test |
| MongoDbMcpClient.QueryTermsOfWord | imports/api/mongodb-mcp-client.js:102-105 | a one-word question gives its lower-cased word when that is a term, nothing otherwise |
| MongoDbMcpClient.ContentConditions | imports/api/mongodb-mcp-client.js:110-115 | one content-or-filename pair per term |
| MongoDbMcpClient.FlatPairs | imports/api/mongodb-mcp-client.js:121 | flattened, term k's content and filename conditions sit at 2k and 2k+1 |
| MongoDbMcpClient.MongoFilter | imports/api/mongodb-mcp-client.js:76-128 | type and name as found; terms go under `$and` beside them, else under a flat `$or`; empty exactly when nothing was found |
| MongoDbMcpClient.CombinationRule | imports/api/mongodb-mcp-client.js:118-122 | never both `$and` and `$or`, with one pair per term or two conditions per term |
| MongoDbMcpClient.BuildMongoFilter | imports/api/mongodb-mcp-client.js:76-128 | the building code equals the filter specification |
| MongoDbMcpClient.FormatResult | imports/api/mongodb-mcp-client.js:136-149 | id kept, `unknown` and `unnamed` defaults, a preview of the first 100 characters plus `...` exactly for string content |

## Left out

- Text.Lower: JavaScript's `toLowerCase` maps all of Unicode; the model maps ASCII letters only, so non-ASCII text is compared as is.
- Text.Upper: the same for `toUpperCase`; only ASCII letters are mapped.
- PdfExtractor.LooksLikeHeader: its all-upper-case test uses the ASCII-only `Text.Upper`, so a line whose only lower-case letters are non-ASCII (such as `é`) counts as upper case in the model but not in JavaScript.
- String lengths are counted in characters, while JavaScript counts UTF-16 code units; for text outside the Basic Multilingual Plane the `< 50` header bounds, the 200- and 100-character previews, the 10,000,000-character cut-off and the word-length filters may decide differently.
- McpToolsRegistry.GetEnabledMcpTools: `mcpTools[toolId]` also finds inherited object properties, so a configured id such as `toString` or `constructor` is kept with that inherited value; the model's registry holds only the registered tools and drops such ids.
- I/O, logging (`console.*`) and `check()` argument validation are left out; the arguments are typed instead.
- The database, the network, pdfjs and `atob`, `JSON.stringify` and the clock are parameters, as listed above.
- The three stage-1 section regexes are built from the header at run time and use lazy `[\s\S]*?` matching; they are the `RegexOracle` parameter (its matches and its compile errors, with the engine's `SyntaxError` message), and only the order in which they are built and tried is modelled.
- PdfExtractor.ExtractSection: the `TypeError` thrown for an inherited key is given V8's wording (`possibleHeaders is not iterable`); other engines word it differently.
- Dates are integer time stamps; object key order in maps is not modelled.
- `null` and `undefined` content are both `NoContent`; a missing string field is the empty string, which is equally falsy.
- The message `File undefined processed successfully` for a file without a name is modelled as the empty name in the message.
- Object spread copies (`...doc`, `...metadata`) are values, so aliasing between the copy and the original is not modelled.
- The thin Meteor method wrappers (`documents.store`, `documents.find`, `documents.query`, `files.process`, `files.findByName`, `mongodb.insertDocument`, `mongodb.findDocuments`) and the `mcpTools.*` tool wrappers only pass their arguments on; they are left out.
- `getDocumentById` and `getDocumentByName` are single finds and are left out.
- The `terms` list that `queryByNaturalLanguage` computes is never used by the source, so it is not modelled.
- Applying `simplifyForStorage` to the filters `queryByNaturalLanguage` builds (type, file name, none with `_id`) leaves them unchanged, so that step is left out there; `getDocumentById`, whose `{_id}` filter it would empty, is not modelled.
- DocumentStorage.SimplifyForStorage: the catch fallback (a copy holding only name, string content, type and upload date) is taken only when copying throws, which cannot happen with value documents; it is left out.
- DocumentStorage.SimplifyIdempotent: stated for non-object content only, because an object without a JSON form becomes the empty string and then stays it.
- FileHooks.ImageFormat: for a MIME type without `/` the source stores `format: undefined`; the model leaves the key out.
- McpToolsRegistry.GetMostRecentDocuments: the raw-collection fallback is a second `Finder`, not the MongoDB client's connection state.
- MongoDbMcpClient.McpClient.Connect: the network connect is the `reachable` flag; the connected database is its name.
- Observation: in the resume override loop of `queryByNaturalLanguage`, `poonam` is always followed by `resume` or `cv`, so it is never the final pattern (`DocumentStorage.ResumeQuestionPattern`).
- MongoDbMcpClient.McpClient.FindDocuments: follows the corrected `connect` and requires the coherent state it keeps. The source's own `connect` can leave a client stored with no database; from that state the source fails every later find with `mongodb-find-error`, and the model does not cover it (see `MongoDbMcpClient.FailedConnectSticks`).
- MongoDbMcpClient.McpClient.StoreDocument: follows the corrected `connect` in the same way; from the source's client-without-database state every later insert fails with `mongodb-store-error`, which the model does not cover.
- MongoDbMcpClient.McpClient.QueryWithNaturalLanguage: follows the corrected `connect` in the same way; from the source's client-without-database state every later query fails with `mcp-query-error`, which the model does not cover.
- A `Meteor.Error`'s `message` is its reason followed by its code in brackets (`Documents.Message`); wherever the source reads `error.message` of such an error, the model uses that string.

## Findings

| source | as written | input that shows it | evidently intended | confidence | as-written member | corrected member |
|---|---|---|---|---|---|---|
| imports/api/mongodb-mcp-client.js:15-29 | the client is stored before `connect()` is awaited; when that fails the client stays stored with no database, and every later `connect()` returns the missing database without retrying | a first `connect()` while the server is unreachable, then any call once it is reachable | a failed connect leaves no client, so the next call connects again | not executed | MongoDbMcpClient.FailedConnectSticks | MongoDbMcpClient.RetryAfterFailureConnects |
| imports/api/pdf-extractor.js:202 with imports/api/mcp-tools-registry.js:130-178 | `extractSection` answers a section it cannot find with a non-empty "No section named ..." message, so the caller's test of the content always passes and the section-list and full-text fallbacks are unreachable for a readable PDF | a readable PDF holding none of the section's headers or keywords | a section that is not found reaches the section list | not executed | McpToolsRegistry.ServerChainStopsAtSection | McpToolsRegistry.ReportingChainReachesSurvey |
