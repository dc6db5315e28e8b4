/** What happens to an uploaded file after upload: a handler chosen by MIME
    type updates the document in place (type, preview, metadata, extracted
    text), then an entry with search terms is stored in the document
    registry. */
module FileHooks {
  import opened Wrappers
  import opened Text
  import opened Patterns
  import opened Documents
  import opened DocumentStorage

  // ---------------------------------------------------------------- dispatch

  datatype Handler = TextHandler | ImageHandler | PdfHandler | GenericHandler

  /** The handler for a MIME type, the first test that holds deciding. */
  function HandlerFor(mimeType: string): (r: Handler)
    ensures r == TextHandler <==> StartsWith(mimeType, "text/")
    ensures r == ImageHandler <==> !StartsWith(mimeType, "text/") && StartsWith(mimeType, "image/")
    ensures r == PdfHandler <==>
      !StartsWith(mimeType, "text/") && !StartsWith(mimeType, "image/") && Contains(mimeType, "pdf")
    ensures mimeType == "" ==> r == GenericHandler
  {
    if mimeType == "" then GenericHandler
    else if StartsWith(mimeType, "text/") then TextHandler
    else if StartsWith(mimeType, "image/") then ImageHandler
    else if Contains(mimeType, "pdf") then PdfHandler
    else GenericHandler
  }

  // ---------------------------------------------------------------- search terms

  /** A separator inside a file name: `_`, white space, `-` or `.`. */
  predicate IsNameSep(c: char) { c == '_' || IsSpace(c) || c == '-' || c == '.' }

  /** The strings longer than `n`, in order. */
  function LongerThan(xs: seq<string>, n: nat): (r: seq<string>)
    ensures |r| <= |xs|
    ensures |xs| == 1 ==> r == if |xs[0]| > n then xs else []
    decreases |xs|
  {
    if xs == [] then []
    else if |xs[|xs| - 1]| > n then LongerThan(xs[..|xs| - 1], n) + [xs[|xs| - 1]]
    else LongerThan(xs[..|xs| - 1], n)
  }

  /** The filter keeps exactly the strings longer than `n`. */
  lemma {:induction false} LongerThanMembers(xs: seq<string>, n: nat)
    ensures forall x :: x in LongerThan(xs, n) <==> x in xs && |x| > n
    decreases |xs|
  {
    if xs != [] {
      var init := xs[..|xs| - 1];
      LongerThanMembers(init, n);
      assert xs == init + [xs[|xs| - 1]];
    }
  }

  /** The filter works piece by piece: what it keeps of `a + b` is what it
      keeps of `a` followed by what it keeps of `b`, so the kept strings stay
      in order, each as often as it occurs. */
  lemma {:induction false} LongerThanAppend(a: seq<string>, b: seq<string>, n: nat)
    ensures LongerThan(a + b, n) == LongerThan(a, n) + LongerThan(b, n)
    decreases |b|
  {
    if b == [] {
      assert a + b == a;
    } else {
      var init, last := b[..|b| - 1], b[|b| - 1];
      LongerThanAppend(a, init, n);
      AppendSnoc(a, b);
      LongerThanSnoc(a + init, last, n);
      LongerThanSnoc(init, last, n);
    }
  }

  lemma LongerThanSnoc(xs: seq<string>, x: string, n: nat)
    ensures LongerThan(xs + [x], n) == LongerThan(xs, n) + if |x| > n then [x] else []
  {
    var ys := xs + [x];
    assert ys[..|ys| - 1] == xs;
  }

  /** Lower-casing a string keeps it clear of any character class that
      holds no letters. */
  lemma LowerKeepsOut(s: string, p: char -> bool)
    requires forall c :: c in s ==> !p(c)
    requires forall c :: p(c) ==> !IsAsciiLower(c)
    ensures forall c :: c in Lower(s) ==> !p(c)
  {
    forall c | c in Lower(s) ensures !p(c) {
      var i :| 0 <= i < |s| && Lower(s)[i] == c;
      assert s[i] in s;
    }
  }

  /** Every string of `xs` lower-cased keeps its length and stays clear of
      the class. */
  lemma LowerAllKeepsOut(xs: seq<string>, p: char -> bool, n: nat)
    requires forall x :: x in xs ==> |x| > n && forall c :: c in x ==> !p(c)
    requires forall c :: p(c) ==> !IsAsciiLower(c)
    ensures forall k :: 0 <= k < |LowerAll(xs)| ==>
      |LowerAll(xs)[k]| > n && forall c :: c in LowerAll(xs)[k] ==> !p(c)
  {
    forall k | 0 <= k < |xs| ensures |LowerAll(xs)[k]| > n && forall c :: c in LowerAll(xs)[k] ==> !p(c) {
      assert xs[k] in xs;
      LowerKeepsOut(xs[k], p);
    }
  }

  /** The parts of a file name longer than two characters. */
  function NameParts(filename: string): (r: seq<string>)
    ensures forall x :: x in r <==> x in SplitWhere(filename, IsNameSep) && |x| > 2
    ensures forall x :: x in r ==> |x| > 2 && forall c :: c in x ==> !IsNameSep(c)
  {
    LongerThanMembers(SplitWhere(filename, IsNameSep), 2);
    LongerThan(SplitWhere(filename, IsNameSep), 2)
  }

  /** A name with no separator is one part, kept when it is longer than two
      characters. */
  lemma NamePartsOfWord(w: string)
    requires forall k :: 0 <= k < |w| ==> !IsNameSep(w[k])
    ensures NameParts(w) == if |w| > 2 then [w] else []
  {
    IndexWhereUnique(w, IsNameSep, 0, |w|);
  }

  /** The parts of a name split at a separator are the parts before it
      followed by the parts after it. */
  lemma NamePartsAt(a: string, c: char, b: string)
    requires IsNameSep(c)
    ensures NameParts(a + [c] + b) == NameParts(a) + NameParts(b)
  {
    SplitWhereAt(a, c, b, IsNameSep);
    LongerThanAppend(SplitWhere(a, IsNameSep), SplitWhere(b, IsNameSep), 2);
  }

  /** The terms a file name gives: the whole name lower-cased, then its
      parts of three characters or more, lower-cased, in order. */
  function FilenameTerms(filename: string): (r: seq<string>)
    ensures filename == "" ==> r == []
    ensures filename != "" ==> |r| >= 1 && r[0] == Lower(filename)
    ensures filename != "" ==> r[1..] == LowerAll(NameParts(filename))
    ensures forall k :: 1 <= k < |r| ==> |r[k]| > 2 && forall c :: c in r[k] ==> !IsNameSep(c)
  {
    if filename == "" then []
    else
      LowerAllKeepsOut(NameParts(filename), IsNameSep, 2);
      var parts := LowerAll(NameParts(filename));
      ConsShift(Lower(filename), parts);
      [Lower(filename)] + parts
  }

  /** The words of a text of four characters or more. */
  function LongWords(text: string): (r: seq<string>)
    ensures forall x :: x in r <==> x in SplitSpaceRuns(text) && |x| > 3
    ensures forall x :: x in r ==> |x| > 3 && forall c :: c in x ==> !IsSpace(c)
  {
    LongerThanMembers(SplitSpaceRuns(text), 3);
    LongerThan(SplitSpaceRuns(text), 3)
  }

  /** A text with no white space is one word, kept when it is longer than
      three characters. */
  lemma LongWordsOfWord(w: string)
    requires forall k :: 0 <= k < |w| ==> !IsSpace(w[k])
    ensures LongWords(w) == if |w| > 3 then [w] else []
  {
    IndexWhereUnique(w, IsSpace, 0, |w|);
  }

  /** The long words of a text split at a white-space run between two words
      are the long words before the run followed by those after it. */
  lemma LongWordsAt(a: string, sp: string, b: string)
    requires |sp| > 0 && forall k :: 0 <= k < |sp| ==> IsSpace(sp[k])
    requires a == [] || !IsSpace(a[|a| - 1])
    requires b == [] || !IsSpace(b[0])
    ensures LongWords(a + sp + b) == LongWords(a) + LongWords(b)
  {
    SplitSpaceRunsAt(a, sp, b);
    LongerThanAppend(SplitSpaceRuns(a), SplitSpaceRuns(b), 3);
  }

  /** The content terms: the first 50 white-space separated words of four
      characters or more, lower-cased. */
  function ContentWords(text: string): (r: seq<string>)
    ensures |r| == if |LongWords(text)| <= 50 then |LongWords(text)| else 50
    ensures r == LowerAll(LongWords(text))[..|r|]
    ensures forall k :: 0 <= k < |r| ==> |r[k]| >= 4 && forall c :: c in r[k] ==> !IsSpace(c)
  {
    LowerAllKeepsOut(LongWords(text), IsSpace, 3);
    var lowered := LowerAll(LongWords(text));
    if |lowered| <= 50 then lowered else lowered[..50]
  }

  /** The strings in order with every repeat of an earlier one dropped (what
      `[...new Set(xs)]` gives). */
  function Distinct(xs: seq<string>): (r: seq<string>)
    ensures forall i, j :: 0 <= i < j < |r| ==> r[i] != r[j]
    ensures forall x :: x in r <==> x in xs
    decreases |xs|
  {
    if xs == [] then []
    else
      var init := xs[..|xs| - 1];
      var last := xs[|xs| - 1];
      assert xs == init + [last];
      var prev := Distinct(init);
      if last in init then prev else prev + [last]
  }

  /** The distinct terms of a prefix come first, in the same order: each
      term sits where it first occurred. */
  lemma {:induction false} DistinctPrefix(xs: seq<string>, n: nat)
    requires n <= |xs|
    ensures Distinct(xs[..n]) <= Distinct(xs)
    decreases |xs| - n
  {
    if n < |xs| {
      DistinctPrefix(xs, n + 1);
      var ys := xs[..n + 1];
      assert ys[..|ys| - 1] == xs[..n];
      assert Distinct(xs[..n]) <= Distinct(ys);
    } else {
      assert xs[..n] == xs;
    }
  }

  /** The terms before duplicates are dropped, in the order they are
      pushed: file-name terms, the type, the content words. */
  function RawTerms(d: Doc): seq<string> {
    var named := FilenameTerms(d.filename);
    var typed := if d.documentType != "" then named + [Lower(d.documentType)] else named;
    if d.content.Plain? then typed + ContentWords(d.content.text) else typed
  }

  /** The search terms of a document. */
  function SearchTerms(d: Doc): (r: seq<string>)
    ensures forall i, j :: 0 <= i < j < |r| ==> r[i] != r[j]
    ensures forall t :: t in r <==>
      t in FilenameTerms(d.filename) ||
      (d.documentType != "" && t == Lower(d.documentType)) ||
      (d.content.Plain? && t in ContentWords(d.content.text))
  {
    Distinct(RawTerms(d))
  }

  /** A named document's first search term is its lower-cased name. */
  lemma SearchTermsStartWithName(d: Doc)
    requires d.filename != ""
    ensures |SearchTerms(d)| >= 1 && SearchTerms(d)[0] == Lower(d.filename)
  {
    var raw := RawTerms(d);
    DistinctPrefix(raw, 1);
    assert raw[..1] == [Lower(d.filename)];
  }

  /** At most 50 terms come from the content, however long it is. */
  lemma {:induction false} SearchTermsBounded(d: Doc)
    ensures |SearchTerms(d)| <= |FilenameTerms(d.filename)| + 1 + 50
  {
    DistinctNoLonger(RawTerms(d));
  }

  lemma {:induction false} DistinctNoLonger(xs: seq<string>)
    ensures |Distinct(xs)| <= |xs|
    decreases |xs|
  {
    if xs != [] {
      DistinctNoLonger(xs[..|xs| - 1]);
    }
  }

  /** `generateSearchTerms`, pushing term groups then dropping repeats. */
  method GenerateSearchTerms(fileData: Doc) returns (r: seq<string>)
    ensures r == SearchTerms(fileData)
  {
    var terms := [];
    if fileData.filename != "" {
      terms := terms + [Lower(fileData.filename)];
      assert terms == [Lower(fileData.filename)];
      terms := terms + LowerAll(NameParts(fileData.filename));
    }
    assert terms == FilenameTerms(fileData.filename);
    if fileData.documentType != "" {
      terms := terms + [Lower(fileData.documentType)];
    }
    if fileData.content.Plain? {
      terms := terms + ContentWords(fileData.content.text);
    }
    assert terms == RawTerms(fileData);
    r := Distinct(terms);
  }

  // ---------------------------------------------------------------- metadata scraping

  /** The fields scraped from a text. */
  datatype Scraped = Scraped(patientName: Option<string>, dates: seq<string>, diagnosis: Option<string>)

  /** The trimmed capture of a field's first match. */
  function FieldValue(text: string, f: Field): (r: Option<string>)
    ensures r.Some? <==> FirstMatch(text, f).Some?
    ensures r.Some? ==> r.value == Trim(Captured(text, FirstMatch(text, f).value))
    ensures r.Some? ==> forall c :: c in r.value ==> IsValueChar(c)
  {
    match FirstMatch(text, f)
    case None => None
    case Some(m) =>
      var captured := Captured(text, m);
      assert forall c :: c in captured ==> IsValueChar(c);
      Some(Trim(captured))
  }

  /** The fields of a text: the trimmed capture of the leftmost patient-name
      match, one entry per date match in order (its capture with the leading
      separators dropped, trimmed), and the trimmed capture of the leftmost
      diagnosis match. No field holds a line break or a comma. */
  function Scrape(text: string): (r: Scraped)
    ensures r.patientName.Some? <==> FirstMatch(text, PatientName).Some?
    ensures r.patientName.Some? ==> r.patientName.value == Trim(Captured(text, FirstMatch(text, PatientName).value))
    ensures r.diagnosis.Some? <==> FirstMatch(text, Diagnosis).Some?
    ensures r.diagnosis.Some? ==> r.diagnosis.value == Trim(Captured(text, FirstMatch(text, Diagnosis).value))
    ensures var ms := AllMatchesFrom(text, 0, Date);
      |r.dates| == |ms| && forall k :: 0 <= k < |ms| ==> WellFormedMatch(text, ms[k], "date") && r.dates[k] == DateText(Captured(text, ms[k]))
    ensures forall k :: 0 <= k < |r.dates| ==> forall c :: c in r.dates[k] ==> IsValueChar(c)
    ensures r.patientName.Some? ==> forall c :: c in r.patientName.value ==> IsValueChar(c)
    ensures r.diagnosis.Some? ==> forall c :: c in r.diagnosis.value ==> IsValueChar(c)
  {
    Scraped(FieldValue(text, PatientName), TextDates(text), FieldValue(text, Diagnosis))
  }

  /** Scraped fields as metadata, nothing when none was found: each found
      field under its own key with its value. */
  function AsMetadata(found: Scraped): (r: Option<Metadata>)
    ensures r.None? <==> found.patientName.None? && found.dates == [] && found.diagnosis.None?
    ensures r.Some? ==> r.value.Keys <= {"patientName", "dates", "diagnosis"}
    ensures r.Some? ==> ("patientName" in r.value <==> found.patientName.Some?)
    ensures r.Some? ==> ("dates" in r.value <==> found.dates != [])
    ensures r.Some? ==> ("diagnosis" in r.value <==> found.diagnosis.Some?)
    ensures r.Some? && found.patientName.Some? ==> r.value["patientName"] == StrValue(found.patientName.value)
    ensures r.Some? && found.dates != [] ==> r.value["dates"] == ListValue(found.dates)
    ensures r.Some? && found.diagnosis.Some? ==> r.value["diagnosis"] == StrValue(found.diagnosis.value)
  {
    var empty: Metadata := map[];
    var withName := if found.patientName.Some? then empty["patientName" := StrValue(found.patientName.value)] else empty;
    var withDates := if found.dates != [] then withName["dates" := ListValue(found.dates)] else withName;
    var metadata := if found.diagnosis.Some? then withDates["diagnosis" := StrValue(found.diagnosis.value)] else withDates;
    assert metadata.Keys != {} <==> found.patientName.Some? || found.dates != [] || found.diagnosis.Some? by {
      if found.patientName.Some? || found.dates != [] || found.diagnosis.Some? {
        assert "patientName" in metadata || "dates" in metadata || "diagnosis" in metadata;
      }
    }
    if metadata.Keys != {} then Some(metadata) else None
  }

  /** The metadata a text yields. */
  function ScrapedMetadata(text: string): Option<Metadata> {
    AsMetadata(Scrape(text))
  }

  /** Every match of the date pattern is a well-formed date match. */
  lemma DateMatchesWellFormed(text: string)
    ensures var ms := AllMatchesFrom(text, 0, Date);
      forall k :: 0 <= k < |ms| ==> WellFormedMatch(text, ms[k], "date")
  {
    var ms := AllMatchesFrom(text, 0, Date);
    forall k | 0 <= k < |ms| ensures WellFormedMatch(text, ms[k], "date") {
      assert ms[k] in ms;
      assert FieldMatchAt(text, ms[k].start, Date) == Some(ms[k]);
    }
  }

  /** One entry of the `dates` list: the match with its label removed,
      trimmed, which is its capture with the leading separators dropped,
      trimmed; it holds only value characters. */
  function DateEntryOf(text: string, m: Match): (r: string)
    requires WellFormedMatch(text, m, "date")
    ensures r == DateText(Captured(text, m))
    ensures forall c :: c in r ==> IsValueChar(c)
  {
    DateEntryClean(text, m);
    DateEntryIsCapture(text, m);
    DateEntry(text, m)
  }

  /** The date entries of matches of the date pattern, one per match in
      order. */
  function DateEntries(text: string, dates: seq<Match>): (r: seq<string>)
    requires forall k :: 0 <= k < |dates| ==> WellFormedMatch(text, dates[k], "date")
    ensures |r| == |dates|
    ensures forall k :: 0 <= k < |dates| ==> WellFormedMatch(text, dates[k], "date") && r[k] == DateText(Captured(text, dates[k]))
    ensures forall k :: 0 <= k < |r| ==> forall c :: c in r[k] ==> IsValueChar(c)
  {
    seq(|dates|, k requires 0 <= k < |dates| => DateEntryOf(text, dates[k]))
  }

  /** The `dates` entries of a text: one per match of the date pattern. */
  function TextDates(text: string): (r: seq<string>)
    ensures var ms := AllMatchesFrom(text, 0, Date);
      |r| == |ms| && forall k :: 0 <= k < |ms| ==> WellFormedMatch(text, ms[k], "date") && r[k] == DateText(Captured(text, ms[k]))
    ensures forall k :: 0 <= k < |r| ==> forall c :: c in r[k] ==> IsValueChar(c)
  {
    DateMatchesWellFormed(text);
    DateEntries(text, AllMatchesFrom(text, 0, Date))
  }

  /** `extractMetadataFromText`, filling the metadata object field by field. */
  method ExtractMetadataFromText(text: string) returns (r: Option<Metadata>)
    ensures r == ScrapedMetadata(text)
  {
    var metadata: Metadata := map[];
    var patientName := FieldValue(text, PatientName);
    if patientName.Some? {
      metadata := metadata["patientName" := StrValue(patientName.value)];
    }
    var dates := TextDates(text);
    if |dates| > 0 {
      metadata := metadata["dates" := ListValue(dates)];
    }
    var diagnosis := FieldValue(text, Diagnosis);
    if diagnosis.Some? {
      metadata := metadata["diagnosis" := StrValue(diagnosis.value)];
    }
    assert Scrape(text) == Scraped(patientName, dates, diagnosis);
    r := if metadata.Keys != {} then Some(metadata) else None;
  }

  // ---------------------------------------------------------------- handlers

  /** The preview of a text file: its first 200 characters, with `...`
      when it is longer. */
  function TextPreview(text: string): (r: string)
    ensures |text| <= 200 ==> r == text
    ensures |text| > 200 ==> r == text[..200] + "..." && |r| == 203
  {
    Abbreviate(text, 200)
  }

  /** The metadata after scraping: the scraped fields override. */
  function WithScraped(metadata: Metadata, text: string): (r: Metadata)
    ensures ScrapedMetadata(text).None? ==> r == metadata
    ensures ScrapedMetadata(text).Some? ==>
      r.Keys == metadata.Keys + ScrapedMetadata(text).value.Keys &&
      forall k :: k in r ==> r[k] == if k in ScrapedMetadata(text).value then ScrapedMetadata(text).value[k] else metadata[k]
  {
    match ScrapedMetadata(text)
    case None => metadata
    case Some(scraped) => metadata + scraped
  }

  /** `processTextFile`: for string content, the type, a preview and the
      scraped metadata; anything else is left alone. */
  method ProcessTextFile(fileData: Document)
    modifies fileData
    ensures old(fileData.content).Plain? ==>
      fileData.Snapshot() == old(fileData.Snapshot()).(
        documentType := DetectDocumentType(old(fileData.Snapshot())),
        preview := Some(TextPreview(old(fileData.content).text)),
        metadata := WithScraped(old(fileData.metadata), old(fileData.content).text))
    ensures !old(fileData.content).Plain? ==> fileData.Snapshot() == old(fileData.Snapshot())
  {
    if fileData.content.Plain? {
      ghost var d := fileData.Snapshot();
      var text := fileData.content.text;
      fileData.documentType := DetectDocumentType(fileData.Snapshot());
      fileData.preview := Some(TextPreview(text));
      ghost var typed := fileData.Snapshot();
      assert typed == d.(documentType := DetectDocumentType(d), preview := Some(TextPreview(text)));
      var metadata := ExtractMetadataFromText(text);
      MergeMetadata(fileData, metadata);
      TextFileMerged(d, typed, text, metadata, fileData.metadata);
    }
  }

  /** `fileData.metadata = {...fileData.metadata, ...metadata}` when
      anything was scraped: the scraped keys override. */
  method MergeMetadata(fileData: Document, metadata: Option<Metadata>)
    modifies fileData
    ensures fileData.Snapshot() == old(fileData.Snapshot()).(
      metadata := if metadata.Some? then old(fileData.metadata) + metadata.value else old(fileData.metadata))
  {
    if metadata.Some? {
      fileData.metadata := fileData.metadata + metadata.value;
    }
  }

  /** The text-file step in values: the typed and previewed document with
      the scraped metadata merged in. */
  lemma TextFileMerged(d: Doc, typed: Doc, text: string, scraped: Option<Metadata>, merged: Metadata)
    requires typed == d.(documentType := DetectDocumentType(d), preview := Some(TextPreview(text)))
    requires scraped == ScrapedMetadata(text)
    requires merged == if scraped.Some? then typed.metadata + scraped.value else typed.metadata
    ensures typed.(metadata := merged) == d.(documentType := DetectDocumentType(d), preview := Some(TextPreview(text)),
      metadata := WithScraped(d.metadata, text))
  {
  }

  /** What `startsWith` throws on content that is not a string. */
  const NotAStringError: string := "fileData.content.startsWith is not a function"

  /** `processPdfFile`: marks the metadata as PDF, clears the extracted text
      of a data-URL PDF, then sets the type. On content that is neither a
      string nor missing the prefix test throws, after the metadata update. */
  method ProcessPdfFile(fileData: Document) returns (thrown: Option<string>)
    modifies fileData
    ensures thrown.Some? <==> old(fileData.content).Structured?
    ensures thrown.Some? ==> (thrown.value == NotAStringError &&
      fileData.Snapshot() == old(fileData.Snapshot()).(metadata := old(fileData.metadata)["contentType" := StrValue("pdf")]))
    ensures thrown.None? ==>
      fileData.Snapshot() == old(fileData.Snapshot()).(
        metadata := old(fileData.metadata)["contentType" := StrValue("pdf")],
        extractedText := if old(fileData.content).Plain? && StartsWith(old(fileData.content).text, DataPrefix)
                         then Some("") else old(fileData.extractedText),
        documentType := DetectDocumentType(old(fileData.Snapshot())))
  {
    fileData.metadata := fileData.metadata["contentType" := StrValue("pdf")];
    match fileData.content {
      case Structured(_) =>
        return Some(NotAStringError);
      case Plain(text) =>
        if StartsWith(text, DataPrefix) {
          fileData.extractedText := Some("");
        }
      case NoContent =>
    }
    fileData.documentType := DetectDocumentType(fileData.Snapshot());
    thrown := None;
  }

  predicate IsSlash(c: char) { c == '/' }

  /** The second `/`-separated part of a MIME type: the text between its
      first `/` and the next one (or the end); nothing without a `/`. */
  function ImageFormat(mimeType: string): (r: Option<string>)
    ensures var i := IndexWhere(mimeType, IsSlash, 0);
      (r.Some? <==> i < |mimeType|) &&
      (r.Some? ==> r.value == mimeType[i + 1..IndexWhere(mimeType, IsSlash, i + 1)])
    ensures r.Some? ==> '/' !in r.value
  {
    SplitWhereFirstPieces(mimeType, IsSlash);
    var parts := SplitWhere(mimeType, IsSlash);
    if |parts| > 1 then Some(parts[1]) else None
  }

  /** `processImageFile`: image metadata (with the format when the MIME type
      names one), then the type from the name. */
  method ProcessImageFile(fileData: Document)
    modifies fileData
    ensures var tagged := old(fileData.metadata)["contentType" := StrValue("image")];
      fileData.Snapshot() == old(fileData.Snapshot()).(
        metadata := if ImageFormat(old(fileData.mimeType)).Some?
                    then tagged["format" := StrValue(ImageFormat(old(fileData.mimeType)).value)] else tagged,
        documentType := DetectDocumentType(old(fileData.Snapshot())))
  {
    var metadata := fileData.metadata["contentType" := StrValue("image")];
    var format := ImageFormat(fileData.mimeType);
    if format.Some? {
      metadata := metadata["format" := StrValue(format.value)];
    }
    fileData.metadata := metadata;
    fileData.documentType := DetectDocumentType(fileData.Snapshot());
  }

  /** `processGenericFile`: the type from the name. */
  method ProcessGenericFile(fileData: Document)
    modifies fileData
    ensures fileData.Snapshot() == old(fileData.Snapshot()).(documentType := DetectDocumentType(old(fileData.Snapshot())))
  {
    fileData.documentType := DetectDocumentType(fileData.Snapshot());
  }

  // ---------------------------------------------------------------- registry

  const RegistryCollection: string := "documentRegistry"

  /** The registry entry of a processed file. */
  function RegistryEntry(d: Doc, now: int): (r: Doc)
    ensures r.originalFilename == if d.originalFilename == "" then d.filename else d.originalFilename
    ensures r.documentType == if d.documentType == "" then "unknown" else d.documentType
    ensures r.documentType != "" && r.status == "processed"
    ensures r.searchTerms == SearchTerms(d) && r.uploadDate == Some(now)
    ensures r.filename == d.filename && r.mimeType == d.mimeType && r.filesize == d.filesize
    ensures r.content == NoContent && r.metadata == map[] && r.id.None?
  {
    Doc(None, d.filename,
        if d.originalFilename == "" then d.filename else d.originalFilename,
        d.mimeType, d.filesize, NoContent,
        if d.documentType == "" then "unknown" else d.documentType,
        map[], None, None, Some(now), "processed", SearchTerms(d))
  }

  /** `registerProcessedFile`: stores the entry in the registry collection
      and reports whether that worked, never failing itself. */
  method RegisterProcessedFile(fileData: Document, now: nat, insert: Inserter) returns (ok: bool)
    ensures ok <==>
      StoreOutcome(Prepared(RegistryEntry(fileData.Snapshot(), now), StoreOptions(RegistryCollection, map[]), now),
                   RegistryCollection, now, insert).Success?
  {
    var searchTerms := GenerateSearchTerms(fileData.Snapshot());
    var d := fileData.Snapshot();
    var entry := Doc(None, d.filename,
        if d.originalFilename == "" then d.filename else d.originalFilename,
        d.mimeType, d.filesize, NoContent,
        if d.documentType == "" then "unknown" else d.documentType,
        map[], None, None, Some(now), "processed", searchTerms);
    assert entry == RegistryEntry(d, now);
    var registryEntry := new Document(entry);
    var stored := StoreDocument(registryEntry, StoreOptions(RegistryCollection, map[]), now, insert);
    ok := stored.Success?;
  }

  // ---------------------------------------------------------------- processing

  /** What `processFile` answers. */
  datatype ProcessReply = ProcessReply(success: bool, message: string, documentType: string)

  /** The document after the handler its MIME type selects, when that
      handler does not throw: each handler's own update, and a text handler
      that finds no string content changes nothing. */
  function Processed(d: Doc): Doc {
    match HandlerFor(d.mimeType)
    case TextHandler =>
      if d.content.Plain? then
        d.(documentType := DetectDocumentType(d), preview := Some(TextPreview(d.content.text)),
           metadata := WithScraped(d.metadata, d.content.text))
      else d
    case ImageHandler =>
      var tagged := d.metadata["contentType" := StrValue("image")];
      var format := ImageFormat(d.mimeType);
      d.(metadata := if format.Some? then tagged["format" := StrValue(format.value)] else tagged,
         documentType := DetectDocumentType(d))
    case PdfHandler =>
      d.(metadata := d.metadata["contentType" := StrValue("pdf")],
         extractedText := if d.content.Plain? && StartsWith(d.content.text, DataPrefix) then Some("") else d.extractedText,
         documentType := DetectDocumentType(d))
    case GenericHandler =>
      d.(documentType := DetectDocumentType(d))
  }

  /** `processFile`: the handler for the MIME type, then the registry entry;
      only the PDF handler's throw makes it fail, after it has tagged the
      metadata. */
  method ProcessFile(fileData: Document, now: nat, insert: Inserter) returns (r: Result<ProcessReply, Failure>)
    modifies fileData
    ensures r.Failure? <==> HandlerFor(old(fileData.mimeType)) == PdfHandler && old(fileData.content).Structured?
    ensures r.Failure? ==> r.error == MeteorError("file-processing-error", NotAStringError)
    ensures r.Failure? ==>
      fileData.Snapshot() == old(fileData.Snapshot()).(metadata := old(fileData.metadata)["contentType" := StrValue("pdf")])
    ensures r.Success? ==> fileData.Snapshot() == Processed(old(fileData.Snapshot()))
    ensures r.Success? ==>
      r.value == ProcessReply(true, "File " + fileData.filename + " processed successfully", fileData.documentType)
  {
    var handler := HandlerFor(fileData.mimeType);
    match handler {
      case TextHandler => ProcessTextFile(fileData);
      case ImageHandler => ProcessImageFile(fileData);
      case PdfHandler =>
        var thrown := ProcessPdfFile(fileData);
        if thrown.Some? {
          return Failure(MeteorError("file-processing-error", thrown.value));
        }
      case GenericHandler => ProcessGenericFile(fileData);
    }
    var _ := RegisterProcessedFile(fileData, now, insert);
    r := Success(ProcessReply(true, "File " + fileData.filename + " processed successfully", fileData.documentType));
  }
}
