/** The PDF side of the document layer: turning a base64 PDF into page-marked
    text, pulling one named section out of that text in three successive
    ways, surveying which sections a document has, and guessing the kind of
    document from keyword scores. The PDF library is a parameter (`decode`)
    that yields the text items of each page, or nothing when it fails. */
module PdfExtractor {
  import opened Wrappers
  import opened Text
  import opened Documents

  /** Each page's text items, in page order. */
  type Pages = seq<seq<string>>

  /** The PDF library: a payload gives its pages, or `None` when decoding or
      loading throws. */
  type Decoder = Content -> Option<Pages>

  // ---------------------------------------------------------------- payload

  /** The payload with a leading data-URL prefix removed. */
  function StripDataPrefix(data: string): (r: string)
    ensures StartsWith(data, DataPrefix) ==> data == DataPrefix + r
    ensures !StartsWith(data, DataPrefix) ==> r == data
  {
    if StartsWith(data, DataPrefix) then data[|DataPrefix|..] else data
  }

  /** The prefix is removed exactly once: whatever follows it, even another
      prefix, is kept. */
  lemma StripDataPrefixOnce(rest: string)
    ensures StripDataPrefix(DataPrefix + rest) == rest
  {
    assert (DataPrefix + rest)[..|DataPrefix|] == DataPrefix;
  }

  /** What the PDF library is handed: string content without its prefix,
      anything else as it is. */
  function Payload(data: Content): Content {
    match data
    case Plain(s) => Plain(StripDataPrefix(s))
    case _ => data
  }

  // ---------------------------------------------------------------- pages

  /** The marker line that opens page `i`. */
  function Marker(i: nat): string {
    "--- Page " + NatToString(i) + " ---\n"
  }

  /** Page `i`'s block: its marker, its items joined by single spaces, and a
      blank line. */
  function PageBlock(i: nat, items: seq<string>): string {
    Marker(i) + JoinWith(items, " ") + "\n\n"
  }

  /** The blocks of `pages`, numbered from `first`. */
  function BlocksFrom(pages: Pages, first: nat): string
    decreases |pages|
  {
    if pages == [] then "" else PageBlock(first, pages[0]) + BlocksFrom(pages[1..], first + 1)
  }

  /** The full text of a document: its pages' blocks numbered from 1. */
  function FullText(pages: Pages): string {
    BlocksFrom(pages, 1)
  }

  /** Blocks of consecutive runs of pages concatenate. */
  lemma {:induction false} BlocksSplit(ps: Pages, qs: Pages, first: nat)
    ensures BlocksFrom(ps + qs, first) == BlocksFrom(ps, first) + BlocksFrom(qs, first + |ps|)
    decreases |ps|
  {
    if ps == [] {
      assert ps + qs == qs;
    } else {
      assert (ps + qs)[1..] == ps[1..] + qs;
      BlocksSplit(ps[1..], qs, first + 1);
    }
  }

  /** Page `k`'s block (its marker first) sits right after the blocks of pages
      1 to `k - 1` and before those of the later pages; so the markers appear
      once per page, in ascending order. */
  lemma PageBlockPosition(pages: Pages, k: nat)
    requires 1 <= k <= |pages|
    ensures FullText(pages) == FullText(pages[..k - 1]) + PageBlock(k, pages[k - 1]) + BlocksFrom(pages[k..], k + 1)
  {
    var before := pages[..k - 1];
    var after := [pages[k - 1]] + pages[k..];
    assert pages == before + after;
    BlocksSplit(before, after, 1);
    assert after[1..] == pages[k..];
    assert BlocksFrom(after, k) == PageBlock(k, pages[k - 1]) + BlocksFrom(pages[k..], k + 1);
  }

  /** The page loop: appends each page's block to the text, in page order. */
  method AssemblePages(pages: Pages) returns (fullText: string)
    ensures fullText == FullText(pages)
  {
    fullText := "";
    for i := 1 to |pages| + 1
      invariant fullText == FullText(pages[..i - 1])
    {
      fullText := fullText + PageBlock(i, pages[i - 1]);
      assert pages[..i] == pages[..i - 1] + [pages[i - 1]];
      BlocksSplit(pages[..i - 1], [pages[i - 1]], 1);
    }
    assert pages[..|pages|] == pages;
  }

  /** `extractTextFromBase64PDF`, as a value: missing or empty data is refused
      before decoding; a failing library is reported as an extraction error. */
  function ExtractText(data: Content, decode: Decoder): (r: Result<string, Failure>)
    ensures !data.Truthy() ==> r == Failure(MeteorError("invalid-pdf", "No PDF data provided"))
    ensures data.Truthy() ==> (r.Success? <==> decode(Payload(data)).Some?)
    ensures r.Success? ==> r.value == FullText(decode(Payload(data)).value)
  {
    if !data.Truthy() then Failure(MeteorError("invalid-pdf", "No PDF data provided"))
    else match decode(Payload(data))
      case None => Failure(MeteorError("pdf-extraction-error", "PDF could not be read"))
      case Some(pages) => Success(FullText(pages))
  }

  /** `extractTextFromBase64PDF` itself, with its page loop. */
  method ExtractTextFromBase64Pdf(data: Content, decode: Decoder) returns (r: Result<string, Failure>)
    ensures r == ExtractText(data, decode)
  {
    if !data.Truthy() {
      return Failure(MeteorError("invalid-pdf", "No PDF data provided"));
    }
    var pages := decode(Payload(data));
    if pages.None? {
      return Failure(MeteorError("pdf-extraction-error", "PDF could not be read"));
    }
    var text := AssemblePages(pages.value);
    r := Success(text);
  }

  // ---------------------------------------------------------------- sections

  /** The section table: each known section name with the header texts that
      announce it, in declaration order. */
  const Aliases: seq<(string, seq<string>)> := [
    ("skills", ["skills", "technical skills", "core competencies", "key skills", "expertise"]),
    ("experience", ["experience", "work experience", "professional experience", "employment history"]),
    ("education", ["education", "academic background", "qualifications"]),
    ("summary", ["summary", "executive summary", "abstract", "overview"]),
    ("introduction", ["introduction", "background", "context"]),
    ("methodology", ["methodology", "methods", "approach", "procedure"]),
    ("results", ["results", "findings", "analysis", "data analysis"]),
    ("conclusion", ["conclusion", "conclusions", "final remarks"]),
    ("recommendations", ["recommendations", "next steps", "proposed actions"]),
    ("parties", ["parties", "between", "this agreement"]),
    ("terms", ["terms", "conditions", "provisions"]),
    ("payment", ["payment", "compensation", "fees", "financial terms"]),
    ("abstract", ["abstract", "summary"]),
    ("literature", ["literature review", "related work", "previous work"]),
    ("discussion", ["discussion", "interpretation"]),
    ("references", ["references", "bibliography", "works cited"])
  ]

  /** The table entry for `key`, searching from index `i`. */
  function LookupFrom(key: string, i: nat): (r: Option<seq<string>>)
    ensures r.Some? ==> exists k :: i <= k < |Aliases| && Aliases[k] == (key, r.value)
    ensures r.None? ==> forall k :: i <= k < |Aliases| ==> Aliases[k].0 != key
    decreases |Aliases| - i
  {
    if i >= |Aliases| then None
    else if Aliases[i].0 == key then Some(Aliases[i].1)
    else LookupFrom(key, i + 1)
  }

  /** The header texts tried for a requested section: the table entry for its
      lower-cased name, or the name itself when the table has none. */
  function PossibleHeaders(sectionName: string): (r: seq<string>)
    ensures (exists k :: 0 <= k < |Aliases| && Aliases[k] == (Lower(sectionName), r)) ||
            ((forall k :: 0 <= k < |Aliases| ==> Aliases[k].0 != Lower(sectionName)) && r == [sectionName])
  {
    LookupFrom(Lower(sectionName), 0).GetOr([sectionName])
  }

  // Strategy 1: regular expressions, tried header by header.

  /** The three header patterns are not modelled: `group(text, header, k)` is
      group 2 of the `k`-th pattern's match for `header`, if it matched, and
      `compileError(header)` is the message of the `SyntaxError` that building
      the three patterns around `header` throws, when they are not valid
      regular expressions (a name such as `C++`). */
  datatype RegexOracle = RegexOracle(
    group: (string, string, nat) -> Option<string>,
    compileError: string -> Option<string>)

  const PatternCount: nat := 3

  /** The first of patterns `k..` whose group 2 is non-empty. */
  function PatternHit(oracle: RegexOracle, text: string, header: string, k: nat): (r: Option<string>)
    ensures r.Some? ==> r.value != [] && exists j :: k <= j < PatternCount && oracle.group(text, header, j) == r
    ensures r.None? ==> forall j :: k <= j < PatternCount ==> oracle.group(text, header, j).None? || oracle.group(text, header, j).value == []
    decreases PatternCount - k
  {
    if k >= PatternCount then None
    else match oracle.group(text, header, k)
      case Some(c) => if c != [] then Some(c) else PatternHit(oracle, text, header, k + 1)
      case None => PatternHit(oracle, text, header, k + 1)
  }

  /** What one header yields: the first non-empty group 2, trimmed. */
  function HeaderResult(oracle: RegexOracle, text: string, header: string): string {
    match PatternHit(oracle, text, header, 0)
    case Some(c) => Trim(c)
    case None => ""
  }

  /** The headers from `i` on are tried in turn; the first one yielding
      non-empty content wins, and an empty trimmed capture moves on to the
      next header. */
  function RegexStageFrom(oracle: RegexOracle, text: string, headers: seq<string>, i: nat): (r: string)
    decreases |headers| - i
  {
    if i >= |headers| then ""
    else if HeaderResult(oracle, text, headers[i]) != "" then HeaderResult(oracle, text, headers[i])
    else RegexStageFrom(oracle, text, headers, i + 1)
  }

  /** Strategy 1 is empty exactly when every header yields nothing. */
  lemma {:induction false} RegexStageEmpty(oracle: RegexOracle, text: string, headers: seq<string>, i: nat)
    ensures RegexStageFrom(oracle, text, headers, i) == "" <==>
      forall j :: i <= j < |headers| ==> HeaderResult(oracle, text, headers[j]) == ""
    decreases |headers| - i
  {
    if i < |headers| && HeaderResult(oracle, text, headers[i]) == "" {
      RegexStageEmpty(oracle, text, headers, i + 1);
    }
  }

  /** A non-empty result of strategy 1 is the result of the first header
      yielding anything. */
  lemma {:induction false} RegexStageFirstHit(oracle: RegexOracle, text: string, headers: seq<string>, i: nat)
    requires RegexStageFrom(oracle, text, headers, i) != ""
    ensures exists j :: i <= j < |headers| && RegexStageFrom(oracle, text, headers, i) == HeaderResult(oracle, text, headers[j]) &&
                        (forall l :: i <= l < j ==> HeaderResult(oracle, text, headers[l]) == "")
    decreases |headers| - i
  {
    var h := HeaderResult(oracle, text, headers[i]);
    if h == "" {
      RegexStageFirstHit(oracle, text, headers, i + 1);
      var j :| i + 1 <= j < |headers| && RegexStageFrom(oracle, text, headers, i + 1) == HeaderResult(oracle, text, headers[j]) &&
        forall l :: i + 1 <= l < j ==> HeaderResult(oracle, text, headers[l]) == "";
      assert forall l :: i <= l < j ==> HeaderResult(oracle, text, headers[l]) == "";
    } else {
      assert RegexStageFrom(oracle, text, headers, i) == HeaderResult(oracle, text, headers[i]);
    }
  }

  /** The pattern loop for one header: stops at the first non-empty group 2
      and trims it. */
  method TryPatterns(oracle: RegexOracle, text: string, header: string) returns (content: string)
    ensures content == HeaderResult(oracle, text, header)
  {
    content := "";
    var k := 0;
    while k < PatternCount
      invariant k <= PatternCount
      invariant PatternHit(oracle, text, header, 0) == PatternHit(oracle, text, header, k)
    {
      var m := oracle.group(text, header, k);
      if m.Some? && m.value != [] {
        return Trim(m.value);
      }
      k := k + 1;
    }
  }

  /** What strategy 1 throws from header `i` on: the headers are tried in
      turn until one yields content, and each header's patterns are built
      before they are tried, so the first header reached whose patterns do
      not compile ends the stage with its `SyntaxError`. */
  function RegexStageError(oracle: RegexOracle, text: string, headers: seq<string>, i: nat): Option<string>
    decreases |headers| - i
  {
    if i >= |headers| then None
    else if oracle.compileError(headers[i]).Some? then oracle.compileError(headers[i])
    else if HeaderResult(oracle, text, headers[i]) != "" then None
    else RegexStageError(oracle, text, headers, i + 1)
  }

  /** Headers `i..j` all compile and yield nothing, so header `j` is reached. */
  predicate Reached(oracle: RegexOracle, text: string, headers: seq<string>, i: nat, j: nat) {
    j <= |headers| &&
    forall l :: i <= l < j ==> oracle.compileError(headers[l]).None? && HeaderResult(oracle, text, headers[l]) == ""
  }

  /** Strategy 1 throws exactly when it reaches a header whose patterns do not
      compile, and the error is that header's. */
  lemma {:induction false} RegexStageErrorAt(oracle: RegexOracle, text: string, headers: seq<string>, i: nat)
    ensures RegexStageError(oracle, text, headers, i).Some? <==>
      exists j :: i <= j < |headers| && oracle.compileError(headers[j]).Some? && Reached(oracle, text, headers, i, j)
    ensures forall j :: i <= j < |headers| && oracle.compileError(headers[j]).Some? && Reached(oracle, text, headers, i, j) ==>
      RegexStageError(oracle, text, headers, i) == oracle.compileError(headers[j])
    decreases |headers| - i
  {
    if i < |headers| {
      if oracle.compileError(headers[i]).Some? {
        assert Reached(oracle, text, headers, i, i);
        forall j | i <= j < |headers| && oracle.compileError(headers[j]).Some? && Reached(oracle, text, headers, i, j)
          ensures RegexStageError(oracle, text, headers, i) == oracle.compileError(headers[j])
        {
          assert j == i;
        }
      } else if HeaderResult(oracle, text, headers[i]) != "" {
        forall j | i <= j < |headers| && Reached(oracle, text, headers, i, j)
          ensures j == i
        {
        }
      } else {
        RegexStageErrorAt(oracle, text, headers, i + 1);
        forall j | i <= j < |headers| && Reached(oracle, text, headers, i, j) && oracle.compileError(headers[j]).Some?
          ensures i + 1 <= j && Reached(oracle, text, headers, i + 1, j)
        {
        }
        forall j | i + 1 <= j < |headers| && Reached(oracle, text, headers, i + 1, j)
          ensures Reached(oracle, text, headers, i, j)
        {
        }
      }
    }
  }

  /** Strategy 1's outer loop: headers in order, leaving as soon as content is
      found, and ending with the error of a header whose patterns do not
      compile. */
  method RegexStage(oracle: RegexOracle, text: string, headers: seq<string>) returns (content: string, error: Option<string>)
    ensures error == RegexStageError(oracle, text, headers, 0)
    ensures error.None? ==> content == RegexStageFrom(oracle, text, headers, 0)
  {
    content := "";
    error := None;
    var i := 0;
    while i < |headers| && content == ""
      invariant i <= |headers| && error.None?
      invariant content == "" ==> RegexStageFrom(oracle, text, headers, 0) == RegexStageFrom(oracle, text, headers, i) &&
                                  RegexStageError(oracle, text, headers, 0) == RegexStageError(oracle, text, headers, i)
      invariant content != "" ==> content == RegexStageFrom(oracle, text, headers, 0) && RegexStageError(oracle, text, headers, 0).None?
    {
      error := oracle.compileError(headers[i]);
      if error.Some? {
        return;
      }
      content := TryPatterns(oracle, text, headers[i]);
      RegexStageUnfold(oracle, text, headers, i);
      i := i + 1;
    }
  }

  /** One header of strategy 1 whose patterns compile: its content ends the
      stage without error, and nothing moves on to the next header. */
  lemma RegexStageUnfold(oracle: RegexOracle, text: string, headers: seq<string>, i: nat)
    requires i < |headers| && oracle.compileError(headers[i]).None?
    ensures HeaderResult(oracle, text, headers[i]) != "" ==>
      RegexStageFrom(oracle, text, headers, i) == HeaderResult(oracle, text, headers[i]) &&
      RegexStageError(oracle, text, headers, i).None?
    ensures HeaderResult(oracle, text, headers[i]) == "" ==>
      RegexStageFrom(oracle, text, headers, i) == RegexStageFrom(oracle, text, headers, i + 1) &&
      RegexStageError(oracle, text, headers, i) == RegexStageError(oracle, text, headers, i + 1)
  {
  }

  // Strategy 2: the line scanner.

  /** A trimmed line announces one of `headers` when it is short and holds one
      of them, ignoring case. */
  predicate AnnouncesAny(line: string, headers: seq<string>) {
    |line| < 50 && exists h | h in headers :: Contains(Lower(line), Lower(h))
  }

  /** The line announces the table section at index `k`. */
  predicate Announces(line: string, k: nat)
    requires k < |Aliases|
  {
    AnnouncesAny(line, Aliases[k].1)
  }

  /** The line announces a table section other than `target`. */
  predicate EndsSection(line: string, target: string) {
    exists k: nat | k < |Aliases| :: Aliases[k].0 != target && Announces(line, k)
  }

  /** The line announces the table section `target`. */
  predicate StartsSection(line: string, target: string) {
    exists k: nat | k < |Aliases| :: Aliases[k].0 == target && Announces(line, k)
  }

  /** The scanner's variables. */
  datatype ScanState = ScanState(inSection: bool, currentSection: string, sectionLines: seq<string>)

  const ScanStart: ScanState := ScanState(false, "", [])

  /** One scanned line (already trimmed): inside the section, another
      section's header ends it; outside, the target's header starts it and
      becomes the current header; a line inside the section is collected
      unless it equals the current header. */
  function ScanStep(st: ScanState, line: string, target: string): ScanState {
    var ended := st.inSection && EndsSection(line, target);
    var started := !st.inSection && StartsSection(line, target);
    var inSection := if ended then false else if started then true else st.inSection;
    var current := if started then line else st.currentSection;
    var collected := if inSection && line != current then st.sectionLines + [line] else st.sectionLines;
    ScanState(inSection, current, collected)
  }

  /** The scanner's state after the given (untrimmed) lines. */
  function Scan(lines: seq<string>, target: string): ScanState
    decreases |lines|
  {
    if lines == [] then ScanStart
    else ScanStep(Scan(lines[..|lines| - 1], target), Trim(lines[|lines| - 1]), target)
  }

  /** The section loop for one line: walks the table in order and stops at the
      first section that ends or starts the target section. */
  method ScanOneLine(st: ScanState, line: string, target: string) returns (next: ScanState)
    ensures next == ScanStep(st, line, target)
  {
    var inSection := st.inSection;
    var current := st.currentSection;
    var k := 0;
    while k < |Aliases|
      invariant k <= |Aliases|
      invariant inSection == st.inSection && current == st.currentSection
      invariant forall j :: 0 <= j < k ==> !(st.inSection && Aliases[j].0 != target && Announces(line, j))
      invariant forall j :: 0 <= j < k ==> !(!st.inSection && Aliases[j].0 == target && Announces(line, j))
    {
      var section := Aliases[k].0;
      if inSection && section != target {
        if AnnouncesAny(line, Aliases[k].1) {
          inSection := false;
          break;
        }
      } else if !inSection && section == target {
        if AnnouncesAny(line, Aliases[k].1) {
          inSection := true;
          current := line;
          break;
        }
      }
      k := k + 1;
    }
    var collected := st.sectionLines;
    if inSection && line != current {
      collected := collected + [line];
    }
    next := ScanState(inSection, current, collected);
  }

  /** Strategy 2's outer loop over the lines of the text. */
  method ScanLines(lines: seq<string>, target: string) returns (st: ScanState)
    ensures st == Scan(lines, target)
  {
    st := ScanStart;
    for i := 0 to |lines|
      invariant st == Scan(lines[..i], target)
    {
      st := ScanOneLine(st, Trim(lines[i]), target);
      assert lines[..i + 1][..i] == lines[..i];
    }
    assert lines[..|lines|] == lines;
  }

  /** A name that is not a table key never enters the section state. */
  lemma {:induction false} ScanUnknownSection(lines: seq<string>, target: string)
    requires forall k :: 0 <= k < |Aliases| ==> Aliases[k].0 != target
    ensures Scan(lines, target) == ScanStart
    decreases |lines|
  {
    if lines != [] {
      ScanUnknownSection(lines[..|lines| - 1], target);
    }
  }

  /** No collected line is a header of another table section: such a line
      ends the section instead of being collected. */
  lemma {:induction false} ScanSkipsOtherHeaders(lines: seq<string>, target: string)
    ensures forall l :: l in Scan(lines, target).sectionLines ==> !EndsSection(l, target)
    decreases |lines|
  {
    if lines != [] {
      ScanSkipsOtherHeaders(lines[..|lines| - 1], target);
    }
  }

  /** One step collects at most the scanned line, and enters the section or
      starts collecting only on a line announcing the target. */
  lemma ScanStepOrigin(st: ScanState, line: string, target: string)
    ensures forall l :: l in ScanStep(st, line, target).sectionLines ==> l in st.sectionLines || l == line
    ensures var next := ScanStep(st, line, target);
      (next.inSection || next.sectionLines != []) ==> (st.inSection || st.sectionLines != [] || StartsSection(line, target))
  {
  }

  /** Every collected line is a trimmed line of the input. */
  lemma {:induction false} ScanCollectsInputLines(lines: seq<string>, target: string)
    ensures forall l :: l in Scan(lines, target).sectionLines ==> exists i :: 0 <= i < |lines| && l == Trim(lines[i])
    decreases |lines|
  {
    if lines != [] {
      var n := |lines| - 1;
      var prev := lines[..n];
      var before := Scan(prev, target);
      ScanCollectsInputLines(prev, target);
      ScanStepOrigin(before, Trim(lines[n]), target);
      assert Scan(lines, target) == ScanStep(before, Trim(lines[n]), target);
      forall l | l in before.sectionLines
        ensures exists i :: 0 <= i < |lines| && l == Trim(lines[i])
      {
        var i :| 0 <= i < |prev| && l == Trim(prev[i]);
        assert lines[i] == prev[i];
      }
    }
  }

  /** The scanner is in the section, or has collected something, only
      after some line announced the target. */
  lemma {:induction false} ScanCollectsAfterHeader(lines: seq<string>, target: string)
    ensures (Scan(lines, target).inSection || Scan(lines, target).sectionLines != []) ==>
      exists i :: 0 <= i < |lines| && StartsSection(Trim(lines[i]), target)
    decreases |lines|
  {
    if lines != [] {
      var n := |lines| - 1;
      var prev := lines[..n];
      var before := Scan(prev, target);
      ScanCollectsAfterHeader(prev, target);
      ScanStepOrigin(before, Trim(lines[n]), target);
      ScanUnfold(lines, target);
      if before.inSection || before.sectionLines != [] {
        AnnouncedInPrefix(lines, n, target);
      }
    }
  }

  /** The scan of non-empty input is one step after the scan of its front. */
  lemma ScanUnfold(lines: seq<string>, target: string)
    requires lines != []
    ensures Scan(lines, target) == ScanStep(Scan(lines[..|lines| - 1], target), Trim(lines[|lines| - 1]), target)
  {
  }

  lemma AnnouncedInPrefix(lines: seq<string>, n: nat, target: string)
    requires n <= |lines|
    requires exists i :: 0 <= i < n && StartsSection(Trim(lines[..n][i]), target)
    ensures exists i :: 0 <= i < |lines| && StartsSection(Trim(lines[i]), target)
  {
    var i :| 0 <= i < n && StartsSection(Trim(lines[..n][i]), target);
    assert lines[..n][i] == lines[i];
  }

  /** The collected lines joined by line breaks, or nothing when none were
      collected. */
  function ScanContent(text: string, target: string): string {
    var st := Scan(Lines(text), target);
    if |st.sectionLines| > 0 then JoinWith(st.sectionLines, "\n") else ""
  }

  // Strategy 3: paragraphs holding a keyword.

  /** The end of a match of `/\n\s*\n/` starting at `i`: the white space after
      the first line break is taken greedily and given back up to its last
      line break. */
  function BreakEnd(s: string, i: nat): (r: Option<nat>)
    requires i <= |s|
    ensures r.Some? ==> i + 2 <= r.value <= |s| && s[i] == '\n' && s[r.value - 1] == '\n'
  {
    if i < |s| && s[i] == '\n' then
      match LastWhere(s, i + 1, RunEnd(s, i + 1, IsSpace), IsNewline)
      case Some(j) => Some(j + 1)
      case None => None
    else None
  }

  /** `s.split(/\n\s*\n/)` from piece start `p`, searching at `q`. */
  function ParagraphsFrom(s: string, p: nat, q: nat): (r: seq<string>)
    requires p <= q <= |s|
    ensures |r| >= 1
    decreases |s| - q
  {
    if q >= |s| then [s[p..]]
    else match BreakEnd(s, q)
      case Some(e) => [s[p..q]] + ParagraphsFrom(s, e, e)
      case None => ParagraphsFrom(s, p, q + 1)
  }

  /** The blank-line-separated paragraphs of a text. */
  function Paragraphs(s: string): seq<string> {
    ParagraphsFrom(s, 0, 0)
  }

  /** `s.replace(/\n\s*\n/g, '\n\n')` from `i`: every separator, scanning
      left to right, replaced by one blank line. */
  function BreaksNormalized(s: string, i: nat): string
    requires i <= |s|
    decreases |s| - i
  {
    if i >= |s| then []
    else match BreakEnd(s, i)
      case Some(e) => "\n\n" + BreaksNormalized(s, e)
      case None => [s[i]] + BreaksNormalized(s, i + 1)
  }

  /** Joining the paragraphs with a blank line gives the text with each
      separator normalised to a blank line: the paragraphs are exactly the
      text between the separators. */
  lemma {:induction false} ParagraphsJoin(s: string, p: nat, q: nat)
    requires p <= q <= |s|
    ensures JoinWith(ParagraphsFrom(s, p, q), "\n\n") == s[p..q] + BreaksNormalized(s, q)
    decreases |s| - q
  {
    if q >= |s| {
      assert s[p..q] + [] == s[p..];
    } else {
      match BreakEnd(s, q)
      case Some(e) =>
        ParagraphsJoin(s, e, e);
        assert s[e..e] + BreaksNormalized(s, e) == BreaksNormalized(s, e);
        ParagraphsJoinAtBreak(s, p, q, e);
      case None =>
        ParagraphsJoin(s, p, q + 1);
        ParagraphsJoinInside(s, p, q);
    }
  }

  lemma ParagraphsJoinAtBreak(s: string, p: nat, q: nat, e: nat)
    requires p <= q < |s| && BreakEnd(s, q) == Some(e)
    requires JoinWith(ParagraphsFrom(s, e, e), "\n\n") == BreaksNormalized(s, e)
    ensures JoinWith(ParagraphsFrom(s, p, q), "\n\n") == s[p..q] + BreaksNormalized(s, q)
  {
    var rest := ParagraphsFrom(s, e, e);
    calc {
      JoinWith(ParagraphsFrom(s, p, q), "\n\n");
      JoinWith([s[p..q]] + rest, "\n\n");
      { JoinCons(s[p..q], rest, "\n\n"); }
      s[p..q] + "\n\n" + BreaksNormalized(s, e);
      { ConcatAssoc(s[p..q], "\n\n", BreaksNormalized(s, e)); }
      s[p..q] + ("\n\n" + BreaksNormalized(s, e));
      s[p..q] + BreaksNormalized(s, q);
    }
  }

  lemma ParagraphsJoinInside(s: string, p: nat, q: nat)
    requires p <= q < |s| && BreakEnd(s, q).None?
    requires JoinWith(ParagraphsFrom(s, p, q + 1), "\n\n") == s[p..q + 1] + BreaksNormalized(s, q + 1)
    ensures JoinWith(ParagraphsFrom(s, p, q), "\n\n") == s[p..q] + BreaksNormalized(s, q)
  {
    assert s[p..q + 1] == s[p..q] + [s[q]];
    ConcatAssoc(s[p..q], [s[q]], BreaksNormalized(s, q + 1));
  }

  /** No paragraph holds two consecutive line breaks: at any such pair a
      separator would have matched. */
  lemma {:induction false} ParagraphsHaveNoBlankLine(s: string, p: nat, q: nat)
    requires p <= q <= |s|
    requires forall k :: p <= k < q ==> BreakEnd(s, k).None?
    ensures forall para :: para in ParagraphsFrom(s, p, q) ==> !Contains(para, "\n\n")
    decreases |s| - q
  {
    forall k | p <= k && k + 1 < |s| && s[k] == '\n' && s[k + 1] == '\n'
      ensures BreakEnd(s, k).Some?
    {
      assert IsSpace(s[k + 1]);
      assert IsNewline(s[k + 1]);
    }
    if q >= |s| {
      NoPairInside(s, p, |s|);
      assert s[p..] == s[p..|s|];
      assert ParagraphsFrom(s, p, q) == [s[p..]];
    } else if BreakEnd(s, q).Some? {
      NoPairInside(s, p, q);
      ParagraphsHaveNoBlankLine(s, BreakEnd(s, q).value, BreakEnd(s, q).value);
    } else {
      ParagraphsHaveNoBlankLine(s, p, q + 1);
    }
  }

  /** A stretch with no separator start before its last character holds no
      pair of line breaks. */
  lemma NoPairInside(s: string, p: nat, q: nat)
    requires p <= q <= |s|
    requires forall k :: p <= k < q ==> BreakEnd(s, k).None?
    requires forall k :: p <= k && k + 1 < |s| && s[k] == '\n' && s[k + 1] == '\n' ==> BreakEnd(s, k).Some?
    ensures !Contains(s[p..q], "\n\n")
  {
    var t := s[p..q];
    forall i: nat | i + 1 < |t|
      ensures !(t[i] == '\n' && t[i + 1] == '\n')
    {
      assert t[i] == s[p + i] && t[i + 1] == s[p + i + 1];
      assert BreakEnd(s, p + i).None?;
    }
    forall i: nat | i <= |t|
      ensures !OccursAt(t, "\n\n", i)
    {
      if i + 2 <= |t| {
        assert t[i..i + 2][0] == t[i] && t[i..i + 2][1] == t[i + 1];
      }
    }
  }

  /** Every keyword, and so every alias, is matched ignoring case. */
  predicate Relevant(para: string, keywords: seq<string>) {
    exists k | k in keywords :: Contains(Lower(para), Lower(k))
  }

  /** The paragraphs holding one of the keywords, in their original order. */
  function KeepRelevant(paras: seq<string>, keywords: seq<string>): (r: seq<string>)
    ensures |r| <= |paras|
    ensures forall p :: p in r <==> p in paras && Relevant(p, keywords)
    ensures |paras| == 1 ==> r == if Relevant(paras[0], keywords) then paras else []
    decreases |paras|
  {
    if paras == [] then []
    else
      var rest := KeepRelevant(paras[1..], keywords);
      assert forall p :: p in paras <==> p == paras[0] || p in paras[1..];
      if Relevant(paras[0], keywords) then [paras[0]] + rest else rest
  }

  /** The filter works paragraph by paragraph: what it keeps of `a + b` is
      what it keeps of `a` followed by what it keeps of `b`, so the kept
      paragraphs stay in their order, each as often as it occurs. */
  lemma {:induction false} KeepRelevantAppend(a: seq<string>, b: seq<string>, keywords: seq<string>)
    ensures KeepRelevant(a + b, keywords) == KeepRelevant(a, keywords) + KeepRelevant(b, keywords)
    decreases |a|
  {
    if a == [] {
      assert a + b == b;
    } else {
      KeepRelevantAppend(a[1..], b, keywords);
      AppendTail(a, b);
      KeepRelevantUnfold(a + b, keywords);
      KeepRelevantUnfold(a, keywords);
      ConcatAssoc(if Relevant(a[0], keywords) then [a[0]] else [], KeepRelevant(a[1..], keywords), KeepRelevant(b, keywords));
    }
  }

  lemma KeepRelevantUnfold(paras: seq<string>, keywords: seq<string>)
    requires paras != []
    ensures KeepRelevant(paras, keywords) ==
      (if Relevant(paras[0], keywords) then [paras[0]] else []) + KeepRelevant(paras[1..], keywords)
  {
  }

  /** The keywords of strategy 3: the possible headers and the raw name. */
  function Keywords(sectionName: string): seq<string> {
    PossibleHeaders(sectionName) + [sectionName]
  }

  /** The relevant paragraphs joined by blank lines, or nothing. */
  function KeywordContent(text: string, sectionName: string): string {
    var kept := KeepRelevant(Paragraphs(text), Keywords(sectionName));
    if |kept| > 0 then JoinWith(kept, "\n\n") else ""
  }

  /** The answer when no strategy finds anything. */
  function NotFoundMessage(sectionName: string): string {
    "No section named \"" + sectionName + "\" found in the document."
  }

  /** What the three strategies find, each running only when the earlier
      ones found nothing; empty when all three come back empty. */
  function StagesContent(oracle: RegexOracle, text: string, sectionName: string): (r: string)
    ensures var first := RegexStageFrom(oracle, text, PossibleHeaders(sectionName), 0);
      var second := ScanContent(text, Lower(sectionName));
      var third := KeywordContent(text, sectionName);
      (r == "" <==> first == "" && second == "" && third == "") &&
      (first != "" ==> r == first) &&
      (first == "" && second != "" ==> r == second) &&
      (first == "" && second == "" ==> r == third)
  {
    var first := RegexStageFrom(oracle, text, PossibleHeaders(sectionName), 0);
    var second := ScanContent(text, Lower(sectionName));
    var third := KeywordContent(text, sectionName);
    if first != "" then first
    else if second != "" then second
    else third
  }

  /** The section content as answered: what the strategies found, and when
      they found nothing a message, never an empty string. */
  function SectionContent(oracle: RegexOracle, text: string, sectionName: string): (r: string)
    ensures r != []
    ensures StagesContent(oracle, text, sectionName) != "" ==> r == StagesContent(oracle, text, sectionName)
    ensures StagesContent(oracle, text, sectionName) == "" ==> r == NotFoundMessage(sectionName)
  {
    var found := StagesContent(oracle, text, sectionName);
    if found != "" then found else NotFoundMessage(sectionName)
  }

  /** The lower-cased names that are properties every object inherits. The
      table lookup finds the inherited value (a function, or the prototype
      object), which is truthy but cannot be iterated. The other inherited
      property names all hold an upper-case letter, so no lower-cased name
      reaches them. */
  const InheritedKeys: set<string> := {"constructor", "__proto__"}

  /** The message of the `TypeError` that iterating such a value throws. */
  const NotIterable := "possibleHeaders is not iterable"

  /** What the strategies throw for a name, if anything: an inherited table
      key fails before any header is tried, and otherwise strategy 1 may reach
      a header whose patterns do not compile; strategies 2 and 3 never throw. */
  function SectionError(oracle: RegexOracle, text: string, sectionName: string): Option<string> {
    if Lower(sectionName) in InheritedKeys then Some(NotIterable)
    else RegexStageError(oracle, text, PossibleHeaders(sectionName), 0)
  }

  /** A name the table does not know is tried as a pattern of its own, so it
      fails exactly when the patterns built around it do not compile. */
  lemma UnknownNameError(oracle: RegexOracle, text: string, sectionName: string)
    requires Lower(sectionName) !in InheritedKeys
    requires forall k :: 0 <= k < |Aliases| ==> Aliases[k].0 != Lower(sectionName)
    ensures SectionError(oracle, text, sectionName) == oracle.compileError(sectionName)
  {
    assert PossibleHeaders(sectionName) == [sectionName];
    assert RegexStageError(oracle, text, [sectionName], 1) == None;
  }

  /** A name whose headers all compile never makes the strategies throw,
      unless it is an inherited key. */
  lemma CompilingHeadersNeverThrow(oracle: RegexOracle, text: string, sectionName: string)
    requires Lower(sectionName) !in InheritedKeys
    requires forall h :: h in PossibleHeaders(sectionName) ==> oracle.compileError(h).None?
    ensures SectionError(oracle, text, sectionName).None?
  {
    RegexStageErrorAt(oracle, text, PossibleHeaders(sectionName), 0);
  }

  /** `extractSectionFromPDF` as a value: a failure to read the PDF, an
      inherited key or a pattern that does not compile becomes a
      section-extraction error carrying the message of what was thrown. */
  function ExtractSection(data: Content, sectionName: string, decode: Decoder, oracle: RegexOracle): (r: Result<string, Failure>)
    ensures r.Success? <==> ExtractText(data, decode).Success? && SectionError(oracle, ExtractText(data, decode).value, sectionName).None?
    ensures r.Success? ==> r.value != [] && r.value == SectionContent(oracle, ExtractText(data, decode).value, sectionName)
    ensures r.Failure? ==> r.error.code == "section-extraction-error"
    ensures ExtractText(data, decode).Failure? ==> r.Failure? && r.error.reason == Message(ExtractText(data, decode).error)
    ensures ExtractText(data, decode).Success? && SectionError(oracle, ExtractText(data, decode).value, sectionName).Some? ==>
      r.Failure? && r.error.reason == SectionError(oracle, ExtractText(data, decode).value, sectionName).value
  {
    match ExtractText(data, decode)
    case Success(text) =>
      (match SectionError(oracle, text, sectionName)
       case Some(m) => Failure(MeteorError("section-extraction-error", m))
       case None => Success(SectionContent(oracle, text, sectionName)))
    case Failure(e) => Failure(MeteorError("section-extraction-error", Message(e)))
  }

  /** `extractSectionFromPDF` with the strategies' loops. */
  method ExtractSectionFromPdf(data: Content, sectionName: string, decode: Decoder, oracle: RegexOracle)
    returns (r: Result<string, Failure>)
    ensures r == ExtractSection(data, sectionName, decode, oracle)
  {
    var full := ExtractTextFromBase64Pdf(data, decode);
    if full.Failure? {
      return Failure(MeteorError("section-extraction-error", Message(full.error)));
    }
    var text := full.value;
    if Lower(sectionName) in InheritedKeys {
      return Failure(MeteorError("section-extraction-error", NotIterable));
    }
    var content, error := RegexStage(oracle, text, PossibleHeaders(sectionName));
    if error.Some? {
      return Failure(MeteorError("section-extraction-error", error.value));
    }
    if content == "" {
      var st := ScanLines(Lines(text), Lower(sectionName));
      if |st.sectionLines| > 0 {
        content := JoinWith(st.sectionLines, "\n");
      }
    }
    if content == "" {
      content := KeywordContent(text, sectionName);
    }
    if content == "" {
      content := NotFoundMessage(sectionName);
    }
    r := Success(content);
  }

  // ---------------------------------------------------------------- survey

  /** The section names the survey looks for. */
  const SurveyPatterns: seq<string> := [
    "summary", "introduction", "abstract", "objective", "background",
    "methodology", "methods", "approach", "procedure",
    "results", "findings", "analysis", "data",
    "discussion", "interpretation", "evaluation",
    "conclusion", "recommendations", "next steps",
    "references", "bibliography", "appendix", "glossary",
    "education", "academic", "qualifications",
    "experience", "employment", "work history", "professional",
    "skills", "abilities", "competencies", "technical skills",
    "projects", "portfolio", "achievements",
    "certifications", "licenses", "credentials",
    "languages", "publications", "research",
    "executive summary", "purpose", "scope", "goals",
    "market analysis", "competition", "strategy",
    "implementation", "timeline", "budget", "financials",
    "risks", "assumptions", "constraints",
    "parties", "terms", "conditions", "provisions",
    "payment", "compensation", "confidentiality",
    "termination", "governing law", "signatures"
  ]

  /** `/^\d+\.\s+\w+/`: digits, a dot, white space, a word character. */
  predicate NumberedHeading(line: string) {
    var d := RunEnd(line, 0, IsDigit);
    d > 0 && d < |line| && line[d] == '.' &&
    var w := RunEnd(line, d + 1, IsSpace);
    w > d + 1 && w < |line| && IsWordChar(line[w])
  }

  /** `/^[A-Z][a-z]+:/`: a capitalised word and a colon. */
  predicate TitleWithColon(line: string) {
    |line| > 0 && IsAsciiUpper(line[0]) &&
    var e := RunEnd(line, 1, IsAsciiLower);
    e > 1 && e < |line| && line[e] == ':'
  }

  /** Line `i` looks like a header: all upper case, followed by a blank line,
      numbered, or a title with a colon. */
  predicate LooksLikeHeader(lines: seq<string>, i: nat)
    requires i < |lines|
    ensures var line := Trim(lines[i]);
      LooksLikeHeader(lines, i) <==>
        (forall k :: 0 <= k < |line| ==> !IsAsciiLower(line[k])) ||
        (i < |lines| - 1 && Trim(lines[i + 1]) == "") ||
        NumberedHeading(line) || TitleWithColon(line)
  {
    var line := Trim(lines[i]);
    line == Upper(line) || (i < |lines| - 1 && Trim(lines[i + 1]) == "") ||
    NumberedHeading(line) || TitleWithColon(line)
  }

  /** Line `i`, trimmed, is reported as a section header: it is short, holds
      one of `patterns` ignoring case, and looks like a header. */
  predicate IsSurveyHeader(lines: seq<string>, i: nat, patterns: seq<string>)
    requires i < |lines|
  {
    var line := Trim(lines[i]);
    0 < |line| < 50 && (exists p | p in patterns :: Contains(Lower(line), Lower(p))) &&
    LooksLikeHeader(lines, i)
  }

  /** The entries of `xs` whose flag is set, in order. */
  function Select(xs: seq<string>, keep: seq<bool>): seq<string>
    requires |xs| == |keep|
    decreases |xs|
  {
    if xs == [] then []
    else Select(xs[..|xs| - 1], keep[..|xs| - 1]) + (if keep[|xs| - 1] then [xs[|xs| - 1]] else [])
  }

  /** The indices of the set flags, in order. */
  function SelectIndices(keep: seq<bool>): seq<nat>
    decreases |keep|
  {
    if keep == [] then []
    else SelectIndices(keep[..|keep| - 1]) + (if keep[|keep| - 1] then [|keep| - 1] else [])
  }

  /** Extending both sequences by one entry extends the selection by that
      entry when it is flagged. */
  lemma SelectSnoc(xs: seq<string>, keep: seq<bool>, i: nat)
    requires |xs| == |keep| && i < |xs|
    ensures Select(xs[..i + 1], keep[..i + 1]) == Select(xs[..i], keep[..i]) + (if keep[i] then [xs[i]] else [])
  {
    assert xs[..i + 1][..i] == xs[..i];
    assert keep[..i + 1][..i] == keep[..i];
  }

  /** `Select` keeps exactly the flagged entries, each once, in order. */
  lemma {:induction false} SelectCharacterised(xs: seq<string>, keep: seq<bool>)
    requires |xs| == |keep|
    ensures var r := Select(xs, keep);
      var idx := SelectIndices(keep);
      |idx| == |r| &&
      (forall k :: 0 <= k < |idx| ==> idx[k] < |xs| && keep[idx[k]] && r[k] == xs[idx[k]]) &&
      (forall k, l :: 0 <= k < l < |idx| ==> idx[k] < idx[l]) &&
      (forall i :: 0 <= i < |xs| && keep[i] ==> i in idx)
    decreases |xs|
  {
    if xs != [] {
      var n := |xs| - 1;
      SelectCharacterised(xs[..n], keep[..n]);
    }
  }

  function TrimAll(lines: seq<string>): (r: seq<string>)
    ensures |r| == |lines| && forall i :: 0 <= i < |lines| ==> r[i] == Trim(lines[i])
  {
    seq(|lines|, i requires 0 <= i < |lines| => Trim(lines[i]))
  }

  /** Which lines are reported as headers. */
  function HeaderFlags(lines: seq<string>, patterns: seq<string>): (r: seq<bool>)
    ensures |r| == |lines| && forall i :: 0 <= i < |lines| ==> r[i] == IsSurveyHeader(lines, i, patterns)
  {
    seq(|lines|, i requires 0 <= i < |lines| => IsSurveyHeader(lines, i, patterns))
  }

  /** The header lines, trimmed, in document order. */
  function Survey(lines: seq<string>, patterns: seq<string>): seq<string> {
    Select(TrimAll(lines), HeaderFlags(lines, patterns))
  }

  /** The survey reports exactly the header lines, each once, in document
      order: the `k`-th report is line `idx[k]` trimmed, the indices strictly
      increase, and every header line's index is among them. Repeated header
      texts on different lines are each reported. */
  lemma SurveyCharacterised(lines: seq<string>, patterns: seq<string>)
    ensures var r := Survey(lines, patterns);
      var idx := SelectIndices(HeaderFlags(lines, patterns));
      |idx| == |r| &&
      (forall k :: 0 <= k < |idx| ==> idx[k] < |lines| && IsSurveyHeader(lines, idx[k], patterns) && r[k] == Trim(lines[idx[k]])) &&
      (forall k, l :: 0 <= k < l < |idx| ==> idx[k] < idx[l]) &&
      (forall i :: 0 <= i < |lines| && IsSurveyHeader(lines, i, patterns) ==> i in idx)
  {
    SelectCharacterised(TrimAll(lines), HeaderFlags(lines, patterns));
  }

  /** The pattern loop for one short line: it stops at the first pattern the
      line holds when the line also looks like a header. */
  method ReportsLine(lineNormalized: string, isLikelyHeader: bool, patterns: seq<string>) returns (push: bool)
    ensures push <==> isLikelyHeader && exists p | p in patterns :: Contains(lineNormalized, Lower(p))
  {
    push := false;
    var j := 0;
    while j < |patterns|
      invariant j <= |patterns|
      invariant !isLikelyHeader || forall k :: 0 <= k < j ==> !Contains(lineNormalized, Lower(patterns[k]))
    {
      if Contains(lineNormalized, Lower(patterns[j])) {
        if isLikelyHeader {
          push := true;
          break;
        }
      }
      j := j + 1;
    }
  }

  /** One line of the survey loop: whether it is reported. */
  method SurveyLine(lines: seq<string>, i: nat, patterns: seq<string>) returns (push: bool)
    requires i < |lines|
    ensures push == IsSurveyHeader(lines, i, patterns)
  {
    var line := Trim(lines[i]);
    push := false;
    if 0 < |line| < 50 {
      var isLikelyHeader := line == Upper(line) || (i < |lines| - 1 && Trim(lines[i + 1]) == "") ||
                            NumberedHeading(line) || TitleWithColon(line);
      push := ReportsLine(Lower(line), isLikelyHeader, patterns);
    }
  }

  /** The survey's line loop. */
  method DetectHeaders(lines: seq<string>, patterns: seq<string>) returns (detected: seq<string>)
    ensures detected == Survey(lines, patterns)
  {
    var trimmed := TrimAll(lines);
    var flags := HeaderFlags(lines, patterns);
    detected := [];
    for i := 0 to |lines|
      invariant detected == Select(trimmed[..i], flags[..i])
    {
      var push := SurveyLine(lines, i, patterns);
      if push {
        detected := detected + [trimmed[i]];
      }
      SelectSnoc(trimmed, flags, i);
    }
    assert trimmed[..|lines|] == trimmed && flags[..|lines|] == flags;
  }

  /** `para.trim().startsWith(section)`. */
  predicate Opens(para: string, section: string) {
    StartsWith(Trim(para), section)
  }

  /** `paragraphs.findIndex(p => p.trim().startsWith(section))` from `i`, with
      `|paras|` for none. */
  function FindParagraph(paras: seq<string>, section: string, i: nat): (r: nat)
    requires i <= |paras|
    ensures i <= r <= |paras|
    ensures r < |paras| ==> Opens(paras[r], section)
    ensures forall k {:trigger Opens(paras[k], section)} :: i <= k < r ==> !Opens(paras[k], section)
    decreases |paras| - i
  {
    if i == |paras| || Opens(paras[i], section) then i else FindParagraph(paras, section, i + 1)
  }

  /** The preview of a header: the paragraph after the first one starting
      with it, cut at 200 characters with `...` when longer; none when no
      paragraph starts with it or that paragraph is the last. */
  function Preview(paras: seq<string>, section: string): (r: Option<string>)
    ensures r.Some? <==> FindParagraph(paras, section, 0) < |paras| - 1
    ensures r.Some? ==> var next := paras[FindParagraph(paras, section, 0) + 1];
      (|next| <= 200 ==> r.value == next) && (|next| > 200 ==> r.value == next[..200] + "...")
    ensures r.Some? ==> |r.value| <= 203
  {
    var idx := FindParagraph(paras, section, 0);
    if idx < |paras| - 1 then
      var next := paras[idx + 1];
      var preview := Abbreviate(next, 200);
      assert |next| <= 200 ==> preview == next;
      Some(preview)
    else None
  }

  /** The previews of the headers: each header with a preview maps to it,
      and no other key is present. */
  function PreviewMap(paras: seq<string>, sections: seq<string>): (r: map<string, string>)
    ensures forall h :: h in r <==> h in sections && Preview(paras, h).Some?
    ensures forall h :: h in r ==> r[h] == Preview(paras, h).value
    decreases |sections|
  {
    if sections == [] then map[]
    else
      var section := sections[|sections| - 1];
      var rest := PreviewMap(paras, sections[..|sections| - 1]);
      LastSplit(sections);
      var p := Preview(paras, section);
      if p.Some? then rest[section := p.value] else rest
  }

  /** The preview loop, filling a map keyed by header text. */
  method BuildPreviews(paras: seq<string>, sections: seq<string>) returns (previews: map<string, string>)
    ensures previews == PreviewMap(paras, sections)
  {
    previews := map[];
    for i := 0 to |sections|
      invariant previews == PreviewMap(paras, sections[..i])
    {
      var section := sections[i];
      ghost var before := previews;
      previews := AddPreview(paras, previews, section);
      ghost var done := sections[..i + 1];
      assert done[..|done| - 1] == sections[..i] && done[|done| - 1] == section;
      assert PreviewMap(paras, done) == if Preview(paras, section).Some? then before[section := Preview(paras, section).value] else before;
    }
    assert sections[..|sections|] == sections;
  }

  /** One step of the preview loop: the header's preview, when it has one,
      is recorded under the header. */
  method AddPreview(paras: seq<string>, previews: map<string, string>, section: string)
    returns (r: map<string, string>)
    ensures Preview(paras, section).Some? ==> r == previews[section := Preview(paras, section).value]
    ensures Preview(paras, section).None? ==> r == previews
  {
    var sectionIndex := FindParagraph(paras, section, 0);
    PreviewAt(paras, section, sectionIndex);
    r := previews;
    if sectionIndex < |paras| - 1 {
      r := previews[section := Abbreviate(paras[sectionIndex + 1], 200)];
    }
  }

  lemma PreviewAt(paras: seq<string>, section: string, i: nat)
    requires i == FindParagraph(paras, section, 0)
    ensures Preview(paras, section) == if i < |paras| - 1 then Some(Abbreviate(paras[i + 1], 200)) else None
  {
  }

  // ---------------------------------------------------------------- classifier

  /** The document kinds and their keywords, in declaration order. */
  const DocumentPatterns: seq<(string, seq<string>)> := [
    ("resume", ["resume", "cv", "curriculum vitae", "work experience", "education", "skills", "professional experience"]),
    ("report", ["report", "executive summary", "findings", "conclusion", "recommendations"]),
    ("business_plan", ["business plan", "market analysis", "financials", "executive summary", "competition"]),
    ("research_paper", ["abstract", "methodology", "literature review", "results", "discussion", "references"]),
    ("legal", ["agreement", "contract", "terms", "parties", "provisions", "governing law"]),
    ("presentation", ["slide", "presentation", "agenda", "introduction", "thank you"]),
    ("letter", ["dear", "sincerely", "regards", "to whom it may concern"]),
    ("invoice", ["invoice", "bill", "payment", "amount due", "total", "paid", "item", "quantity", "price"]),
    ("manual", ["manual", "guide", "instructions", "step", "procedure", "troubleshooting"])
  ]

  /** How many of the keywords occur in `hay` (each counted once). */
  function Hits(hay: string, keywords: seq<string>): nat
    decreases |keywords|
  {
    if keywords == [] then 0
    else Hits(hay, keywords[..|keywords| - 1]) + (if Contains(hay, keywords[|keywords| - 1]) then 1 else 0)
  }

  /** How many (section, keyword) pairs have the keyword inside the section. */
  function SectionHits(sections: seq<string>, keywords: seq<string>): nat
    decreases |sections|
  {
    if sections == [] then 0
    else SectionHits(sections[..|sections| - 1], keywords) + Hits(sections[|sections| - 1], keywords)
  }

  /** Kind `k`'s score: one point per keyword in the lower-cased text, two per
      (section, keyword) containment. */
  function Score(text: string, sections: seq<string>, k: nat): nat
    requires k < |DocumentPatterns|
  {
    Hits(Lower(text), DocumentPatterns[k].1) + 2 * SectionHits(LowerAll(sections), DocumentPatterns[k].1)
  }

  /** The keyword count of one kind, as the scoring loops compute it. */
  method ScoreOf(lowerText: string, lowerSections: seq<string>, keywords: seq<string>) returns (score: nat)
    ensures score == Hits(lowerText, keywords) + 2 * SectionHits(lowerSections, keywords)
  {
    score := 0;
    for j := 0 to |keywords|
      invariant score == Hits(lowerText, keywords[..j])
    {
      if Contains(lowerText, keywords[j]) {
        score := score + 1;
      }
      assert keywords[..j + 1][..j] == keywords[..j];
    }
    assert keywords[..|keywords|] == keywords;
    for s := 0 to |lowerSections|
      invariant score == Hits(lowerText, keywords) + 2 * SectionHits(lowerSections[..s], keywords)
    {
      for j := 0 to |keywords|
        invariant score == Hits(lowerText, keywords) + 2 * SectionHits(lowerSections[..s], keywords) +
                           2 * Hits(lowerSections[s], keywords[..j])
      {
        if Contains(lowerSections[s], keywords[j]) {
          score := score + 2;
        }
        assert keywords[..j + 1][..j] == keywords[..j];
      }
      assert lowerSections[..s + 1][..s] == lowerSections[..s];
    }
    assert lowerSections[..|lowerSections|] == lowerSections;
  }

  /** The score of every kind, in declaration order. */
  method ScoreAll(text: string, sections: seq<string>) returns (scores: seq<nat>)
    ensures |scores| == |DocumentPatterns|
    ensures forall j :: 0 <= j < |scores| ==> scores[j] == Score(text, sections, j)
  {
    var lowerText := Lower(text);
    var lowerSections := LowerAll(sections);
    scores := [];
    for t := 0 to |DocumentPatterns|
      invariant |scores| == t && forall j :: 0 <= j < t ==> scores[j] == Score(text, sections, j)
    {
      var score := ScoreOf(lowerText, lowerSections, DocumentPatterns[t].1);
      scores := scores + [score];
    }
  }

  /** `t` is the kind a text with these sections is classified as:
      `"document"` when every kind scores 0, otherwise the earliest-declared
      kind with the highest score. */
  predicate ClassifiedAs(text: string, sections: seq<string>, t: string) {
    ((forall k :: 0 <= k < |DocumentPatterns| ==> Score(text, sections, k) == 0) ==> t == "document") &&
    ((exists k :: 0 <= k < |DocumentPatterns| && Score(text, sections, k) > 0) ==>
      exists k :: 0 <= k < |DocumentPatterns| && t == DocumentPatterns[k].0 &&
        Score(text, sections, k) > 0 &&
        (forall j :: 0 <= j < |DocumentPatterns| ==> Score(text, sections, j) <= Score(text, sections, k)) &&
        (forall j :: 0 <= j < k ==> Score(text, sections, j) < Score(text, sections, k)))
  }

  /** `detectDocumentType(text, sections)`: `"document"` when every kind
      scores 0; otherwise the earliest-declared kind with the highest score. */
  method Classify(text: string, sections: seq<string>) returns (detectedType: string)
    ensures ClassifiedAs(text, sections, detectedType)
  {
    var scores := ScoreAll(text, sections);
    var maxScore := 0;
    detectedType := "document";
    ghost var best := -1;
    for t := 0 to |scores|
      invariant best == -1 ==> maxScore == 0 && detectedType == "document" && forall j :: 0 <= j < t ==> scores[j] == 0
      invariant best != -1 ==> (0 <= best < t && detectedType == DocumentPatterns[best].0 &&
                                maxScore == scores[best] > 0 && (forall j :: 0 <= j < t ==> scores[j] <= maxScore) &&
                                (forall j :: 0 <= j < best ==> scores[j] < maxScore))
    {
      if scores[t] > maxScore {
        maxScore := scores[t];
        detectedType := DocumentPatterns[t].0;
        best := t;
      }
    }
  }

  /** What `identifySections` reports. */
  datatype SectionSurvey = SectionSurvey(sections: seq<string>, previews: map<string, string>, documentType: string)

  /** `identifySections`: the header survey, the previews and the
      classification of the full text. */
  method IdentifySections(data: Content, decode: Decoder) returns (r: Result<SectionSurvey, Failure>)
    ensures r.Success? <==> ExtractText(data, decode).Success?
    ensures r.Failure? ==> r.error.code == "section-identification-error"
    ensures r.Success? ==> var text := ExtractText(data, decode).value;
      r.value.sections == Survey(Lines(text), SurveyPatterns) &&
      r.value.previews == PreviewMap(Paragraphs(text), r.value.sections) &&
      ClassifiedAs(text, r.value.sections, r.value.documentType)
  {
    var full := ExtractTextFromBase64Pdf(data, decode);
    if full.Failure? {
      return Failure(MeteorError("section-identification-error", Message(full.error)));
    }
    var text := full.value;
    var lines := Lines(text);
    var sections := DetectHeaders(lines, SurveyPatterns);
    var previews := BuildPreviews(Paragraphs(text), sections);
    var documentType := Classify(text, sections);
    r := Success(SectionSurvey(sections, previews, documentType));
  }

  // ---------------------------------------------------------------- server methods

  datatype TextReply = TextReply(success: bool, text: string)
  datatype SectionReply = SectionReply(success: bool, section: string, content: string)
  datatype SurveyReply = SurveyReply(success: bool, sections: seq<string>, previews: map<string, string>, documentType: string)

  /** `pdf.extract`: missing data is refused, a failed extraction is
      reported, otherwise the full text. */
  function PdfExtract(data: Content, decode: Decoder): (r: Result<TextReply, Failure>)
    ensures !data.Truthy() ==> r.Failure? && r.error.code == "invalid-pdf"
    ensures r.Success? <==> ExtractText(data, decode).Success?
    ensures r.Success? ==> r.value == TextReply(true, ExtractText(data, decode).value)
  {
    if !data.Truthy() then Failure(MeteorError("invalid-pdf", "No PDF data provided"))
    else match ExtractText(data, decode)
      case Success(text) => Success(TextReply(true, text))
      case Failure(e) => Failure(MeteorError("pdf-extraction-error", Message(e)))
  }

  /** `pdf.extractSection`: data and a section name are both required; a
      readable PDF succeeds, with non-empty content, unless the name makes
      the strategies throw. */
  function PdfExtractSection(data: Content, sectionName: string, decode: Decoder, oracle: RegexOracle): (r: Result<SectionReply, Failure>)
    ensures (!data.Truthy() || sectionName == "") ==> r == Failure(MeteorError("invalid-parameters", "PDF data and section name are required"))
    ensures r.Success? <==> (sectionName != "" && ExtractText(data, decode).Success? &&
                             SectionError(oracle, ExtractText(data, decode).value, sectionName).None?)
    ensures r.Success? ==> r.value.success && r.value.section == sectionName && r.value.content != []
    ensures data.Truthy() && sectionName != "" && r.Failure? ==> r.error.code == "section-extraction-error"
  {
    if !data.Truthy() || sectionName == "" then
      Failure(MeteorError("invalid-parameters", "PDF data and section name are required"))
    else match ExtractSection(data, sectionName, decode, oracle)
      case Success(content) => Success(SectionReply(true, sectionName, content))
      case Failure(e) => Failure(MeteorError("section-extraction-error", Message(e)))
  }

  /** `pdf.identifySections`. */
  method PdfIdentifySections(data: Content, decode: Decoder) returns (r: Result<SurveyReply, Failure>)
    ensures !data.Truthy() ==> r == Failure(MeteorError("invalid-pdf", "No PDF data provided"))
    ensures r.Success? <==> ExtractText(data, decode).Success?
    ensures r.Success? ==> var text := ExtractText(data, decode).value;
      r.value.success && r.value.sections == Survey(Lines(text), SurveyPatterns) &&
      r.value.previews == PreviewMap(Paragraphs(text), r.value.sections) &&
      ClassifiedAs(text, r.value.sections, r.value.documentType)
  {
    if !data.Truthy() {
      return Failure(MeteorError("invalid-pdf", "No PDF data provided"));
    }
    var survey := IdentifySections(data, decode);
    match survey
    case Success(s) => r := Success(SurveyReply(true, s.sections, s.previews, s.documentType));
    case Failure(e) => r := Failure(MeteorError("section-identification-error", Message(e)));
  }
}
