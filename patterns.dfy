/** The small capture regexes of the document layer, each worked out from
    JavaScript's matching rules: the leftmost start wins, quantifiers are greedy
    and give characters back only when the rest of the pattern fails. Literal
    words match case-insensitively (the `i` flag); for these ASCII words that is
    ASCII case folding. */
module Patterns {
  import opened Wrappers
  import opened Text

  /** The lower-case ASCII word `lit` occurs at `i`, ignoring case. */
  predicate LiteralAt(s: string, i: nat, lit: string) {
    i + |lit| <= |s| && Lower(s[i..i + |lit|]) == lit
  }

  predicate IsQuote(c: char) { c == '"' || c == '\'' }
  predicate IsNotQuote(c: char) { !IsQuote(c) }

  /** The capture at the leftmost position from `i` below `n` where `at`
      captures anything: a regex search tries each start position in turn. */
  function Leftmost<T>(n: nat, at: nat -> Option<T>, i: nat): (r: Option<T>)
    ensures r.None? <==> forall k :: i <= k < n ==> at(k).None?
    ensures forall k :: i <= k < n && at(k).Some? ==>
      (forall j :: i <= j < k ==> at(j).None?) ==> r == at(k)
    ensures r.Some? ==> exists k :: i <= k < n && at(k) == r && forall j :: i <= j < k ==> at(j).None?
    decreases n - i
  {
    if i >= n then None
    else if at(i).Some? then at(i)
    else Leftmost(n, at, i + 1)
  }

  // ------------------------------------------------------------------------
  // /file(?:name)?\s+(?:called|named)\s+["']?([^"']+)["']?/i

  /** The capture of `\s+["']?([^"']+)` at `p`. The white-space run is taken
      whole first; when no value character follows it (end of text, or an empty
      quoted string), the run gives back its last character, which then is the
      whole capture. */
  function FilenameAfterVerb(s: string, p: nat): (r: Option<string>)
    requires p <= |s|
    ensures r.Some? ==> r.value != [] && forall k :: 0 <= k < |r.value| ==> IsNotQuote(r.value[k])
  {
    var j := RunEnd(s, p, IsSpace);
    if j == p then None
    else if j < |s| && IsQuote(s[j]) && j + 1 < |s| && IsNotQuote(s[j + 1]) then
      Some(s[j + 1..RunEnd(s, j + 1, IsNotQuote)])
    else if j < |s| && IsNotQuote(s[j]) then
      Some(s[j..RunEnd(s, j, IsNotQuote)])
    else if j - p >= 2 then
      assert IsNotQuote(s[j - 1]);
      Some(s[j - 1..RunEnd(s, j - 1, IsNotQuote)])
    else None
  }

  /** `\s+(?:called|named)` and the rest, after `file` or `filename`. */
  function FilenameAfterFile(s: string, p: nat): (r: Option<string>)
    requires p <= |s|
    ensures r.Some? ==> r.value != [] && forall k :: 0 <= k < |r.value| ==> IsNotQuote(r.value[k])
  {
    var j := RunEnd(s, p, IsSpace);
    if j == p then None
    else if LiteralAt(s, j, "called") then FilenameAfterVerb(s, j + 6)
    else if LiteralAt(s, j, "named") then FilenameAfterVerb(s, j + 5)
    else None
  }

  /** The capture of a match starting at `i`, trying `filename` before `file`. */
  function FilenameCaptureAt(s: string, i: nat): (r: Option<string>)
    ensures r.Some? ==> r.value != [] && forall k :: 0 <= k < |r.value| ==> IsNotQuote(r.value[k])
  {
    if !LiteralAt(s, i, "file") then None
    else if LiteralAt(s, i + 4, "name") && FilenameAfterFile(s, i + 8).Some? then FilenameAfterFile(s, i + 8)
    else FilenameAfterFile(s, i + 4)
  }

  /** Group 1 of the leftmost match of the file-name pattern in `s`, if any. */
  function FilenameCapture(s: string): (r: Option<string>)
    ensures r.None? <==> forall k :: 0 <= k < |s| ==> FilenameCaptureAt(s, k).None?
    ensures forall k :: 0 <= k < |s| && FilenameCaptureAt(s, k).Some? ==>
      (forall j :: 0 <= j < k ==> FilenameCaptureAt(s, j).None?) ==> r == FilenameCaptureAt(s, k)
    ensures r.Some? ==> r.value != [] && forall k :: 0 <= k < |r.value| ==> IsNotQuote(r.value[k])
  {
    var at := (k: nat) => FilenameCaptureAt(s, k);
    assert forall k: nat {:trigger FilenameCaptureAt(s, k)} :: at(k) == FilenameCaptureAt(s, k);
    Leftmost(|s|, at, 0)
  }

  // ------------------------------------------------------------------------
  // /(?:find|get|extract|show|display)\s+(?:the)?\s+(\w+)(?:\s+section)?/i
  // /(?:from|in)\s+(?:the)?\s+(\w+)(?:\s+section)?/i

  const FindVerbs: seq<string> := ["find", "get", "extract", "show", "display"]
  const FromWords: seq<string> := ["from", "in"]

  /** `\s+(\w+)` at `q`: the white-space run is taken whole, then a word. */
  function WordAfterSpaces(s: string, q: nat): (r: Option<string>)
    requires q <= |s|
    ensures r.Some? ==> r.value != [] && forall k :: 0 <= k < |r.value| ==> IsWordChar(r.value[k])
  {
    var v := RunEnd(s, q, IsSpace);
    if v > q && v < |s| && IsWordChar(s[v]) then Some(s[v..RunEnd(s, v, IsWordChar)]) else None
  }

  /** `\s+(?:the)?\s+(\w+)` right after the keyword, which ends at `p`. First the
      whole white-space run and then `the`; failing that, the run gives back its
      last character to the second `\s+` (so that needs a run of two or more). */
  function WordAfterKeyword(s: string, p: nat): (r: Option<string>)
    requires p <= |s|
    ensures r.Some? ==> r.value != [] && forall k :: 0 <= k < |r.value| ==> IsWordChar(r.value[k])
  {
    var w := RunEnd(s, p, IsSpace);
    var viaThe := if LiteralAt(s, w, "the") then WordAfterSpaces(s, w + 3) else None;
    if w == p then None
    else if viaThe.Some? then viaThe
    else if w - p >= 2 then WordAfterSpaces(s, w - 1)
    else None
  }

  /** A match starting at `i`. */
  function KeywordCaptureAt(s: string, i: nat, keywords: seq<string>): (r: Option<string>)
    ensures r.Some? ==> r.value != [] && forall k :: 0 <= k < |r.value| ==> IsWordChar(r.value[k])
  {
    AlternativesAt(s, i, keywords)
  }

  /** The alternatives tried in order at one start position. */
  function AlternativesAt(s: string, i: nat, keywords: seq<string>): (r: Option<string>)
    ensures r.Some? ==> r.value != [] && forall k :: 0 <= k < |r.value| ==> IsWordChar(r.value[k])
    decreases |keywords|
  {
    if keywords == [] then None
    else if LiteralAt(s, i, keywords[0]) && WordAfterKeyword(s, i + |keywords[0]|).Some? then
      WordAfterKeyword(s, i + |keywords[0]|)
    else AlternativesAt(s, i, keywords[1..])
  }

  /** Group 1 of the leftmost match of `(?:k1|k2|...)\s+(?:the)?\s+(\w+)`: a
      non-empty run of word characters. */
  function KeywordCapture(s: string, keywords: seq<string>): (r: Option<string>)
    ensures r.None? <==> forall k :: 0 <= k < |s| ==> KeywordCaptureAt(s, k, keywords).None?
    ensures forall k :: 0 <= k < |s| && KeywordCaptureAt(s, k, keywords).Some? ==>
      (forall j :: 0 <= j < k ==> KeywordCaptureAt(s, j, keywords).None?) ==> r == KeywordCaptureAt(s, k, keywords)
    ensures r.Some? ==> r.value != [] && forall k :: 0 <= k < |r.value| ==> IsWordChar(r.value[k])
  {
    var at := (k: nat) => KeywordCaptureAt(s, k, keywords);
    assert forall k: nat {:trigger KeywordCaptureAt(s, k, keywords)} :: at(k) == KeywordCaptureAt(s, k, keywords);
    Leftmost(|s|, at, 0)
  }

  // ------------------------------------------------------------------------
  // /patient(?:\s+name)?[:=\s]+([^\n,]+)/i, /date[:=\s]+([^\n,]+)/gi,
  // /diagnosis[:=\s]+([^\n,]+)/i

  predicate IsLabelSep(c: char) { c == ':' || c == '=' || IsSpace(c) }
  predicate IsValueChar(c: char) { c != '\n' && c != ',' }

  /** `[:=\s]+([^\n,]+)` at `p`: the capture's start and end. The separator run
      is greedy and gives back characters one at a time until a value
      character follows it. */
  function LabelValueAt(s: string, p: nat): (r: Option<(nat, nat)>)
    requires p <= |s|
    ensures r.Some? ==> p < r.value.0 < r.value.1 <= |s|
    ensures r.Some? ==> forall k :: p <= k < r.value.0 ==> IsLabelSep(s[k])
    ensures r.Some? ==> forall k :: r.value.0 <= k < r.value.1 ==> IsValueChar(s[k])
  {
    var run := RunEnd(s, p, IsLabelSep);
    if run == p then None
    else
      match LastWhere(s, p + 1, if run < |s| then run + 1 else run, IsValueChar)
      case None => None
      case Some(k) => Some((k, RunEnd(s, k, IsValueChar)))
  }

  datatype Field = PatientName | Date | Diagnosis

  /** One match of a field pattern: where it starts, where its capture starts,
      and where both end. */
  datatype Match = Match(start: nat, capture: nat, end: nat)

  predicate WellFormedMatch(s: string, m: Match, word: string) {
    m.start + |word| < m.capture < m.end <= |s| &&
    LiteralAt(s, m.start, word) &&
    (forall k :: m.start + |word| <= k < m.capture ==> IsLabelSep(s[k])) &&
    (forall k :: m.capture <= k < m.end ==> IsValueChar(s[k]))
  }

  /** The field's pattern matched at `i`, if it matches there. */
  function FieldMatchAt(s: string, i: nat, f: Field): (r: Option<Match>)
    ensures r.Some? ==> r.value.start == i && i < r.value.capture < r.value.end <= |s|
    ensures r.Some? ==> forall k :: r.value.capture <= k < r.value.end ==> IsValueChar(s[k])
    ensures r.Some? && f == Date ==> WellFormedMatch(s, r.value, "date")
  {
    match f
    case Date =>
      if LiteralAt(s, i, "date") then
        match LabelValueAt(s, i + 4)
        case Some(v) => Some(Match(i, v.0, v.1))
        case None => None
      else None
    case Diagnosis =>
      if LiteralAt(s, i, "diagnosis") then
        match LabelValueAt(s, i + 9)
        case Some(v) => Some(Match(i, v.0, v.1))
        case None => None
      else None
    case PatientName =>
      if !LiteralAt(s, i, "patient") then None
      else
        var w := RunEnd(s, i + 7, IsSpace);
        var named := if w > i + 7 && LiteralAt(s, w, "name") then LabelValueAt(s, w + 4) else None;
        var v := if named.Some? then named else LabelValueAt(s, i + 7);
        if v.Some? then Some(Match(i, v.value.0, v.value.1)) else None
  }

  /** The leftmost match starting at or after `i`: none starts before it,
      and there is none at all exactly when no position matches. */
  function FirstMatchFrom(s: string, i: nat, f: Field): (r: Option<Match>)
    ensures r.Some? ==> i <= r.value.start && FieldMatchAt(s, r.value.start, f) == r
    ensures r.Some? ==> forall k :: i <= k < r.value.start ==> FieldMatchAt(s, k, f).None?
    ensures r.None? <==> forall k :: i <= k < |s| ==> FieldMatchAt(s, k, f).None?
  {
    var at := (k: nat) => FieldMatchAt(s, k, f);
    assert forall k: nat {:trigger FieldMatchAt(s, k, f)} :: at(k) == FieldMatchAt(s, k, f);
    Leftmost(|s|, at, i)
  }

  /** The leftmost match of the field's pattern (`text.match(re)`), none
      exactly when the pattern matches nowhere. */
  function FirstMatch(s: string, f: Field): (r: Option<Match>)
    ensures r.Some? ==> FieldMatchAt(s, r.value.start, f) == r
    ensures r.Some? ==> forall k :: 0 <= k < r.value.start ==> FieldMatchAt(s, k, f).None?
    ensures r.None? <==> forall k :: 0 <= k < |s| ==> FieldMatchAt(s, k, f).None?
  {
    FirstMatchFrom(s, 0, f)
  }

  /** The successive matches of a global pattern (`text.match(re)` with `g`):
      the first is the leftmost match at or after `i`, each next one is the
      leftmost at or after the end of the previous one, and none follows the
      last, so no match is skipped. */
  function AllMatchesFrom(s: string, i: nat, f: Field): (r: seq<Match>)
    ensures MatchChain(s, i, f, r)
    decreases |s| - i
  {
    if i >= |s| then []
    else
      FirstMatchStep(s, i, f);
      match FieldMatchAt(s, i, f)
      case Some(m) => ChainCons(s, i, f, m, AllMatchesFrom(s, m.end, f)); [m] + AllMatchesFrom(s, m.end, f)
      case None => AllMatchesFrom(s, i + 1, f)
  }

  /** `r` lists the matches from `i` one after another: each is a match, the
      first is the leftmost from `i`, each next one the leftmost from the end
      of the one before, and none follows the last. */
  predicate MatchChain(s: string, i: nat, f: Field, r: seq<Match>) {
    (forall m :: m in r ==> i <= m.start && FieldMatchAt(s, m.start, f) == Some(m)) &&
    (r == [] <==> FirstMatchFrom(s, i, f).None?) &&
    (r != [] ==> FirstMatchFrom(s, i, f) == Some(r[0])) &&
    (forall j :: 0 <= j < |r| - 1 ==> FirstMatchFrom(s, r[j].end, f) == Some(r[j + 1])) &&
    (r != [] ==> FirstMatchFrom(s, r[|r| - 1].end, f).None?)
  }

  /** A match at `i` followed by the chain from its end is the chain from `i`. */
  lemma ChainCons(s: string, i: nat, f: Field, m: Match, rest: seq<Match>)
    requires i < |s| && FieldMatchAt(s, i, f) == Some(m) && FirstMatchFrom(s, i, f) == Some(m)
    requires MatchChain(s, m.end, f, rest)
    ensures MatchChain(s, i, f, [m] + rest)
  {
    ChainConsMembers(s, i, f, m, rest);
    ChainConsLinks(s, f, m, rest);
    if rest != [] {
      LastOfCons(m, rest);
    }
  }

  lemma ChainConsMembers(s: string, i: nat, f: Field, m: Match, rest: seq<Match>)
    requires FieldMatchAt(s, i, f) == Some(m)
    requires forall x :: x in rest ==> m.end <= x.start && FieldMatchAt(s, x.start, f) == Some(x)
    ensures forall x :: x in [m] + rest ==> i <= x.start && FieldMatchAt(s, x.start, f) == Some(x)
  {
  }

  lemma ChainConsLinks(s: string, f: Field, m: Match, rest: seq<Match>)
    requires rest != [] ==> FirstMatchFrom(s, m.end, f) == Some(rest[0])
    requires forall j :: 0 <= j < |rest| - 1 ==> FirstMatchFrom(s, rest[j].end, f) == Some(rest[j + 1])
    ensures forall j :: 0 <= j < |[m] + rest| - 1 ==> FirstMatchFrom(s, ([m] + rest)[j].end, f) == Some(([m] + rest)[j + 1])
  {
    var r := [m] + rest;
    forall j | 0 <= j < |r| - 1
      ensures FirstMatchFrom(s, r[j].end, f) == Some(r[j + 1])
    {
      if j > 0 {
        assert r[j] == rest[j - 1] && r[j + 1] == rest[j];
      }
    }
  }

  /** The leftmost match from `i` is the match at `i`, or else the leftmost
      match from `i + 1`. */
  lemma FirstMatchStep(s: string, i: nat, f: Field)
    requires i < |s|
    ensures FirstMatchFrom(s, i, f) == if FieldMatchAt(s, i, f).Some? then FieldMatchAt(s, i, f) else FirstMatchFrom(s, i + 1, f)
  {
    var here := FirstMatchFrom(s, i, f);
    var next := FirstMatchFrom(s, i + 1, f);
    if FieldMatchAt(s, i, f).None? && next.Some? {
      assert FieldMatchAt(s, next.value.start, f).Some?;
      assert here.Some?;
      assert here.value.start >= i + 1;
    }
  }

  /** The captured text of a match. */
  function Captured(s: string, m: Match): string
    requires m.capture <= m.end <= |s|
  {
    s[m.capture..m.end]
  }

  /** `m.replace(/date[:=\s]+/i, '')`: removes the leftmost label and its whole
      separator run. */
  function RemoveDateLabelFrom(m: string, i: nat): string
    decreases |m| - i
  {
    if i >= |m| then m
    else if LiteralAt(m, i, "date") && RunEnd(m, i + 4, IsLabelSep) > i + 4 then
      m[..i] + m[RunEnd(m, i + 4, IsLabelSep)..]
    else RemoveDateLabelFrom(m, i + 1)
  }

  /** One entry of the `dates` list: the matched text, label removed, trimmed. */
  function DateEntry(s: string, m: Match): string
    requires m.start <= m.end <= |s|
  {
    Trim(RemoveDateLabelFrom(s[m.start..m.end], 0))
  }

  /** A captured value with the separator characters at its front dropped,
      then trimmed. */
  function DateText(v: string): string {
    Trim(v[RunEnd(v, 0, IsLabelSep)..])
  }

  /** A date entry is the captured value with the separator characters at
      its front dropped, then trimmed: the label's separator run can reach
      into the capture (as in `date:: x`), and the removal takes that part
      too. */
  lemma DateEntryIsCapture(s: string, m: Match)
    requires WellFormedMatch(s, m, "date")
    ensures DateEntry(s, m) == DateText(Captured(s, m))
  {
    var t := s[m.start..m.end];
    var v := Captured(s, m);
    var c0 := m.capture - m.start;
    var e := RunEnd(v, 0, IsLabelSep);
    assert t[..4] == s[m.start..m.start + 4];
    assert v == t[c0..];
    LabelRunInMatch(s, m, t, c0);
    RunEndShift(t, c0, IsLabelSep);
    RunEndUnique(t, 4, IsLabelSep, c0 + e);
    RemoveLabelAtFront(t, c0 + e);
    DropDrop(t, c0, e);
  }

  /** Inside a well-formed date match, the characters between the label and
      the capture are separators. */
  lemma LabelRunInMatch(s: string, m: Match, t: string, c0: nat)
    requires WellFormedMatch(s, m, "date") && t == s[m.start..m.end] && c0 == m.capture - m.start
    ensures 4 < c0 < |t| && forall k :: 4 <= k < c0 ==> IsLabelSep(t[k])
  {
    forall k | 4 <= k < c0 ensures IsLabelSep(t[k]) {
      assert t[k] == s[m.start + k];
    }
  }

  /** With the label at the front, the removal cuts the label and its whole
      separator run. */
  lemma RemoveLabelAtFront(t: string, x: nat)
    requires LiteralAt(t, 0, "date") && 4 < x <= |t| && x == RunEnd(t, 4, IsLabelSep)
    ensures RemoveDateLabelFrom(t, 0) == t[x..]
  {
    assert t[..0] + t[x..] == t[x..];
  }

  /** With the label at the front and value characters after its separator
      run, removing the label leaves value characters only. */
  lemma LabelRemovedClean(t: string, cap: nat)
    requires LiteralAt(t, 0, "date") && 4 < cap <= |t|
    requires forall k :: 4 <= k < cap ==> IsLabelSep(t[k])
    requires forall k :: cap <= k < |t| ==> IsValueChar(t[k])
    ensures forall c :: c in RemoveDateLabelFrom(t, 0) ==> IsValueChar(c)
  {
    var x := RunEnd(t, 4, IsLabelSep);
    assert IsLabelSep(t[4]);
    assert RemoveDateLabelFrom(t, 0) == t[x..];
    assert x >= cap;
    forall c | c in t[x..] ensures IsValueChar(c) {
      var k :| x <= k < |t| && t[k] == c;
    }
  }

  /** A date entry keeps only characters of the captured value, so it never
      holds a line break or a comma. */
  lemma DateEntryClean(s: string, m: Match)
    requires WellFormedMatch(s, m, "date")
    ensures forall c :: c in DateEntry(s, m) ==> IsValueChar(c)
  {
    var t := s[m.start..m.end];
    assert t[..4] == s[m.start..m.start + 4];
    LabelRemovedClean(t, m.capture - m.start);
  }
}
