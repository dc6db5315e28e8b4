/** The JavaScript string operations the document layer relies on, over `seq<char>`.
    Case mapping is ASCII-only; white space is the set JavaScript's `\s` and
    `String.prototype.trim` share. */
module Text {
  import opened Wrappers

  // ---------------------------------------------------------------- characters

  /** `\s` in a JavaScript regular expression, and what `trim` removes. */
  predicate IsSpace(c: char) {
    var n := c as int;
    n == 0x09 || n == 0x0A || n == 0x0B || n == 0x0C || n == 0x0D || n == 0x20 ||
    n == 0xA0 || n == 0x1680 || (0x2000 <= n <= 0x200A) || n == 0x2028 || n == 0x2029 ||
    n == 0x202F || n == 0x205F || n == 0x3000 || n == 0xFEFF
  }

  predicate IsNewline(c: char) { c == '\n' }
  predicate IsAsciiUpper(c: char) { 'A' <= c <= 'Z' }
  predicate IsAsciiLower(c: char) { 'a' <= c <= 'z' }
  predicate IsDigit(c: char) { '0' <= c <= '9' }

  /** `\w` (no `u` flag): ASCII letters, digits and underscore. */
  predicate IsWordChar(c: char) { IsAsciiUpper(c) || IsAsciiLower(c) || IsDigit(c) || c == '_' }

  function LowerChar(c: char): char {
    if IsAsciiUpper(c) then (c as int + 32) as char else c
  }

  function UpperChar(c: char): char {
    if IsAsciiLower(c) then (c as int - 32) as char else c
  }

  /** `toLowerCase()`, restricted to ASCII letters. */
  function Lower(s: string): (r: string)
    ensures |r| == |s|
    ensures forall i :: 0 <= i < |s| ==> r[i] == LowerChar(s[i])
  {
    seq(|s|, i requires 0 <= i < |s| => LowerChar(s[i]))
  }

  /** `toUpperCase()`, restricted to ASCII letters. */
  function Upper(s: string): (r: string)
    ensures |r| == |s|
    ensures forall i :: 0 <= i < |s| ==> r[i] == UpperChar(s[i])
  {
    seq(|s|, i requires 0 <= i < |s| => UpperChar(s[i]))
  }

  /** Lower-casing twice is lower-casing once. */
  lemma LowerIdempotent(s: string)
    ensures Lower(Lower(s)) == Lower(s)
  {
    assert forall i :: 0 <= i < |s| ==> Lower(Lower(s))[i] == Lower(s)[i];
  }

  /** Lower-casing works character by character, so it distributes over
      concatenation. */
  lemma LowerAppend(a: string, b: string)
    ensures Lower(a + b) == Lower(a) + Lower(b)
  {
    assert forall i :: 0 <= i < |a + b| ==> Lower(a + b)[i] == (Lower(a) + Lower(b))[i];
  }

  /** Lower-casing neither makes nor removes white space. */
  lemma LowerKeepsSpace(s: string)
    ensures forall k :: 0 <= k < |s| ==> (IsSpace(Lower(s)[k]) <==> IsSpace(s[k]))
  {
  }

  /** A non-empty sequence is its front followed by its last element. */
  lemma LastSplit<T>(s: seq<T>)
    requires s != []
    ensures s == s[..|s| - 1] + [s[|s| - 1]]
  {
  }

  /** The elements of `[x] + s` after the first are those of `s`. */
  lemma ConsShift<T>(x: T, s: seq<T>)
    ensures ([x] + s)[0] == x && ([x] + s)[1..] == s
    ensures forall k :: 1 <= k < |[x] + s| ==> ([x] + s)[k] == s[k - 1]
  {
  }

  lemma AppendTail<T>(a: seq<T>, b: seq<T>)
    requires a != []
    ensures (a + b)[0] == a[0] && (a + b)[1..] == a[1..] + b
  {
  }

  lemma LastOfCons<T>(x: T, rest: seq<T>)
    requires rest != []
    ensures ([x] + rest)[|[x] + rest| - 1] == rest[|rest| - 1] && ([x] + rest)[0] == x
  {
  }

  /** A sequence split before its last element. */
  lemma AppendSnoc<T>(a: seq<T>, b: seq<T>)
    requires b != []
    ensures a + b == (a + b[..|b| - 1]) + [b[|b| - 1]] && b == b[..|b| - 1] + [b[|b| - 1]]
  {
  }

  /** Every string lower-cased. */
  function LowerAll(xs: seq<string>): (r: seq<string>)
    ensures |r| == |xs| && forall i :: 0 <= i < |xs| ==> r[i] == Lower(xs[i])
  {
    seq(|xs|, i requires 0 <= i < |xs| => Lower(xs[i]))
  }

  // ---------------------------------------------------------------- substrings

  predicate OccursAt(s: string, p: string, i: nat) {
    i + |p| <= |s| && s[i..i + |p|] == p
  }

  /** `s.includes(p)`. */
  predicate Contains(s: string, p: string) {
    exists i: nat | i <= |s| :: OccursAt(s, p, i)
  }

  /** `s.startsWith(p)`. */
  predicate StartsWith(s: string, p: string) {
    OccursAt(s, p, 0)
  }

  /** `s.endsWith(p)`. */
  predicate EndsWith(s: string, p: string) {
    |p| <= |s| && s[|s| - |p|..] == p
  }

  /** `s.substring(0, n)`. */
  function Take(s: string, n: nat): (r: string)
    ensures |r| <= n && |r| <= |s|
    ensures r == s[..|r|]
    ensures |s| <= n ==> r == s
    ensures |s| > n ==> |r| == n
  {
    if n < |s| then s[..n] else s
  }

  // ---------------------------------------------------------------- scanning

  /** The end of the longest run of characters satisfying `p` that starts at `i`. */
  function RunEnd(s: string, i: nat, p: char -> bool): (j: nat)
    requires i <= |s|
    ensures i <= j <= |s|
    ensures forall k :: i <= k < j ==> p(s[k])
    ensures j == |s| || !p(s[j])
    decreases |s| - i
  {
    if i < |s| && p(s[i]) then RunEnd(s, i + 1, p) else i
  }

  /** The first index at or after `from` whose character satisfies `p`, or `|s|`. */
  function IndexWhere(s: string, p: char -> bool, from: nat): (r: nat)
    requires from <= |s|
    ensures from <= r <= |s|
    ensures r < |s| ==> p(s[r])
    ensures forall k :: from <= k < r ==> !p(s[k])
    decreases |s| - from
  {
    if from == |s| || p(s[from]) then from else IndexWhere(s, p, from + 1)
  }

  /** The last index in `[lo, hi)` whose character satisfies `p`, if any. */
  function LastWhere(s: string, lo: nat, hi: nat, p: char -> bool): (r: Option<nat>)
    requires lo <= hi <= |s|
    ensures r.Some? ==> lo <= r.value < hi && p(s[r.value])
    ensures r.Some? ==> forall k :: r.value < k < hi ==> !p(s[k])
    ensures r.None? ==> forall k :: lo <= k < hi ==> !p(s[k])
    decreases hi - lo
  {
    if hi == lo then None
    else if p(s[hi - 1]) then Some(hi - 1)
    else LastWhere(s, lo, hi - 1, p)
  }

  /** `s.split(c)` for a one-character separator (every `p`-character separates). */
  function SplitWhere(s: string, p: char -> bool): (r: seq<string>)
    ensures |r| >= 1
    ensures forall k :: 0 <= k < |r| ==> forall c :: c in r[k] ==> !p(c)
    decreases |s|
  {
    var k := IndexWhere(s, p, 0);
    if k == |s| then [s]
    else
      assert forall c :: c in s[..k] ==> !p(c);
      [s[..k]] + SplitWhere(s[k + 1..], p)
  }

  /** `s.split('\n')`. */
  function Lines(s: string): (r: seq<string>)
    ensures |r| >= 1
  {
    SplitWhere(s, IsNewline)
  }

  /** `parts.join(sep)`. */
  function JoinWith(parts: seq<string>, sep: string): string
    decreases |parts|
  {
    if |parts| == 0 then ""
    else if |parts| == 1 then parts[0]
    else parts[0] + sep + JoinWith(parts[1..], sep)
  }

  /** `s` with every character satisfying `p` replaced by `c`. */
  function Substitute(s: string, p: char -> bool, c: char): (r: string)
    ensures |r| == |s|
    ensures forall k :: 0 <= k < |s| ==> r[k] == if p(s[k]) then c else s[k]
  {
    seq(|s|, k requires 0 <= k < |s| => if p(s[k]) then c else s[k])
  }

  /** Joining the pieces of a split with one character gives back the input
      with every separator replaced by that character; when `sep` is the
      only separator, that is the input itself. */
  lemma {:induction false} SplitJoin(s: string, p: char -> bool, sep: char)
    ensures JoinWith(SplitWhere(s, p), [sep]) == Substitute(s, p, sep)
    ensures (forall k :: 0 <= k < |s| && p(s[k]) ==> s[k] == sep) ==> JoinWith(SplitWhere(s, p), [sep]) == s
    decreases |s|
  {
    var k := IndexWhere(s, p, 0);
    if k < |s| {
      SplitWhereUnfold(s, p, k);
      SplitJoin(s[k + 1..], p, sep);
      JoinCons(s[..k], SplitWhere(s[k + 1..], p), [sep]);
      SubstituteAt(s, p, sep, k);
    } else {
      SubstituteNone(s, p, sep);
    }
    if forall k :: 0 <= k < |s| && p(s[k]) ==> s[k] == sep {
      SubstituteFixed(s, p, sep);
    }
  }

  /** One step of a split: the first piece ends at the first separator. */
  lemma SplitWhereUnfold(s: string, p: char -> bool, k: nat)
    requires k == IndexWhere(s, p, 0) && k < |s|
    ensures SplitWhere(s, p) == [s[..k]] + SplitWhere(s[k + 1..], p)
  {
  }

  lemma JoinCons(x: string, rest: seq<string>, sep: string)
    requires |rest| >= 1
    ensures JoinWith([x] + rest, sep) == x + sep + JoinWith(rest, sep)
  {
    assert ([x] + rest)[1..] == rest;
  }

  lemma SubstituteAt(s: string, p: char -> bool, c: char, k: nat)
    requires k < |s| && p(s[k])
    requires forall j :: 0 <= j < k ==> !p(s[j])
    ensures Substitute(s, p, c) == s[..k] + [c] + Substitute(s[k + 1..], p, c)
  {
    var t := Substitute(s, p, c);
    var u := s[..k] + [c] + Substitute(s[k + 1..], p, c);
    assert |t| == |u|;
    forall i | 0 <= i < |t|
      ensures t[i] == u[i]
    {
      if i > k {
        assert u[i] == Substitute(s[k + 1..], p, c)[i - k - 1];
      }
    }
  }

  lemma SubstituteNone(s: string, p: char -> bool, c: char)
    requires forall j :: 0 <= j < |s| ==> !p(s[j])
    ensures Substitute(s, p, c) == s
  {
  }

  lemma SubstituteFixed(s: string, p: char -> bool, c: char)
    requires forall j :: 0 <= j < |s| && p(s[j]) ==> s[j] == c
    ensures Substitute(s, p, c) == s
  {
  }

  lemma ConsAssoc<T>(x: T, a: seq<T>, b: seq<T>)
    ensures [x] + (a + b) == ([x] + a) + b
  {
  }

  /** Slicing `a + [c] + b` inside `a` or at the joint. */
  lemma SlicesAround<T>(a: seq<T>, c: T, b: seq<T>, k: nat)
    requires k <= |a|
    ensures (a + [c] + b)[..k] == a[..k]
    ensures (a + [c] + b)[k + 1..] == if k == |a| then b else a[k + 1..] + [c] + b
  {
  }

  /** The pieces of a split are the text between consecutive separators:
      the first piece ends at the first separator, the second at the next. */
  lemma SplitWhereFirstPieces(s: string, p: char -> bool)
    ensures var i := IndexWhere(s, p, 0);
      SplitWhere(s, p)[0] == s[..i] &&
      (|SplitWhere(s, p)| > 1 <==> i < |s|) &&
      (i < |s| ==> SplitWhere(s, p)[1] == s[i + 1..IndexWhere(s, p, i + 1)])
  {
    var i := IndexWhere(s, p, 0);
    if i < |s| {
      var t := s[i + 1..];
      var j := IndexWhere(t, p, 0);
      IndexWhereUnique(s, p, i + 1, i + 1 + j);
      assert t[..j] == s[i + 1..i + 1 + j];
    }
  }

  /** Splitting at a separator splits the pieces there: the pieces of
      `a + [c] + b` are those of `a` followed by those of `b`. */
  lemma {:induction false} SplitWhereAt(a: string, c: char, b: string, p: char -> bool)
    requires p(c)
    ensures SplitWhere(a + [c] + b, p) == SplitWhere(a, p) + SplitWhere(b, p)
    decreases |a|
  {
    var k := IndexWhere(a, p, 0);
    SplitWhereAtFirst(a, c, b, p, k);
    if k < |a| {
      SplitWhereAt(a[k + 1..], c, b, p);
      SplitWhereUnfold(a, p, k);
      ConsAssoc(a[..k], SplitWhere(a[k + 1..], p), SplitWhere(b, p));
    }
  }

  lemma SplitWhereAtFirst(a: string, c: char, b: string, p: char -> bool, k: nat)
    requires p(c) && k == IndexWhere(a, p, 0)
    ensures k == |a| ==> SplitWhere(a + [c] + b, p) == SplitWhere(a, p) + SplitWhere(b, p)
    ensures k < |a| ==> SplitWhere(a + [c] + b, p) == [a[..k]] + SplitWhere(a[k + 1..] + [c] + b, p)
  {
    var s := a + [c] + b;
    IndexWhereUnique(s, p, 0, k);
    SlicesAround(a, c, b, k);
    SplitWhereUnfold(s, p, k);
    if k == |a| {
      assert SplitWhere(a, p) == [a];
      assert s[..k] == a && s[k + 1..] == b;
    }
  }

  /** The first `p`-index at or after `from` is the only index with no
      `p`-character before it and a `p`-character (or the end) at it. */
  lemma IndexWhereUnique(s: string, p: char -> bool, from: nat, j: nat)
    requires from <= j <= |s|
    requires j < |s| ==> p(s[j])
    requires forall k :: from <= k < j ==> !p(s[k])
    ensures IndexWhere(s, p, from) == j
  {
  }

  /** A maximal run ends at the only index up to which every character
      satisfies `p` and at which one does not (or the string ends). */
  lemma RunEndUnique(s: string, i: nat, p: char -> bool, j: nat)
    requires i <= j <= |s|
    requires forall k :: i <= k < j ==> p(s[k])
    requires j == |s| || !p(s[j])
    ensures RunEnd(s, i, p) == j
  {
  }

  /** `s.split(/\s+/)`: the pieces between maximal white-space runs (a leading
      or trailing run yields an empty first or last piece). */
  function SplitSpaceRuns(s: string): (r: seq<string>)
    ensures |r| >= 1
    ensures forall k :: 0 <= k < |r| ==> forall c :: c in r[k] ==> !IsSpace(c)
    decreases |s|
  {
    var k := IndexWhere(s, IsSpace, 0);
    if k == |s| then [s]
    else
      assert forall c :: c in s[..k] ==> !IsSpace(c);
      [s[..k]] + SplitSpaceRuns(s[RunEnd(s, k, IsSpace)..])
  }

  /** `s` with every maximal white-space run replaced by one space. */
  function CollapseSpaces(s: string): string
    decreases |s|
  {
    if s == [] then []
    else if IsSpace(s[0]) then " " + CollapseSpaces(s[RunEnd(s, 0, IsSpace)..])
    else [s[0]] + CollapseSpaces(s[1..])
  }

  lemma {:induction false} CollapseAfterWord(s: string, k: nat)
    requires k <= |s|
    requires forall j :: 0 <= j < k ==> !IsSpace(s[j])
    ensures CollapseSpaces(s) == s[..k] + CollapseSpaces(s[k..])
    decreases k
  {
    if k > 0 {
      CollapseAfterWord(s[1..], k - 1);
      assert s[1..][k - 1..] == s[k..];
      assert [s[0]] + s[1..][..k - 1] == s[..k];
    }
  }

  /** Joining the pieces of `s.split(/\s+/)` with one space gives `s` with its
      white-space runs collapsed: the pieces are exactly the text between
      the runs. */
  lemma {:induction false} SplitSpaceRunsJoin(s: string)
    ensures JoinWith(SplitSpaceRuns(s), " ") == CollapseSpaces(s)
    decreases |s|
  {
    var k := IndexWhere(s, IsSpace, 0);
    CollapseAfterWord(s, k);
    if k == |s| {
      assert s[..k] == s && s[k..] == [];
    } else {
      var e := RunEnd(s, k, IsSpace);
      SplitSpaceRunsUnfold(s, k, e);
      CollapseRun(s, k, e);
      SplitSpaceRunsJoin(s[e..]);
      JoinCons(s[..k], SplitSpaceRuns(s[e..]), " ");
      ConcatAssoc(s[..k], " ", CollapseSpaces(s[e..]));
    }
  }

  /** One step of `s.split(/\s+/)`: the first piece ends at the first run. */
  lemma SplitSpaceRunsUnfold(s: string, k: nat, e: nat)
    requires k == IndexWhere(s, IsSpace, 0) && k < |s| && e == RunEnd(s, k, IsSpace)
    ensures SplitSpaceRuns(s) == [s[..k]] + SplitSpaceRuns(s[e..])
  {
  }

  /** A white-space run collapses to one space. */
  lemma CollapseRun(s: string, k: nat, e: nat)
    requires k < |s| && IsSpace(s[k]) && e == RunEnd(s, k, IsSpace)
    ensures CollapseSpaces(s[k..]) == " " + CollapseSpaces(s[e..])
  {
    var t := s[k..];
    var n := RunEnd(t, 0, IsSpace);
    RunEndShift(s, k, IsSpace);
    DropDrop(s, k, e - k);
    assert t[n..] == s[e..];
    CollapseLeadingRun(t);
    assert CollapseSpaces(t) == " " + CollapseSpaces(t[n..]);
  }

  lemma CollapseLeadingRun(t: string)
    requires t != [] && IsSpace(t[0])
    ensures CollapseSpaces(t) == " " + CollapseSpaces(t[RunEnd(t, 0, IsSpace)..])
  {
  }

  /** Runs are found the same way in a suffix. */
  lemma RunEndShift(s: string, k: nat, p: char -> bool)
    requires k <= |s|
    ensures RunEnd(s[k..], 0, p) == RunEnd(s, k, p) - k
  {
    var t := s[k..];
    var e := RunEnd(s, k, p);
    assert forall j :: 0 <= j < |t| ==> t[j] == s[k + j];
    RunEndUnique(t, 0, p, e - k);
  }

  lemma DropDrop<T>(s: seq<T>, k: nat, n: nat)
    requires k + n <= |s|
    ensures s[k..][n..] == s[k + n..]
  {
  }

  lemma ConcatAssoc<T>(a: seq<T>, b: seq<T>, c: seq<T>)
    ensures a + b + c == a + (b + c)
  {
  }

  /** Splitting at a white-space run between two words splits the pieces
      there: the pieces of `a + sp + b` are those of `a` followed by those
      of `b`. */
  lemma {:induction false} SplitSpaceRunsAt(a: string, sp: string, b: string)
    requires |sp| > 0 && forall k :: 0 <= k < |sp| ==> IsSpace(sp[k])
    requires a == [] || !IsSpace(a[|a| - 1])
    requires b == [] || !IsSpace(b[0])
    ensures SplitSpaceRuns(a + sp + b) == SplitSpaceRuns(a) + SplitSpaceRuns(b)
    decreases |a|
  {
    var k := IndexWhere(a, IsSpace, 0);
    if k == |a| {
      SplitSpaceRunsAfterWord(a, sp, b);
    } else {
      var e := RunEnd(a, k, IsSpace);
      assert e < |a| by { SplitSpaceRunsFirstRun(a, sp, b, k, e); }
      SplitSpaceRunsAt(a[e..], sp, b);
      SplitSpaceRunsStep(a, sp, b, k, e);
    }
  }

  lemma SplitSpaceRunsStep(a: string, sp: string, b: string, k: nat, e: nat)
    requires k < |a| && k == IndexWhere(a, IsSpace, 0) && e == RunEnd(a, k, IsSpace)
    requires !IsSpace(a[|a| - 1])
    requires e < |a| && SplitSpaceRuns(a[e..] + sp + b) == SplitSpaceRuns(a[e..]) + SplitSpaceRuns(b)
    ensures SplitSpaceRuns(a + sp + b) == SplitSpaceRuns(a) + SplitSpaceRuns(b)
  {
    SplitSpaceRunsFirstRun(a, sp, b, k, e);
    ConsAssoc(a[..k], SplitSpaceRuns(a[e..]), SplitSpaceRuns(b));
  }

  lemma SplitSpaceRunsAfterWord(a: string, sp: string, b: string)
    requires |sp| > 0 && forall k :: 0 <= k < |sp| ==> IsSpace(sp[k])
    requires forall k :: 0 <= k < |a| ==> !IsSpace(a[k])
    requires b == [] || !IsSpace(b[0])
    ensures SplitSpaceRuns(a + sp + b) == [a] + SplitSpaceRuns(b)
  {
    var s := a + sp + b;
    IndexWhereUnique(s, IsSpace, 0, |a|);
    RunEndUnique(s, |a|, IsSpace, |a| + |sp|);
    assert s[..|a|] == a && s[|a| + |sp|..] == b;
  }

  lemma SplitSpaceRunsFirstRun(a: string, sp: string, b: string, k: nat, e: nat)
    requires k < |a| && k == IndexWhere(a, IsSpace, 0) && e == RunEnd(a, k, IsSpace)
    requires !IsSpace(a[|a| - 1])
    ensures e < |a|
    ensures SplitSpaceRuns(a + sp + b) == [a[..k]] + SplitSpaceRuns(a[e..] + sp + b)
    ensures SplitSpaceRuns(a) == [a[..k]] + SplitSpaceRuns(a[e..])
  {
    var s := a + sp + b;
    IndexWhereUnique(s, IsSpace, 0, k);
    RunEndUnique(s, k, IsSpace, e);
    assert s[..k] == a[..k];
    assert s[e..] == a[e..] + sp + b;
  }

  // ---------------------------------------------------------------- trim

  function TrimStart(s: string): (r: string)
    ensures |r| <= |s| && r == s[|s| - |r|..]
    ensures r == [] || !IsSpace(r[0])
    ensures forall k :: 0 <= k < |s| - |r| ==> IsSpace(s[k])
    decreases |s|
  {
    if |s| > 0 && IsSpace(s[0]) then TrimStart(s[1..]) else s
  }

  function TrimEnd(s: string): (r: string)
    ensures |r| <= |s| && r == s[..|r|]
    ensures r == [] || !IsSpace(r[|r| - 1])
    ensures forall k :: |r| <= k < |s| ==> IsSpace(s[k])
    decreases |s|
  {
    if |s| > 0 && IsSpace(s[|s| - 1]) then TrimEnd(s[..|s| - 1]) else s
  }

  /** `s.trim()`: the result neither starts nor ends with white space, and
      is a piece of the input (`TrimCharacterised` says which piece). */
  function Trim(s: string): (r: string)
    ensures |r| <= |s|
    ensures r == [] || (!IsSpace(r[0]) && !IsSpace(r[|r| - 1]))
  {
    var t := TrimStart(s);
    var r := TrimEnd(t);
    assert r != [] ==> r[0] == t[0];
    r
  }

  /** Trimming keeps only characters of the input. */
  lemma TrimKeepsChars(s: string)
    ensures forall c :: c in Trim(s) ==> c in s
  {
    TrimCharacterised(s);
    var i := RunEnd(s, 0, IsSpace);
    assert Trim(s) == s[i..i + |Trim(s)|];
  }

  /** `r` is the slice of `s` that starts at `i` and after which only
      white space follows. */
  predicate PieceBeforeSpace(s: string, i: nat, r: string) {
    i + |r| <= |s| && r == s[i..i + |r|] &&
    forall k :: i + |r| <= k < |s| ==> IsSpace(s[k])
  }

  /** `s.trim()` is the piece of `s` that starts after its leading
      white-space run and ends where only white space follows. */
  lemma TrimCharacterised(s: string)
    ensures PieceBeforeSpace(s, RunEnd(s, 0, IsSpace), Trim(s))
  {
    TrimOfSuffix(s);
    TrimEndPiece(s, RunEnd(s, 0, IsSpace), Trim(s));
  }

  /** Trimming is trimming the end of what follows the leading run. */
  lemma TrimOfSuffix(s: string)
    ensures Trim(s) == TrimEnd(s[RunEnd(s, 0, IsSpace)..])
  {
    TrimStartAt(s);
  }

  lemma TrimStartAt(s: string)
    ensures TrimStart(s) == s[RunEnd(s, 0, IsSpace)..]
  {
    RunEndUnique(s, 0, IsSpace, |s| - |TrimStart(s)|);
  }

  /** The end-trimmed suffix from `i` is a slice from `i` followed only by
      white space. */
  lemma TrimEndPiece(s: string, i: nat, r: string)
    requires i <= |s| && r == TrimEnd(s[i..])
    ensures PieceBeforeSpace(s, i, r)
  {
    PrefixOfSuffix(s, i, r);
    SpaceAfter(s, i, |r|);
  }

  /** A prefix of the suffix from `i` is the slice starting at `i`. */
  lemma PrefixOfSuffix<T>(s: seq<T>, i: nat, r: seq<T>)
    requires i <= |s| && |r| <= |s| - i && r == s[i..][..|r|]
    ensures r == s[i..i + |r|]
  {
  }

  lemma SpaceAfter(s: string, i: nat, n: nat)
    requires i <= |s| && n <= |s| - i
    requires forall k :: n <= k < |s[i..]| ==> IsSpace(s[i..][k])
    ensures forall k :: i + n <= k < |s| ==> IsSpace(s[k])
  {
    forall k | i + n <= k < |s| ensures IsSpace(s[k]) {
      assert s[k] == s[i..][k - i];
    }
  }

  // ---------------------------------------------------------------- numbers

  function DigitChar(d: nat): char
    requires d < 10
  {
    ('0' as int + d) as char
  }

  /** The decimal rendering JavaScript gives a non-negative integer. */
  function NatToString(n: nat): (r: string)
    ensures |r| >= 1
    ensures forall c :: c in r ==> IsDigit(c)
    decreases n
  {
    if n < 10 then [DigitChar(n)] else NatToString(n / 10) + [DigitChar(n % 10)]
  }

  /** `s.substring(0, n) + (s.length > n ? '...' : '')` */
  function Abbreviate(s: string, n: nat): (r: string)
    ensures |s| <= n ==> r == s
    ensures |s| > n ==> r == s[..n] + "..."
    ensures |r| <= n + 3
  {
    Take(s, n) + (if |s| > n then "..." else "")
  }
}
