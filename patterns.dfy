/**
 * The regular expressions of the report parsers, all of one shape: a literal
 * prefix, one or more runs `[class]+`, then a literal suffix, with one capture
 * group that starts inside the prefix and ends before the suffix:
 *
 *   `\[\[(Q\d+)\]\]`, `\[\[Property:(P\d+)\]\]`, `#(P\d+)`, `Property:(P\d+)`,
 *   `https://id\.loc\.gov/authorities/[a-z]+\d+`.
 *
 * In each of them the character that follows a run can never belong to the
 * run's class, so the greedy leftmost match of Python's `re` needs no
 * backtracking: every run is maximal. `FindAll` is `re.findall` (a left-to-right
 * scan that resumes after each match) and `Search` is `re.search`.
 */
module Patterns {
  import opened Text
  import opened Wrappers

  datatype CharClass = Digits | LowerLetters

  predicate InClass(c: char, k: CharClass) {
    match k
    case Digits => IsDigit(c)
    case LowerLetters => IsLowerLetter(c)
  }

  datatype Pattern = Pattern(prefix: string, runs: seq<CharClass>, suffix: string, groupStart: nat)

  /** `\[\[(Q\d+)\]\]` */
  const QidLink := Pattern("[[Q", [Digits], "]]", 2)
  /** `\[\[Property:(P\d+)\]\]` */
  const PropertyLink := Pattern("[[Property:P", [Digits], "]]", 11)
  /** `(https://id\.loc\.gov/authorities/[a-z]+\d+)` */
  const LccnUrl := Pattern("https://id.loc.gov/authorities/", [LowerLetters, Digits], "", 0)
  /** `#(P\d+)` */
  const HashProperty := Pattern("#P", [Digits], "", 1)
  /** `Property:(P\d+)` */
  const PropertyPath := Pattern("Property:P", [Digits], "", 9)

  /** Length of the longest run of class `k` starting at `i`. */
  function RunLength(s: string, i: nat, k: CharClass): (n: nat)
    requires i <= |s|
    ensures i + n <= |s|
    ensures forall j | i <= j < i + n :: InClass(s[j], k)
    ensures i + n == |s| || !InClass(s[i + n], k)
    decreases |s| - i
  {
    if i < |s| && InClass(s[i], k) then 1 + RunLength(s, i + 1, k) else 0
  }

  /** Greedy match of the runs from `i`; the position after the last run. */
  function MatchRuns(s: string, i: nat, runs: seq<CharClass>): (r: Option<nat>)
    requires i <= |s|
    ensures r.Some? ==> i <= r.value <= |s|
    ensures r.Some? && runs != [] ==> i < r.value
    decreases |runs|
  {
    if runs == [] then Some(i)
    else
      var n := RunLength(s, i, runs[0]);
      if n == 0 then None else MatchRuns(s, i + n, runs[1..])
  }

  /** The end of the match of `p` that starts at `i`, if there is one. */
  function MatchAt(s: string, i: nat, p: Pattern): (r: Option<nat>)
    requires i <= |s|
    ensures r.Some? ==> i + |p.prefix| + |p.suffix| <= r.value <= |s|
  {
    if p.prefix <= s[i..] then
      match MatchRuns(s, i + |p.prefix|, p.runs)
      case None => None
      case Some(e) => if p.suffix <= s[e..] then Some(e + |p.suffix|) else None
    else None
  }

  /** `(start, end)` of every match found scanning from `i`, as `re.findall` finds them. */
  function SpansFrom(s: string, i: nat, p: Pattern): (spans: seq<(nat, nat)>)
    requires i <= |s|
    ensures forall k | 0 <= k < |spans| :: i <= spans[k].0 <= |s| && MatchAt(s, spans[k].0, p) == Some(spans[k].1)
    decreases |s| - i
  {
    if i == |s| then
      (if MatchAt(s, i, p).Some? then [(i, MatchAt(s, i, p).value)] else [])
    else
      match MatchAt(s, i, p)
      case Some(e) =>
        var next := if e > i then e else i + 1;
        [(i, e)] + SpansFrom(s, next, p)
      case None => SpansFrom(s, i + 1, p)
  }

  function Spans(s: string, p: Pattern): seq<(nat, nat)> {
    SpansFrom(s, 0, p)
  }

  /** `p.findall(s)` for a pattern without groups: the matched texts. */
  function FindAll(s: string, p: Pattern): (ms: seq<string>)
    ensures |ms| == |Spans(s, p)|
  {
    var spans := Spans(s, p);
    seq(|spans|, k requires 0 <= k < |spans| => s[spans[k].0..spans[k].1])
  }

  /** The text of the capture group of the match `(b, e)`. */
  function GroupOf(s: string, p: Pattern, b: nat, e: nat): string
    requires b <= |s| && MatchAt(s, b, p) == Some(e)
    requires p.groupStart <= |p.prefix|
  {
    s[b + p.groupStart..e - |p.suffix|]
  }

  /** `p.findall(s)` for a pattern with one group: the captured texts. */
  function FindGroups(s: string, p: Pattern): (gs: seq<string>)
    requires p.groupStart <= |p.prefix|
    ensures |gs| == |Spans(s, p)|
  {
    var spans := Spans(s, p);
    seq(|spans|, k requires 0 <= k < |spans| => GroupOf(s, p, spans[k].0, spans[k].1))
  }

  /** `p.search(s)`: the leftmost match. */
  function Search(s: string, p: Pattern): Option<(nat, nat)> {
    var spans := Spans(s, p);
    if spans == [] then None else Some(spans[0])
  }

  /** `p.search(s).group(1)`, when there is a match. */
  function SearchGroup(s: string, p: Pattern): Option<string>
    requires p.groupStart <= |p.prefix|
  {
    var spans := Spans(s, p);
    if spans == [] then None else Some(GroupOf(s, p, spans[0].0, spans[0].1))
  }

  // ---------------------------------------------------------------------
  // What a match looks like
  // ---------------------------------------------------------------------

  lemma OneRun(s: string, i: nat, k: CharClass)
    requires i <= |s| && MatchRuns(s, i, [k]).Some?
    ensures var e := MatchRuns(s, i, [k]).value;
      i < e && forall j | i <= j < e :: InClass(s[j], k)
  {
    assert [k][1..] == [];
  }

  lemma TwoRuns(s: string, i: nat, e: nat, k1: CharClass, k2: CharClass)
    requires i <= |s| && MatchRuns(s, i, [k1, k2]) == Some(e)
    ensures var n := i + RunLength(s, i, k1);
      i < n < e && (forall j | i <= j < n :: InClass(s[j], k1)) && (forall j | n <= j < e :: InClass(s[j], k2))
  {
    var n := i + RunLength(s, i, k1);
    assert [k1, k2][1..] == [k2];
    OneRun(s, n, k2);
  }

  /** A match of a one-run pattern is the prefix, a non-empty run, and the suffix. */
  lemma OneRunMatch(s: string, b: nat, e: nat, p: Pattern)
    requires |p.runs| == 1 && b <= |s| && MatchAt(s, b, p) == Some(e)
    ensures && s[b..b + |p.prefix|] == p.prefix
      && b + |p.prefix| < e - |p.suffix|
      && (forall j | b + |p.prefix| <= j < e - |p.suffix| :: InClass(s[j], p.runs[0]))
      && s[e - |p.suffix|..e] == p.suffix
  {
    assert p.runs == [p.runs[0]];
    OneRun(s, b + |p.prefix|, p.runs[0]);
  }

  /** A non-empty stretch of `s` in the class `Digits` is an all-digit text. */
  lemma DigitsRange(s: string, lo: nat, hi: nat)
    requires lo < hi <= |s|
    requires forall j | lo <= j < hi :: InClass(s[j], Digits)
    ensures AllDigits(s[lo..hi])
  {
    forall i | 0 <= i < hi - lo ensures IsDigit(s[lo..hi][i]) {
      assert InClass(s[lo + i], Digits);
    }
  }

  /** The group of one match of a one-digit-run pattern: the rest of the prefix, then digits. */
  lemma GroupOfOneRun(s: string, p: Pattern, b: nat, e: nat)
    requires |p.runs| == 1 && p.runs[0] == Digits && p.groupStart <= |p.prefix|
    requires b <= |s| && MatchAt(s, b, p) == Some(e)
    ensures var g, head := GroupOf(s, p, b, e), p.prefix[p.groupStart..];
      |head| < |g| && g[..|head|] == head && AllDigits(g[|head|..])
  {
    OneRunMatch(s, b, e, p);
    var lo, mid, hi := b + p.groupStart, b + |p.prefix|, e - |p.suffix|;
    DigitsRange(s, mid, hi);
    var g := s[lo..hi];
    assert g[..mid - lo] == s[b..mid][p.groupStart..];
    assert g[mid - lo..] == s[mid..hi];
  }

  /** Every group that a pattern such as `#(P\d+)` captures is the rest of the prefix followed by digits. */
  lemma GroupsOfOneRunPattern(s: string, p: Pattern)
    requires |p.runs| == 1 && p.runs[0] == Digits && p.groupStart <= |p.prefix|
    ensures forall g | g in FindGroups(s, p) ::
      var head := p.prefix[p.groupStart..];
      |head| < |g| && g[..|head|] == head && AllDigits(g[|head|..])
  {
    var spans := Spans(s, p);
    var gs := FindGroups(s, p);
    forall k | 0 <= k < |gs|
      ensures var head := p.prefix[p.groupStart..];
        |head| < |gs[k]| && gs[k][..|head|] == head && AllDigits(gs[k][|head|..])
    {
      GroupOfOneRun(s, p, spans[k].0, spans[k].1);
    }
  }

  /** A one-digit-run pattern whose group starts at the prefix's last letter captures an id. */
  lemma GroupIsId(s: string, p: Pattern, b: nat, e: nat, letter: char)
    requires |p.runs| == 1 && p.runs[0] == Digits && p.groupStart <= |p.prefix|
    requires p.prefix[p.groupStart..] == [letter]
    requires b <= |s| && MatchAt(s, b, p) == Some(e)
    ensures IsId(GroupOf(s, p, b, e), letter)
  {
    GroupOfOneRun(s, p, b, e);
    var g := GroupOf(s, p, b, e);
    assert g[0] == g[..1][0];
  }

  /** `[[(Q\d+)]]` captures item ids and `[[Property:(P\d+)]]` property ids. */
  lemma GroupsAreIds(s: string, p: Pattern, letter: char)
    requires (p == QidLink && letter == 'Q') || (p == PropertyLink && letter == 'P')
    ensures forall g | g in FindGroups(s, p) :: IsId(g, letter)
  {
    var spans := Spans(s, p);
    var gs := FindGroups(s, p);
    forall k | 0 <= k < |gs| ensures IsId(gs[k], letter) {
      GroupIsId(s, p, spans[k].0, spans[k].1, letter);
    }
  }

  /** The group `#(P\d+)` or `Property:(P\d+)` finds is a property id. */
  lemma SearchGroupIsProperty(s: string, p: Pattern)
    requires p == HashProperty || p == PropertyPath
    ensures SearchGroup(s, p).Some? ==> IsId(SearchGroup(s, p).value, 'P')
  {
    var spans := Spans(s, p);
    if spans != [] {
      GroupIsId(s, p, spans[0].0, spans[0].1, 'P');
    }
  }

  /** A match starts with the pattern's prefix. */
  lemma MatchStartsWithPrefix(s: string, b: nat, e: nat, p: Pattern)
    requires b <= |s| && MatchAt(s, b, p) == Some(e)
    ensures b + |p.prefix| <= e && s[b..e] == p.prefix + s[b + |p.prefix|..e]
  {
    assert p.prefix <= s[b..];
    assert s[b..e][..|p.prefix|] == p.prefix;
  }

  /** Without a suffix, a match ends where the runs after the prefix end. */
  lemma RunsAfterPrefix(s: string, b: nat, e: nat, p: Pattern)
    requires p.suffix == []
    requires b <= |s| && MatchAt(s, b, p) == Some(e)
    ensures b + |p.prefix| <= |s| && MatchRuns(s, b + |p.prefix|, p.runs) == Some(e)
  {
  }

  /** Letters from `lo` to `mid` and digits from `mid` to `hi`: an LCCN-shaped text free of `/`. */
  lemma ShapedRange(s: string, lo: nat, mid: nat, hi: nat)
    requires lo < mid < hi <= |s|
    requires forall j | lo <= j < mid :: InClass(s[j], LowerLetters)
    requires forall j | mid <= j < hi :: InClass(s[j], Digits)
    ensures '/' !in s[lo..hi] && IsLccnShaped(s[lo..hi])
  {
    var tail := s[lo..hi];
    forall j | 0 <= j < |tail|
      ensures tail[j] != '/' && (j < mid - lo ==> IsLowerLetter(tail[j])) && (j >= mid - lo ==> IsDigit(tail[j]))
    {
      assert tail[j] == s[lo + j];
    }
    assert LccnShapedAt(tail, mid - lo);
  }

  /** A match of a pattern of the shape `prefix[a-z]+\d+`: the prefix, then a tail of letters and
      digits that holds no `/`. */
  lemma LettersDigitsMatch(s: string, b: nat, e: nat, p: Pattern)
    requires p.runs == [LowerLetters, Digits] && p.suffix == []
    requires b <= |s| && MatchAt(s, b, p) == Some(e)
    ensures var t := b + |p.prefix|;
      t < e && s[b..e] == p.prefix + s[t..e] && '/' !in s[t..e] && IsLccnShaped(s[t..e])
  {
    var n := |p.prefix|;
    MatchStartsWithPrefix(s, b, e, p);
    RunsAfterPrefix(s, b, e, p);
    var lo := b + n;
    var mid := lo + RunLength(s, lo, LowerLetters);
    TwoRuns(s, lo, e, LowerLetters, Digits);
    ShapedRange(s, lo, mid, e);
  }

  /** One `https://id.loc.gov/authorities/…` match: the prefix, then an LCCN-shaped tail
      that holds no `/`, so that `split('/')[-1]` yields the tail. */
  lemma LccnUrlMatch(s: string, b: nat, e: nat)
    requires b <= |s| && MatchAt(s, b, LccnUrl) == Some(e)
    ensures var m, n := s[b..e], |LccnUrl.prefix|;
      |m| > n && m[..n] == LccnUrl.prefix && LastSegment(m, '/') == m[n..] && IsLccnShaped(m[n..])
  {
    var pre := LccnUrl.prefix;
    LettersDigitsMatch(s, b, e, LccnUrl);
    var m := s[b..e];
    var tail := s[b + |pre|..e];
    assert m[|pre|..] == tail;
    assert pre[|pre| - 1] == '/';
    LastSegmentAfterSeparator(pre, tail, '/');
  }

  /** Every `https://id.loc.gov/authorities/…` match ends in lower-case letters followed by
      digits, and `split('/')[-1]` of the match is exactly that letters-and-digits tail. */
  lemma LccnUrlMatches(s: string)
    ensures forall m | m in FindAll(s, LccnUrl) ::
      var n := |LccnUrl.prefix|;
      |m| > n && m[..n] == LccnUrl.prefix && LastSegment(m, '/') == m[n..] && IsLccnShaped(m[n..])
  {
    var spans := Spans(s, LccnUrl);
    var ms := FindAll(s, LccnUrl);
    var n := |LccnUrl.prefix|;
    forall k | 0 <= k < |ms|
      ensures |ms[k]| > n && ms[k][..n] == LccnUrl.prefix && LastSegment(ms[k], '/') == ms[k][n..] && IsLccnShaped(ms[k][n..])
    {
      LccnUrlMatch(s, spans[k].0, spans[k].1);
    }
  }

  /** `[a-z]+\d+` with the letters ending at `cut`. */
  predicate LccnShapedAt(t: string, cut: nat) {
    0 < cut < |t|
    && (forall j | 0 <= j < cut :: IsLowerLetter(t[j]))
    && (forall j | cut <= j < |t| :: IsDigit(t[j]))
  }

  /** `[a-z]+\d+`: one or more lower-case letters, then one or more digits. */
  predicate IsLccnShaped(t: string) {
    exists cut | 0 < cut < |t| :: LccnShapedAt(t, cut)
  }
}
