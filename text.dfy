/**
 * The Python string operations the bot relies on, written out over `seq<char>`:
 * `in`, `startswith`, `endswith`, `strip`, `lower`, `isdigit`, `split(c)`,
 * `sep.join`, `sorted(set(...))`. Character classes are the ASCII ones.
 */
module Text {

  // ---------------------------------------------------------------------
  // Character classes
  // ---------------------------------------------------------------------

  predicate IsDigit(c: char) { '0' <= c <= '9' }

  predicate IsLowerLetter(c: char) { 'a' <= c <= 'z' }

  /** The whitespace that `str.strip()` removes, taken as the six characters of `string.whitespace`. */
  predicate IsSpace(c: char) {
    c == ' ' || c == '\t' || c == '\n' || c == '\r' || c == '\U{B}' || c == '\U{C}'
  }

  /** `s.isdigit()`: non-empty and made of digits only. */
  predicate AllDigits(s: string) {
    |s| > 0 && forall i | 0 <= i < |s| :: IsDigit(s[i])
  }

  /** A Wikidata id: the letter (`Q` for items, `P` for properties) and one or more digits. */
  predicate IsId(s: string, letter: char) {
    |s| >= 2 && s[0] == letter && AllDigits(s[1..])
  }

  // ---------------------------------------------------------------------
  // Substrings
  // ---------------------------------------------------------------------

  predicate StartsWith(s: string, prefix: string) { prefix <= s }

  predicate EndsWith(s: string, suffix: string) {
    |suffix| <= |s| && s[|s| - |suffix|..] == suffix
  }

  /** Python's `sub in s`. */
  predicate Contains(s: string, sub: string) {
    exists i | 0 <= i <= |s| :: sub <= s[i..]
  }

  lemma ContainsAt(s: string, sub: string, i: nat)
    requires i + |sub| <= |s| && s[i..i + |sub|] == sub
    ensures Contains(s, sub)
  {
    assert sub <= s[i..];
  }

  /** A substring with no `sep` in it, found in `a + sep + b`, lies wholly in `a` or in `b`. */
  lemma ContainsAcrossSeparator(a: string, sep: char, b: string, sub: string)
    requires sep !in sub && |sub| > 0
    requires Contains(a + [sep] + b, sub)
    ensures Contains(a, sub) || Contains(b, sub)
  {
    var s := a + [sep] + b;
    var i :| 0 <= i <= |s| && sub <= s[i..];
    if i + |sub| <= |a| {
      assert a[i..i + |sub|] == s[i..i + |sub|];
      ContainsAt(a, sub, i);
    } else {
      if i <= |a| {
        PrefixCharAt(s, sub, i, |a|);
        assert false;
      }
      assert b[i - |a| - 1..i - |a| - 1 + |sub|] == s[i..i + |sub|];
      ContainsAt(b, sub, i - |a| - 1);
    }
  }

  lemma PrefixCharAt(s: string, sub: string, i: nat, k: nat)
    requires i <= |s| && sub <= s[i..] && i <= k < i + |sub|
    ensures s[k] in sub
  {
    assert sub[k - i] == s[k];
  }

  lemma NotContainsEmptyParts(s: string, sub: string)
    requires |s| < |sub|
    ensures !Contains(s, sub)
  {
  }

  // ---------------------------------------------------------------------
  // strip
  // ---------------------------------------------------------------------

  /** A string with no whitespace at either end. */
  predicate IsStripped(s: string) {
    s == [] || (!IsSpace(s[0]) && !IsSpace(s[|s| - 1]))
  }

  function TrimLeft(s: string): (r: string)
    ensures |r| <= |s|
  {
    if |s| > 0 && IsSpace(s[0]) then TrimLeft(s[1..]) else s
  }

  function TrimRight(s: string): (r: string)
    ensures |r| <= |s|
  {
    if |s| > 0 && IsSpace(s[|s| - 1]) then TrimRight(s[..|s| - 1]) else s
  }

  /** `lstrip()` drops leading whitespace only: what remains is a suffix of `s`. */
  lemma {:induction false} TrimLeftFacts(s: string)
    ensures var r := TrimLeft(s);
      && |r| <= |s| && r == s[|s| - |r|..]
      && (r == [] || !IsSpace(r[0]))
      && forall i | 0 <= i < |s| - |r| :: IsSpace(s[i])
  {
    if |s| > 0 && IsSpace(s[0]) {
      TrimLeftFacts(s[1..]);
    }
  }

  /** `rstrip()` drops trailing whitespace only: what remains is a prefix of `s`. */
  lemma {:induction false} TrimRightFacts(s: string)
    ensures var r := TrimRight(s);
      && |r| <= |s| && r == s[..|r|]
      && (r == [] || !IsSpace(r[|r| - 1]))
      && forall i | |r| <= i < |s| :: IsSpace(s[i])
  {
    if |s| > 0 && IsSpace(s[|s| - 1]) {
      TrimRightFacts(s[..|s| - 1]);
    }
  }

  /** `s.strip()`: the longest middle part of `s` with no whitespace at either end. */
  function Strip(s: string): (r: string)
    ensures IsStripped(r) && |r| <= |s|
  {
    TrimLeftFacts(s);
    TrimRightFacts(TrimLeft(s));
    TrimRight(TrimLeft(s))
  }

  /** Where the stripped text sits in `s`: after the leading and before the trailing whitespace. */
  lemma StripIsMiddle(s: string)
    ensures var k, r := |s| - |TrimLeft(s)|, Strip(s);
      && k + |r| <= |s|
      && r == s[k..k + |r|]
      && (forall i | 0 <= i < k :: IsSpace(s[i]))
      && (forall i | k + |r| <= i < |s| :: IsSpace(s[i]))
  {
    var l := TrimLeft(s);
    TrimLeftFacts(s);
    TrimRightFacts(l);
    var k, r := |s| - |l|, Strip(s);
    assert r == l[..|r|];
    forall i | k + |r| <= i < |s| ensures IsSpace(s[i]) {
      assert s[i] == l[i - k];
    }
  }

  lemma StripOfStripped(s: string)
    requires IsStripped(s)
    ensures Strip(s) == s
  {
  }

  /** `strip()` yields "" exactly for strings made of whitespace. */
  lemma StripEmptyIffBlank(s: string)
    ensures Strip(s) == "" <==> forall i | 0 <= i < |s| :: IsSpace(s[i])
  {
    StripIsMiddle(s);
    var l := TrimLeft(s);
    TrimLeftFacts(s);
    TrimRightFacts(l);
    if Strip(s) == "" {
      assert TrimRight(l) == "";
      assert l == [];
    } else {
      var r := Strip(s);
      var k := |s| - |TrimLeft(s)|;
      assert s[k] == r[0] && !IsSpace(s[k]);
    }
  }

  // ---------------------------------------------------------------------
  // lower
  // ---------------------------------------------------------------------

  function LowerChar(c: char): char {
    if 'A' <= c <= 'Z' then ((c as int) + 32) as char else c
  }

  /** `s.lower()` on ASCII letters. */
  function Lower(s: string): (r: string)
    ensures |r| == |s|
  {
    if s == [] then [] else [LowerChar(s[0])] + Lower(s[1..])
  }

  /** `a.lower() == b.lower()`. */
  predicate EqualsIgnoreCase(a: string, b: string) { Lower(a) == Lower(b) }

  // ---------------------------------------------------------------------
  // split / join
  // ---------------------------------------------------------------------

  /** Number of occurrences of `c` in `s`. */
  function Count(s: string, c: char): nat {
    if s == [] then 0 else (if s[0] == c then 1 else 0) + Count(s[1..], c)
  }

  /** `s.split(c)`: the pieces between occurrences of `c`; never empty. */
  function SplitOn(s: string, c: char): (parts: seq<string>)
    ensures |parts| >= 1
  {
    if s == [] then [""]
    else
      var rest := SplitOn(s[1..], c);
      if s[0] == c then [""] + rest else [[s[0]] + rest[0]] + rest[1..]
  }

  /** `sep.join(parts)`. */
  function Join(parts: seq<string>, sep: string): string {
    if |parts| == 0 then ""
    else if |parts| == 1 then parts[0]
    else parts[0] + sep + Join(parts[1..], sep)
  }

  function Last<T>(xs: seq<T>): T
    requires |xs| > 0
  {
    xs[|xs| - 1]
  }

  /** `s.split(c)[-1]`: the text after the last `c`. */
  function LastSegment(s: string, c: char): string {
    Last(SplitOn(s, c))
  }

  /** There is one more piece than there are separators. */
  lemma {:induction false} SplitCount(s: string, c: char)
    ensures |SplitOn(s, c)| == Count(s, c) + 1
  {
    if s != [] {
      SplitCount(s[1..], c);
    }
  }

  /** No piece contains the separator. */
  lemma {:induction false} SplitPiecesAvoidSeparator(s: string, c: char)
    ensures forall p | p in SplitOn(s, c) :: c !in p
  {
    if s != [] {
      SplitPiecesAvoidSeparator(s[1..], c);
      var rest := SplitOn(s[1..], c);
      if s[0] != c {
        assert c !in rest[0];
        forall p | p in SplitOn(s, c) ensures c !in p {
          if p != [s[0]] + rest[0] {
            assert p in rest[1..];
          }
        }
      }
    }
  }

  /** A string without the separator splits into itself. */
  lemma {:induction false} SplitWithoutSeparator(s: string, c: char)
    requires c !in s
    ensures SplitOn(s, c) == [s]
  {
    if s != [] {
      assert s[0] != c && c !in s[1..];
      SplitWithoutSeparator(s[1..], c);
      assert [s[0]] + s[1..] == s;
    }
  }

  /** The split of a non-empty string, one character at a time. */
  lemma SplitCons(s: string, c: char)
    requires s != []
    ensures var rest := SplitOn(s[1..], c);
      SplitOn(s, c) == if s[0] == c then [""] + rest else [[s[0]] + rest[0]] + rest[1..]
  {
  }

  /** How the pieces of `a + b` are made from those of `a` and `b`. */
  ghost predicate SplitsAsAppend(a: string, b: string, c: char) {
    var sa, sb := SplitOn(a, c), SplitOn(b, c);
    SplitOn(a + b, c) == sa[..|sa| - 1] + [Last(sa) + sb[0]] + sb[1..]
  }

  lemma SplitAppendStep(a: string, b: string, c: char)
    requires a != [] && SplitsAsAppend(a[1..], b, c)
    ensures SplitsAsAppend(a, b, c)
  {
    assert (a + b)[1..] == a[1..] + b && (a + b)[0] == a[0];
    SplitCons(a, c);
    SplitCons(a + b, c);
    var sa' := SplitOn(a[1..], c);
    if a[0] == c {
      SplitAppendAfterSeparator(SplitOn(a, c), sa', SplitOn(b, c), SplitOn(a + b, c), SplitOn(a[1..] + b, c));
    } else {
      SplitAppendAfterChar(a[0], SplitOn(a, c), sa', SplitOn(b, c), SplitOn(a + b, c), SplitOn(a[1..] + b, c));
    }
  }

  lemma SplitAppendAfterSeparator(sa: seq<string>, sa': seq<string>, sb: seq<string>, sab: seq<string>, rest: seq<string>)
    requires |sa'| >= 1 && |sb| >= 1
    requires sa == [""] + sa' && sab == [""] + rest
    requires rest == sa'[..|sa'| - 1] + [Last(sa') + sb[0]] + sb[1..]
    ensures sab == sa[..|sa| - 1] + [Last(sa) + sb[0]] + sb[1..]
  {
    assert sa[..|sa| - 1] == [""] + sa'[..|sa'| - 1];
  }

  lemma SplitAppendAfterChar(x: char, sa: seq<string>, sa': seq<string>, sb: seq<string>, sab: seq<string>, rest: seq<string>)
    requires |sa'| >= 1 && |sb| >= 1 && |rest| >= 1
    requires sa == [[x] + sa'[0]] + sa'[1..] && sab == [[x] + rest[0]] + rest[1..]
    requires rest == sa'[..|sa'| - 1] + [Last(sa') + sb[0]] + sb[1..]
    ensures sab == sa[..|sa| - 1] + [Last(sa) + sb[0]] + sb[1..]
  {
    if |sa'| == 1 {
      assert rest[0] == sa'[0] + sb[0] && rest[1..] == sb[1..];
      assert [x] + (sa'[0] + sb[0]) == ([x] + sa'[0]) + sb[0];
    } else {
      assert rest[0] == sa'[0];
      assert rest[1..] == sa'[1..|sa'| - 1] + [Last(sa') + sb[0]] + sb[1..];
      assert sa[..|sa| - 1] == [[x] + sa'[0]] + sa'[1..|sa'| - 1];
    }
  }

  /** Splitting a concatenation glues the last piece of `a` to the first piece of `b`. */
  lemma {:induction false} SplitAppend(a: string, b: string, c: char)
    ensures SplitsAsAppend(a, b, c)
  {
    if a == [] {
      var sb := SplitOn(b, c);
      assert a + b == b && "" + sb[0] == sb[0] && [sb[0]] + sb[1..] == sb;
    } else {
      SplitAppend(a[1..], b, c);
      SplitAppendStep(a, b, c);
    }
  }

  /** The text after the last separator of `a + b`, when `a` ends in it and `b` has none, is `b`. */
  lemma LastSegmentAfterSeparator(a: string, b: string, c: char)
    requires |a| > 0 && a[|a| - 1] == c && c !in b
    ensures LastSegment(a + b, c) == b
  {
    SplitAppend(a, b, c);
    SplitWithoutSeparator(b, c);
    var a0 := a[..|a| - 1];
    assert a == a0 + [c];
    SplitAppend(a0, [c], c);
    assert SplitOn([c], c) == ["", ""];
  }

  /** Joining the pieces of a split gives back the string. */
  lemma {:induction false} JoinSplit(s: string, c: char)
    ensures Join(SplitOn(s, c), [c]) == s
  {
    if s != [] {
      JoinSplit(s[1..], c);
      var rest := SplitOn(s[1..], c);
      if s[0] == c {
        assert SplitOn(s, c)[1..] == rest;
      } else {
        var parts := SplitOn(s, c);
        if |rest| == 1 {
          assert parts == [[s[0]] + rest[0]];
        } else {
          assert parts[1..] == rest[1..];
          assert Join(rest, [c]) == rest[0] + [c] + Join(rest[1..], [c]);
        }
      }
    }
  }

  /** Splitting a join of separator-free pieces gives the pieces back. */
  lemma {:induction false} SplitJoin(xs: seq<string>, c: char)
    requires |xs| >= 1
    requires forall x | x in xs :: c !in x
    ensures SplitOn(Join(xs, [c]), c) == xs
  {
    if |xs| == 1 {
      SplitWithoutSeparator(xs[0], c);
    } else {
      var j := Join(xs[1..], [c]);
      SplitJoin(xs[1..], c);
      assert Join(xs, [c]) == xs[0] + ([c] + j);
      SplitAppend(xs[0], [c] + j, c);
      SplitWithoutSeparator(xs[0], c);
      assert ([c] + j)[1..] == j && ([c] + j)[0] == c;
      assert SplitOn([c] + j, c) == [""] + SplitOn(j, c);
      assert xs[0] + "" == xs[0];
      assert xs == [xs[0]] + xs[1..];
    }
  }

  /** `sep.join` begins with the first piece and ends with the last. */
  lemma {:induction false} JoinEnds(parts: seq<string>, sep: string)
    requires |parts| >= 1
    ensures parts[0] <= Join(parts, sep)
    ensures EndsWith(Join(parts, sep), Last(parts))
  {
    if |parts| > 1 {
      JoinEnds(parts[1..], sep);
      var j := Join(parts[1..], sep);
      assert Join(parts, sep) == parts[0] + sep + j;
      assert Join(parts, sep)[|Join(parts, sep)| - |j|..] == j;
    }
  }

  /** Joining non-empty stripped chunks with single spaces gives a stripped string,
      so a later `strip()` leaves it as it is. */
  lemma JoinOfStrippedChunks(chunks: seq<string>)
    requires forall x | x in chunks :: x != "" && IsStripped(x)
    ensures IsStripped(Join(chunks, " "))
    ensures Strip(Join(chunks, " ")) == Join(chunks, " ")
  {
    if |chunks| > 0 {
      JoinEnds(chunks, " ");
      var j := Join(chunks, " ");
      var l := Last(chunks);
      assert l in chunks && chunks[0] in chunks;
      assert j[0] == chunks[0][0];
      assert j[|j| - 1] == l[|l| - 1];
    }
    StripOfStripped(Join(chunks, " "));
  }

  // ---------------------------------------------------------------------
  // Ordering and sorted(set(...))
  // ---------------------------------------------------------------------

  /** Python's `<` on strings: code-point lexicographic, a proper prefix first. */
  predicate LexLess(a: string, b: string) {
    if |a| == 0 then |b| > 0
    else |b| > 0 && (a[0] < b[0] || (a[0] == b[0] && LexLess(a[1..], b[1..])))
  }

  lemma {:induction false} LexIrreflexive(a: string)
    ensures !LexLess(a, a)
  {
    if |a| > 0 {
      LexIrreflexive(a[1..]);
    }
  }

  lemma {:induction false} LexTransitive(a: string, b: string, c: string)
    requires LexLess(a, b) && LexLess(b, c)
    ensures LexLess(a, c)
  {
    if |a| > 0 && a[0] == b[0] && b[0] == c[0] {
      LexTransitive(a[1..], b[1..], c[1..]);
    }
  }

  lemma {:induction false} LexTotal(a: string, b: string)
    requires a != b
    ensures LexLess(a, b) || LexLess(b, a)
  {
    if |a| > 0 && |b| > 0 && a[0] == b[0] {
      assert a == [a[0]] + a[1..] && b == [b[0]] + b[1..];
      LexTotal(a[1..], b[1..]);
    }
  }

  lemma LexAsymmetric(a: string, b: string)
    requires LexLess(a, b)
    ensures !LexLess(b, a)
  {
    if LexLess(b, a) {
      LexTransitive(a, b, a);
      LexIrreflexive(a);
    }
  }

  /** Strictly increasing, hence free of duplicates. */
  predicate StrictlySorted(xs: seq<string>) {
    forall i, j | 0 <= i < j < |xs| :: LexLess(xs[i], xs[j])
  }

  lemma SortedIsDistinct(xs: seq<string>)
    requires StrictlySorted(xs)
    ensures forall i, j | 0 <= i < j < |xs| :: xs[i] != xs[j]
  {
    forall i, j | 0 <= i < j < |xs| ensures xs[i] != xs[j] {
      LexIrreflexive(xs[i]);
    }
  }

  function InsertSorted(x: string, xs: seq<string>): (r: seq<string>)
    requires StrictlySorted(xs)
    ensures StrictlySorted(r)
    ensures forall y :: y in r <==> y == x || y in xs
  {
    if xs == [] then [x]
    else if x == xs[0] then xs
    else if LexLess(x, xs[0]) then
      assert forall j | 0 < j < |xs| :: LexLess(x, xs[j]) by {
        forall j | 0 < j < |xs| ensures LexLess(x, xs[j]) {
          LexTransitive(x, xs[0], xs[j]);
        }
      }
      [x] + xs
    else
      var tail := InsertSorted(x, xs[1..]);
      LexTotal(x, xs[0]);
      assert forall y | y in tail :: LexLess(xs[0], y) by {
        forall y | y in tail ensures LexLess(xs[0], y) {
          if y != x {
            var j :| 0 <= j < |xs[1..]| && xs[1..][j] == y;
            assert xs[j + 1] == y;
          }
        }
      }
      [xs[0]] + tail
  }

  /** `sorted(set(xs))`: the distinct elements of `xs` in increasing order. */
  function SortedUnique(xs: seq<string>): (r: seq<string>)
    ensures StrictlySorted(r)
    ensures forall y :: y in r <==> y in xs
  {
    if xs == [] then [] else InsertSorted(xs[0], SortedUnique(xs[1..]))
  }
}
