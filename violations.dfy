/**
 * `parse_wikidata_violations`: the raw wikitext of the P244 constraint-violations
 * report, read line by line. A `== name ==` line opens (or reopens, emptying it)
 * a section; every later line that mentions an item `[[Q…]]`, an LCCN URL or a
 * property `[[Property:P…]]` becomes one violation record of the open section.
 * The `{{Constraint violations report|date=…|item count=…}}` line gives the
 * metadata, and a report of fewer than ten lines carries a warning.
 */
module Violations {
  import opened Text
  import opened Wrappers
  import Patterns

  // ---------------------------------------------------------------------
  // str.splitlines
  // ---------------------------------------------------------------------

  /** The line boundaries of `str.splitlines` (`\r\n` counts as one). */
  predicate IsLineBreak(c: char) {
    || c == '\n' || c == '\r' || c == '\U{B}' || c == '\U{C}'
    || c == '\U{1C}' || c == '\U{1D}' || c == '\U{1E}'
    || c == '\U{85}' || c == '\U{2028}' || c == '\U{2029}'
  }

  /** The first line boundary at or after `i`, or the end of `s`. */
  function BreakAt(s: string, i: nat): (r: nat)
    requires i <= |s|
    ensures i <= r <= |s|
    ensures r == |s| || IsLineBreak(s[r])
    ensures forall k | i <= k < r :: !IsLineBreak(s[k])
    decreases |s| - i
  {
    if i == |s| || IsLineBreak(s[i]) then i else BreakAt(s, i + 1)
  }

  predicate NoLineBreak(s: string) {
    forall j | 0 <= j < |s| :: !IsLineBreak(s[j])
  }

  /** `s.splitlines()`: no empty piece after a final boundary, and no piece at all for "". */
  function SplitLines(s: string): (lines: seq<string>)
    ensures s != [] <==> lines != []
    ensures forall k | 0 <= k < |lines| :: NoLineBreak(lines[k])
    decreases |s|
  {
    if s == [] then []
    else
      var n := BreakAt(s, 0);
      if n == |s| then [s]
      else
        var skip := if s[n] == '\r' && n + 1 < |s| && s[n + 1] == '\n' then 2 else 1;
        [s[..n]] + SplitLines(s[n + skip..])
  }

  /** Text whose only line boundary is `\n`, not ending in one, is its lines joined by `\n`. */
  lemma {:induction false} SplitLinesJoin(s: string)
    requires forall j | 0 <= j < |s| :: s[j] == '\n' || !IsLineBreak(s[j])
    requires s != [] ==> s[|s| - 1] != '\n'
    ensures Join(SplitLines(s), "\n") == s
  {
    if s != [] {
      var n := BreakAt(s, 0);
      if n < |s| {
        var rest := s[n + 1..];
        assert s[n] == '\n';
        SplitLinesJoin(rest);
        assert SplitLines(s) == [s[..n]] + SplitLines(rest);
        assert s == s[..n] + "\n" + rest;
      }
    }
  }

  // ---------------------------------------------------------------------
  // The three kinds of line
  // ---------------------------------------------------------------------

  /** The fixed text of the metadata line around its date and its item count. */
  datatype MetaTemplate = MetaTemplate(open: string, count: string, close: string)

  const MetaLine := MetaTemplate("{{Constraint violations report|date=", "|item count=", "}}")

  /** The metadata line: the raw date text and the item count. */
  datatype Metadata = Metadata(date: string, itemCount: nat)

  /** The length of the run of digits that ends `s`. */
  function TrailingDigits(s: string): (n: nat)
    ensures n <= |s|
    ensures forall j | |s| - n <= j < |s| :: IsDigit(s[j])
    ensures n < |s| ==> !IsDigit(s[|s| - n - 1])
  {
    if s != [] && IsDigit(s[|s| - 1]) then 1 + TrailingDigits(s[..|s| - 1]) else 0
  }

  /** `int(digits)` */
  function DecimalValue(digits: string): nat {
    if digits == [] then 0
    else
      var d := digits[|digits| - 1];
      DecimalValue(digits[..|digits| - 1]) * 10 + (if IsDigit(d) then d as int - '0' as int else 0)
  }

  /** `^\{\{Constraint violations report\|date=(.*?)\|item count=(\d+)\}\}$`. The lazy date
      group ends at the `|item count=` that begins the final run of digits: a digit run is
      always preceded by `=`, so there is only one place it can end. */
  function MetadataOf(line: string): Option<Metadata> {
    MetadataIn(MetaLine, line)
  }

  function MetadataIn(m: MetaTemplate, line: string): Option<Metadata> {
    if |line| >= |m.open| + |m.close| && m.open <= line && EndsWith(line, m.close) then
      BodyMetadata(m, line[|m.open|..|line| - |m.close|])
    else None
  }

  /** The text between the opening and the closing marks: date, count label, digits. */
  function BodyMetadata(m: MetaTemplate, body: string): Option<Metadata> {
    var n := TrailingDigits(body);
    var head := body[..|body| - n];
    if n > 0 && EndsWith(head, m.count) then
      Some(Metadata(head[..|head| - |m.count|], DecimalValue(body[|body| - n..])))
    else None
  }

  /** `^==\s*(.*?)\s*==$` followed by `.strip()`: the name between the `==` marks. */
  function HeaderOf(line: string): Option<string> {
    if |line| >= 4 && "==" <= line && EndsWith(line, "==") then Some(Strip(line[2..|line| - 2])) else None
  }

  /** One line's violation record: the three `findall` lists. */
  datatype Violation = Violation(qids: seq<string>, lccns: seq<string>, properties: seq<string>)

  /** The LCCN URLs of a line, each cut to its last `/`-segment. */
  function LccnsOf(line: string): (ls: seq<string>)
    ensures |ls| == |Patterns.FindAll(line, Patterns.LccnUrl)|
  {
    var urls := Patterns.FindAll(line, Patterns.LccnUrl);
    seq(|urls|, k requires 0 <= k < |urls| => LastSegment(urls[k], '/'))
  }

  function ViolationOf(line: string): Violation {
    Violation(
      Patterns.FindGroups(line, Patterns.QidLink),
      LccnsOf(line),
      Patterns.FindGroups(line, Patterns.PropertyLink))
  }

  predicate IsEmpty(v: Violation) {
    v.qids == [] && v.lccns == [] && v.properties == []
  }

  // ---------------------------------------------------------------------
  // Sections: an insertion-ordered dictionary from name to violations
  // ---------------------------------------------------------------------

  datatype Section = Section(name: string, violations: seq<Violation>)

  function Names(ss: seq<Section>): seq<string> {
    if ss == [] then [] else [ss[0].name] + Names(ss[1..])
  }

  function Find(ss: seq<Section>, name: string): Option<seq<Violation>> {
    if ss == [] then None
    else if ss[0].name == name then Some(ss[0].violations)
    else Find(ss[1..], name)
  }

  /** `sections[name] = vs`: an existing key keeps its place, a new one goes last. */
  function Assign(ss: seq<Section>, name: string, vs: seq<Violation>): seq<Section> {
    if ss == [] then [Section(name, vs)]
    else if ss[0].name == name then [Section(name, vs)] + ss[1..]
    else [ss[0]] + Assign(ss[1..], name, vs)
  }

  /** `sections[name]['violations'].append(v)` */
  function AppendTo(ss: seq<Section>, name: string, v: Violation): seq<Section> {
    if ss == [] then []
    else if ss[0].name == name then [Section(name, ss[0].violations + [v])] + ss[1..]
    else [ss[0]] + AppendTo(ss[1..], name, v)
  }

  lemma {:induction false} AssignFind(ss: seq<Section>, name: string, vs: seq<Violation>, other: string)
    ensures Find(Assign(ss, name, vs), name) == Some(vs)
    ensures other != name ==> Find(Assign(ss, name, vs), other) == Find(ss, other)
  {
    if ss != [] && ss[0].name != name {
      AssignFind(ss[1..], name, vs, other);
    }
  }

  /** Assigning keeps the key order of the dictionary; a new key is added at the end. */
  lemma {:induction false} AssignNames(ss: seq<Section>, name: string, vs: seq<Violation>)
    ensures Names(Assign(ss, name, vs)) == if name in Names(ss) then Names(ss) else Names(ss) + [name]
  {
    if ss != [] && ss[0].name != name {
      AssignNames(ss[1..], name, vs);
      assert Names(ss) == [ss[0].name] + Names(ss[1..]);
    }
  }

  lemma {:induction false} AppendToFind(ss: seq<Section>, name: string, v: Violation, other: string)
    ensures Find(AppendTo(ss, name, v), name) == if Find(ss, name).Some? then Some(Find(ss, name).value + [v]) else None
    ensures other != name ==> Find(AppendTo(ss, name, v), other) == Find(ss, other)
    ensures Names(AppendTo(ss, name, v)) == Names(ss)
  {
    if ss != [] && ss[0].name != name {
      AppendToFind(ss[1..], name, v, other);
    }
  }

  // ---------------------------------------------------------------------
  // The line loop
  // ---------------------------------------------------------------------

  /** The loop's variables: the metadata so far, `active_section`, and `results['sections']`. */
  datatype Scan = Scan(metadata: Option<Metadata>, active: Option<string>, sections: seq<Section>)

  function StepLine(st: Scan, raw: string): Scan {
    var line := Strip(raw);
    if line == [] then st
    else
      var meta := if MetadataOf(line).Some? then MetadataOf(line) else st.metadata;
      match HeaderOf(line)
      case Some(name) => Scan(meta, Some(name), Assign(st.sections, name, []))
      case None =>
        var v := ViolationOf(line);
        if st.active.Some? && !IsEmpty(v) then Scan(meta, st.active, AppendTo(st.sections, st.active.value, v))
        else Scan(meta, st.active, st.sections)
  }

  function ScanLines(lines: seq<string>): Scan {
    if lines == [] then Scan(None, None, [])
    else StepLine(ScanLines(lines[..|lines| - 1]), lines[|lines| - 1])
  }

  /** The parsed report: metadata, the short-report warning, and the sections in order. */
  datatype Report = Report(metadata: Option<Metadata>, warning: bool, sections: seq<Section>)

  function ReportOf(content: string): Report {
    var lines := SplitLines(content);
    var st := ScanLines(lines);
    Report(st.metadata, |lines| < 10, st.sections)
  }

  /** `parse_wikidata_violations` on raw content. */
  method ParseWikidataViolations(content: string) returns (report: Report)
    ensures report == ReportOf(content)
    ensures report.warning <==> |SplitLines(content)| < 10
  {
    var lines := SplitLines(content);
    var metadata: Option<Metadata> := None;
    var active: Option<string> := None;
    var sections: seq<Section> := [];
    for i := 0 to |lines|
      invariant Scan(metadata, active, sections) == ScanLines(lines[..i])
    {
      assert lines[..i + 1][..i] == lines[..i];
      assert ScanLines(lines[..i + 1]) == StepLine(Scan(metadata, active, sections), lines[i]);
      var line := Strip(lines[i]);
      if line == [] {
        continue;
      }
      var meta := MetadataOf(line);
      if meta.Some? {
        metadata := meta;
      }
      var header := HeaderOf(line);
      if header.Some? {
        active := header;
        sections := Assign(sections, header.value, []);
        continue;
      }
      var v := ViolationOf(line);
      if active.Some? && (v.qids != [] || v.lccns != [] || v.properties != []) {
        sections := AppendTo(sections, active.value, v);
      }
    }
    assert lines[..|lines|] == lines;
    report := Report(metadata, |lines| < 10, sections);
  }

  // ---------------------------------------------------------------------
  // Properties of the parse
  // ---------------------------------------------------------------------

  /** A violation record lists at least one id, its items are `Q…`, its properties `P…`,
      and its LCCNs letters followed by digits. */
  predicate WellFormed(v: Violation) {
    && !IsEmpty(v)
    && (forall q | q in v.qids :: IsId(q, 'Q'))
    && (forall l | l in v.lccns :: Patterns.IsLccnShaped(l))
    && (forall p | p in v.properties :: IsId(p, 'P'))
  }

  predicate AllWellFormed(ss: seq<Section>) {
    forall k, j | 0 <= k < |ss| && 0 <= j < |ss[k].violations| :: WellFormed(ss[k].violations[j])
  }

  lemma ViolationOfWellFormed(line: string)
    requires !IsEmpty(ViolationOf(line))
    ensures WellFormed(ViolationOf(line))
  {
    Patterns.GroupsAreIds(line, Patterns.QidLink, 'Q');
    Patterns.GroupsAreIds(line, Patterns.PropertyLink, 'P');
    Patterns.LccnUrlMatches(line);
    var urls := Patterns.FindAll(line, Patterns.LccnUrl);
    forall l | l in LccnsOf(line) ensures Patterns.IsLccnShaped(l) {
      var k :| 0 <= k < |urls| && l == LastSegment(urls[k], '/');
      assert urls[k] in urls;
    }
  }

  lemma {:induction false} AssignWellFormed(ss: seq<Section>, name: string)
    requires AllWellFormed(ss)
    ensures AllWellFormed(Assign(ss, name, []))
  {
    if ss != [] && ss[0].name != name {
      AssignWellFormed(ss[1..], name);
      var r := Assign(ss, name, []);
      assert r == [ss[0]] + Assign(ss[1..], name, []);
      forall k, j | 0 <= k < |r| && 0 <= j < |r[k].violations| ensures WellFormed(r[k].violations[j]) {
        if k > 0 {
          assert r[k] == Assign(ss[1..], name, [])[k - 1];
        }
      }
    }
  }

  lemma {:induction false} AppendWellFormed(ss: seq<Section>, name: string, v: Violation)
    requires AllWellFormed(ss) && WellFormed(v)
    ensures AllWellFormed(AppendTo(ss, name, v))
  {
    if ss != [] {
      var r := AppendTo(ss, name, v);
      if ss[0].name == name {
        forall k, j | 0 <= k < |r| && 0 <= j < |r[k].violations| ensures WellFormed(r[k].violations[j]) {
          if k == 0 && j < |ss[0].violations| {
            assert r[0].violations[j] == ss[0].violations[j];
          }
        }
      } else {
        AppendWellFormed(ss[1..], name, v);
        assert r == [ss[0]] + AppendTo(ss[1..], name, v);
        forall k, j | 0 <= k < |r| && 0 <= j < |r[k].violations| ensures WellFormed(r[k].violations[j]) {
          if k > 0 {
            assert r[k] == AppendTo(ss[1..], name, v)[k - 1];
          }
        }
      }
    }
  }

  lemma {:induction false} ScanWellFormed(lines: seq<string>)
    ensures AllWellFormed(ScanLines(lines).sections)
  {
    if lines != [] {
      var st := ScanLines(lines[..|lines| - 1]);
      ScanWellFormed(lines[..|lines| - 1]);
      var line := Strip(lines[|lines| - 1]);
      if line != [] {
        if HeaderOf(line).Some? {
          AssignWellFormed(st.sections, HeaderOf(line).value);
        } else if st.active.Some? && !IsEmpty(ViolationOf(line)) {
          ViolationOfWellFormed(line);
          AppendWellFormed(st.sections, st.active.value, ViolationOf(line));
        }
      }
    }
  }

  /** Every violation the parser records names at least one item, LCCN or property, and
      each of them has the shape its pattern demands. */
  lemma ReportWellFormed(content: string)
    ensures AllWellFormed(ReportOf(content).sections)
  {
    ScanWellFormed(SplitLines(content));
  }

  /** Lines before the first section header add nothing: without a header there are no
      sections and no violations. */
  lemma {:induction false} NoHeaderNoSections(lines: seq<string>)
    requires forall k | 0 <= k < |lines| :: HeaderOf(Strip(lines[k])).None?
    ensures ScanLines(lines).sections == [] && ScanLines(lines).active.None?
  {
    if lines != [] {
      NoHeaderNoSections(lines[..|lines| - 1]);
    }
  }

  /** A header line opens its section with no violations, even if the section was seen before;
      the other sections keep theirs. */
  lemma HeaderResetsSection(st: Scan, raw: string, other: string)
    requires HeaderOf(Strip(raw)).Some?
    ensures var name, r := HeaderOf(Strip(raw)).value, StepLine(st, raw);
      && r.active == Some(name)
      && Find(r.sections, name) == Some([])
      && (other != name ==> Find(r.sections, other) == Find(st.sections, other))
  {
    AssignFind(st.sections, HeaderOf(Strip(raw)).value, [], other);
  }

  /** A non-header line adds its record to the open section, and only when the record is
      not empty; no other section changes. */
  lemma ViolationLineAppends(st: Scan, raw: string, other: string)
    requires Strip(raw) != [] && HeaderOf(Strip(raw)).None?
    requires st.active.Some? && Find(st.sections, st.active.value).Some?
    ensures var v, r := ViolationOf(Strip(raw)), StepLine(st, raw);
      && r.active == st.active
      && Find(r.sections, st.active.value) ==
         Some(Find(st.sections, st.active.value).value + (if IsEmpty(v) then [] else [v]))
      && (other != st.active.value ==> Find(r.sections, other) == Find(st.sections, other))
  {
    var v := ViolationOf(Strip(raw));
    if IsEmpty(v) {
      var vs := Find(st.sections, st.active.value).value;
      assert vs + [] == vs;
    } else {
      AppendToFind(st.sections, st.active.value, v, other);
    }
  }

  /** The section named by the header of the text `== name ==` is `name`. */
  lemma HeaderRoundTrip(name: string)
    requires IsStripped(name)
    ensures HeaderOf("==" + name + "==") == Some(name)
  {
    var line := "==" + name + "==";
    assert line[2..|line| - 2] == name;
    StripOfStripped(name);
  }

  lemma TrailingDigitsOf(head: string, digits: string)
    requires AllDigits(digits) && head != [] && !IsDigit(head[|head| - 1])
    ensures TrailingDigits(head + digits) == |digits|
    decreases |digits|
  {
    var s := head + digits;
    if |digits| > 1 {
      assert s[..|s| - 1] == head + digits[..|digits| - 1];
      TrailingDigitsOf(head, digits[..|digits| - 1]);
    } else {
      assert s[..|s| - 1] == head;
    }
  }

  /** The metadata line written from a date and an item count reads back as that date and count. */
  lemma MetadataRoundTrip(date: string, digits: string)
    requires AllDigits(digits)
    ensures var m := MetaLine;
      MetadataOf(m.open + date + m.count + digits + m.close) == Some(Metadata(date, DecimalValue(digits)))
  {
    var m := MetaLine;
    assert m.count[|m.count| - 1] == '=';
    TemplateRoundTrip(m, date, digits);
  }

  /** The same for any template whose count label does not end in a digit. */
  lemma TemplateRoundTrip(m: MetaTemplate, date: string, digits: string)
    requires AllDigits(digits) && m.count != [] && !IsDigit(m.count[|m.count| - 1])
    ensures MetadataIn(m, m.open + date + m.count + digits + m.close) == Some(Metadata(date, DecimalValue(digits)))
  {
    var body := date + m.count + digits;
    assert m.open + date + m.count + digits + m.close == m.open + body + m.close;
    Framed(m.open, body, m.close);
    BodyRoundTrip(m, date, digits);
  }

  lemma Framed(open: string, body: string, close: string)
    ensures var line := open + body + close;
      open <= line && EndsWith(line, close) && line[|open|..|line| - |close|] == body
  {
    var line := open + body + close;
    assert line[..|open|] == open;
    assert line[|line| - |close|..] == close;
  }

  lemma BodyRoundTrip(m: MetaTemplate, date: string, digits: string)
    requires AllDigits(digits) && m.count != [] && !IsDigit(m.count[|m.count| - 1])
    ensures BodyMetadata(m, date + m.count + digits) == Some(Metadata(date, DecimalValue(digits)))
  {
    var head := date + m.count;
    var body := head + digits;
    assert date + m.count + digits == body;
    TrailingDigitsOf(head, digits);
    assert body[..|body| - |digits|] == head;
    assert body[|body| - |digits|..] == digits;
    assert head[|head| - |m.count|..] == m.count;
  }
}
