/**
 * `cross_reference_violations_with_reports`: for each entry of the LCCN bot's
 * daily reports, find the sections of the violations report that mention its
 * LCCN or its item, and tally the matches by section and by bot action.
 *
 * The matcher walks the top-level keys of the violations dictionary and expects,
 * under each, a dictionary with a `violations` list shaped per section name
 * (`item`/`lccn_ids`, `lccn_id`/`items`, or a plain list of item ids). The
 * parser's own output has the top-level keys `metadata` and `sections` instead,
 * so on it nothing ever matches; `ParserOutputNeverMatches` states this.
 */
module CrossReference {
  import opened Wrappers
  import Violations

  /** One element of a `violations` list. A dictionary is given by the keys the matcher
      reads (`None` when absent); a string is `Str`; anything else is `Other`. */
  datatype Entry =
    | Dict(item: Option<string>, lccnIds: Option<seq<string>>, lccnId: Option<string>, items: Option<seq<string>>)
    | Str(s: string)
    | Other

  /** A top-level value: `NoList` unless it is a dictionary with a `violations` key, whose
      value is then iterated (a dictionary iterates as its keys, so it is a list of `Str`). */
  datatype SectionData = NoList | List(entries: seq<Entry>)

  datatype LccnReport = LccnReport(date: string, lccn: string, qid: string, action: Option<string>)

  datatype Hit = Hit(section: string, lccnFound: bool, qidFound: bool)

  datatype Match = Match(date: string, lccn: string, qid: string, action: Option<string>, hits: seq<Hit>)

  /** The structure each section name is checked against. */
  datatype SectionKind = ItemAndLccnIds | LccnIdAndItems | QidList | ItemOnly | Unchecked

  function KindOf(name: string): SectionKind {
    if name == "Format" || name == "Single value" then ItemAndLccnIds
    else if name == "Unique value" then LccnIdAndItems
    else if name == "Conflicts with {{P|31}}" || name == "Conflicts with {{P|1144}}" || name == "Label in 'en' language" then QidList
    else if name == "Scope" || name == "Allowed qualifiers" || name == "Entity types" then ItemOnly
    else Unchecked
  }

  predicate ItemIs(e: Entry, qid: string) { e.Dict? && e.item == Some(qid) }
  predicate LccnIdsHold(e: Entry, lccn: string) { e.Dict? && e.lccnIds.Some? && lccn in e.lccnIds.value }
  predicate LccnIdIs(e: Entry, lccn: string) { e.Dict? && e.lccnId == Some(lccn) }
  predicate ItemsHold(e: Entry, qid: string) { e.Dict? && e.items.Some? && qid in e.items.value }

  /** Whether the section mentions the LCCN. */
  predicate LccnFound(name: string, data: SectionData, lccn: string) {
    && data.List?
    && match KindOf(name)
       case ItemAndLccnIds => exists e | e in data.entries :: LccnIdsHold(e, lccn)
       case LccnIdAndItems => exists e | e in data.entries :: LccnIdIs(e, lccn)
       case _ => false
  }

  /** Whether the section mentions the item. */
  predicate QidFound(name: string, data: SectionData, qid: string) {
    && data.List?
    && match KindOf(name)
       case ItemAndLccnIds => exists e | e in data.entries :: ItemIs(e, qid)
       case LccnIdAndItems => exists e | e in data.entries :: ItemsHold(e, qid)
       case QidList => Str(qid) in data.entries
       case ItemOnly => exists e | e in data.entries :: ItemIs(e, qid)
       case Unchecked => false
  }

  /** The checks of one section for one report entry. */
  method CheckSection(name: string, data: SectionData, lccn: string, qid: string)
    returns (lccnFound: bool, qidFound: bool)
    ensures lccnFound == LccnFound(name, data, lccn)
    ensures qidFound == QidFound(name, data, qid)
  {
    lccnFound, qidFound := false, false;
    if data.NoList? {
      return;
    }
    var es := data.entries;
    var kind := KindOf(name);
    if kind == QidList {
      qidFound := Str(qid) in es;
      return;
    }
    if kind == Unchecked {
      return;
    }
    for i := 0 to |es|
      invariant lccnFound <==> exists j | 0 <= j < i :: (kind == ItemAndLccnIds && LccnIdsHold(es[j], lccn)) || (kind == LccnIdAndItems && LccnIdIs(es[j], lccn))
      invariant qidFound <==> exists j | 0 <= j < i :: ((kind == ItemAndLccnIds || kind == ItemOnly) && ItemIs(es[j], qid)) || (kind == LccnIdAndItems && ItemsHold(es[j], qid))
    {
      var e := es[i];
      if e.Dict? {
        if kind == ItemAndLccnIds {
          if e.item == Some(qid) {
            qidFound := true;
          }
          if e.lccnIds.Some? && lccn in e.lccnIds.value {
            lccnFound := true;
          }
        } else if kind == LccnIdAndItems {
          if e.lccnId == Some(lccn) {
            lccnFound := true;
          }
          if e.items.Some? && qid in e.items.value {
            qidFound := true;
          }
        } else {
          if e.item == Some(qid) {
            qidFound := true;
          }
        }
      }
    }
  }

  /** The sections that mention the report entry, in dictionary order; `metadata` is skipped. */
  function HitsOf(vs: seq<(string, SectionData)>, lccn: string, qid: string): seq<Hit> {
    if vs == [] then []
    else
      var init := HitsOf(vs[..|vs| - 1], lccn, qid);
      var (name, data) := vs[|vs| - 1];
      var l, q := LccnFound(name, data, lccn), QidFound(name, data, qid);
      if name != "metadata" && (l || q) then init + [Hit(name, l, q)] else init
  }

  function MatchOf(vs: seq<(string, SectionData)>, r: LccnReport): Match {
    Match(r.date, r.lccn, r.qid, r.action, HitsOf(vs, r.lccn, r.qid))
  }

  /** The report entries found in some section, in report order. */
  function MatchesOf(vs: seq<(string, SectionData)>, reports: seq<LccnReport>): seq<Match> {
    if reports == [] then []
    else
      var init := MatchesOf(vs, reports[..|reports| - 1]);
      var m := MatchOf(vs, reports[|reports| - 1]);
      if m.hits != [] then init + [m] else init
  }

  // ---------------------------------------------------------------------
  // Tallies: `if k not in d: d[k] = 0; d[k] += 1`
  // ---------------------------------------------------------------------

  function Bump<K(==)>(t: seq<(K, nat)>, k: K): seq<(K, nat)> {
    if t == [] then [(k, 1)]
    else if t[0].0 == k then [(k, t[0].1 + 1)] + t[1..]
    else [t[0]] + Bump(t[1..], k)
  }

  function Tally<K(==)>(keys: seq<K>): seq<(K, nat)> {
    if keys == [] then [] else Bump(Tally(keys[..|keys| - 1]), keys[|keys| - 1])
  }

  function Sum<K>(t: seq<(K, nat)>): nat {
    if t == [] then 0 else t[0].1 + Sum(t[1..])
  }

  /** The count a tally holds for `k` (0 when absent). */
  function CountOf<K(==)>(t: seq<(K, nat)>, k: K): nat {
    if t == [] then 0 else if t[0].0 == k then t[0].1 else CountOf(t[1..], k)
  }

  function Occurrences<K(==)>(keys: seq<K>, k: K): nat {
    if keys == [] then 0 else Occurrences(keys[..|keys| - 1], k) + (if keys[|keys| - 1] == k then 1 else 0)
  }

  function HitSections(hits: seq<Hit>): seq<string> {
    if hits == [] then [] else HitSections(hits[..|hits| - 1]) + [hits[|hits| - 1].section]
  }

  function SectionKeys(ms: seq<Match>): seq<string> {
    if ms == [] then [] else SectionKeys(ms[..|ms| - 1]) + HitSections(ms[|ms| - 1].hits)
  }

  function ActionKeys(ms: seq<Match>): seq<Option<string>> {
    if ms == [] then [] else ActionKeys(ms[..|ms| - 1]) + [ms[|ms| - 1].action]
  }

  lemma TallySnoc<K>(keys: seq<K>, k: K)
    ensures Tally(keys + [k]) == Bump(Tally(keys), k)
  {
    assert (keys + [k])[..|keys|] == keys;
  }

  datatype Summary = Summary(
    totalReports: nat, totalMatches: nat,
    bySection: seq<(string, nat)>, byAction: seq<(Option<string>, nat)>,
    matches: seq<Match>)

  /** The inner loop over the sections for one report entry. */
  method FindHits(vs: seq<(string, SectionData)>, lccn: string, qid: string) returns (found: seq<Hit>)
    ensures found == HitsOf(vs, lccn, qid)
  {
    found := [];
    for j := 0 to |vs|
      invariant found == HitsOf(vs[..j], lccn, qid)
    {
      assert vs[..j + 1][..j] == vs[..j];
      var (name, data) := vs[j];
      if name == "metadata" {
        continue;
      }
      var lccnFound, qidFound := CheckSection(name, data, lccn, qid);
      if lccnFound || qidFound {
        found := found + [Hit(name, lccnFound, qidFound)];
      }
    }
    assert vs[..|vs|] == vs;
  }

  /** The matching loop over the report entries. */
  method FindMatches(vs: seq<(string, SectionData)>, reports: seq<LccnReport>) returns (matches: seq<Match>)
    ensures matches == MatchesOf(vs, reports)
  {
    matches := [];
    for i := 0 to |reports|
      invariant matches == MatchesOf(vs, reports[..i])
    {
      assert reports[..i + 1][..i] == reports[..i];
      var r := reports[i];
      var found := FindHits(vs, r.lccn, r.qid);
      if found != [] {
        matches := matches + [Match(r.date, r.lccn, r.qid, r.action, found)];
      }
    }
    assert reports[..|reports|] == reports;
  }

  /** `matches_by_section`: one bump per `found_in_sections` entry. */
  method CountSections(matches: seq<Match>) returns (bySection: seq<(string, nat)>)
    ensures bySection == Tally(SectionKeys(matches))
  {
    bySection := [];
    for i := 0 to |matches|
      invariant bySection == Tally(SectionKeys(matches[..i]))
    {
      assert matches[..i + 1][..i] == matches[..i];
      var hits := matches[i].hits;
      ghost var done := SectionKeys(matches[..i]);
      assert done + HitSections(hits[..0]) == done;
      for j := 0 to |hits|
        invariant bySection == Tally(done + HitSections(hits[..j]))
      {
        assert hits[..j + 1][..j] == hits[..j];
        assert done + HitSections(hits[..j + 1]) == (done + HitSections(hits[..j])) + [hits[j].section];
        TallySnoc(done + HitSections(hits[..j]), hits[j].section);
        bySection := Bump(bySection, hits[j].section);
      }
      assert hits[..|hits|] == hits;
    }
    assert matches[..|matches|] == matches;
  }

  /** `matches_by_action`: one bump per match. */
  method CountActions(matches: seq<Match>) returns (byAction: seq<(Option<string>, nat)>)
    ensures byAction == Tally(ActionKeys(matches))
  {
    byAction := [];
    for i := 0 to |matches|
      invariant byAction == Tally(ActionKeys(matches[..i]))
    {
      assert matches[..i + 1][..i] == matches[..i];
      byAction := Bump(byAction, matches[i].action);
    }
    assert matches[..|matches|] == matches;
  }

  /** The matching loop and the two counting loops. */
  method CrossReferenceViolations(vs: seq<(string, SectionData)>, reports: seq<LccnReport>)
    returns (summary: Summary)
    ensures summary.totalReports == |reports|
    ensures summary.matches == MatchesOf(vs, reports)
    ensures summary.totalMatches == |MatchesOf(vs, reports)|
    ensures summary.bySection == Tally(SectionKeys(MatchesOf(vs, reports)))
    ensures summary.byAction == Tally(ActionKeys(MatchesOf(vs, reports)))
  {
    var matches := FindMatches(vs, reports);
    var bySection := CountSections(matches);
    var byAction := CountActions(matches);
    summary := Summary(|reports|, |matches|, bySection, byAction, matches);
  }

  // ---------------------------------------------------------------------
  // Properties of the summary
  // ---------------------------------------------------------------------

  lemma {:induction false} BumpCounts<K>(t: seq<(K, nat)>, k: K, other: K)
    ensures Sum(Bump(t, k)) == Sum(t) + 1
    ensures CountOf(Bump(t, k), k) == CountOf(t, k) + 1
    ensures other != k ==> CountOf(Bump(t, k), other) == CountOf(t, other)
  {
    if t != [] && t[0].0 != k {
      BumpCounts(t[1..], k, other);
    }
  }

  /** The counts of a tally add up to the number of keys, and each key's count is how often
      it occurs. */
  lemma {:induction false} TallyCounts<K>(keys: seq<K>, k: K)
    ensures Sum(Tally(keys)) == |keys|
    ensures CountOf(Tally(keys), k) == Occurrences(keys, k)
  {
    if keys != [] {
      var init, last := keys[..|keys| - 1], keys[|keys| - 1];
      TallyCounts(init, k);
      BumpCounts(Tally(init), last, k);
    }
  }

  lemma {:induction false} HitSectionsLength(hits: seq<Hit>)
    ensures |HitSections(hits)| == |hits|
  {
    if hits != [] {
      HitSectionsLength(hits[..|hits| - 1]);
    }
  }

  /** The number of section entries over all matches. */
  function TotalHits(ms: seq<Match>): nat {
    if ms == [] then 0 else TotalHits(ms[..|ms| - 1]) + |ms[|ms| - 1].hits|
  }

  lemma {:induction false} KeysLengths(ms: seq<Match>)
    ensures |SectionKeys(ms)| == TotalHits(ms)
    ensures |ActionKeys(ms)| == |ms|
  {
    if ms != [] {
      KeysLengths(ms[..|ms| - 1]);
      HitSectionsLength(ms[|ms| - 1].hits);
    }
  }

  /** `matches_by_action` adds up to `total_matches`, and `matches_by_section` to the number
      of `found_in_sections` entries. */
  lemma SummaryCountsAddUp(vs: seq<(string, SectionData)>, reports: seq<LccnReport>)
    ensures var ms := MatchesOf(vs, reports);
      && Sum(Tally(ActionKeys(ms))) == |ms|
      && Sum(Tally(SectionKeys(ms))) == TotalHits(ms)
  {
    var ms := MatchesOf(vs, reports);
    KeysLengths(ms);
    TallyCounts(ActionKeys(ms), None);
    TallyCounts(SectionKeys(ms), "");
  }

  /** Every hit flags the LCCN or the item, and none is for `metadata`. */
  lemma {:induction false} HitsAreFlags(vs: seq<(string, SectionData)>, lccn: string, qid: string)
    ensures forall h | h in HitsOf(vs, lccn, qid) :: (h.lccnFound || h.qidFound) && h.section != "metadata"
  {
    if vs != [] {
      HitsAreFlags(vs[..|vs| - 1], lccn, qid);
    }
  }

  /** A report entry is among the matches iff some section flagged it. */
  lemma {:induction false} MatchedIffFlagged(vs: seq<(string, SectionData)>, reports: seq<LccnReport>, r: LccnReport)
    requires r in reports
    ensures MatchOf(vs, r) in MatchesOf(vs, reports) <==> HitsOf(vs, r.lccn, r.qid) != []
  {
    var init, last := reports[..|reports| - 1], reports[|reports| - 1];
    MatchesCarryHits(vs, reports);
    if r != last {
      assert reports == init + [last];
      assert r in init;
      MatchedIffFlagged(vs, init, r);
    }
  }

  lemma {:induction false} MatchesCarryHits(vs: seq<(string, SectionData)>, reports: seq<LccnReport>)
    ensures forall m | m in MatchesOf(vs, reports) :: m.hits != [] && m.hits == HitsOf(vs, m.lccn, m.qid)
  {
    if reports != [] {
      MatchesCarryHits(vs, reports[..|reports| - 1]);
    }
  }

  /** What the matcher sees when handed the parser's report: keys `metadata` and `sections`;
      `sections` is a dictionary and has a `violations` key only if a section of that name
      was parsed, in which case its value iterates as that dictionary's keys. */
  function TopLevel(report: Violations.Report): seq<(string, SectionData)> {
    var sections := if Violations.Find(report.sections, "violations").Some? then List([Str("violations")]) else NoList;
    [("metadata", NoList), ("sections", sections)]
  }

  /** On the parser's own output the matcher finds nothing, whatever the bot reports. */
  lemma ParserOutputNeverMatches(report: Violations.Report, reports: seq<LccnReport>)
    ensures MatchesOf(TopLevel(report), reports) == []
    ensures Tally(SectionKeys(MatchesOf(TopLevel(report), reports))) == []
  {
    var vs := TopLevel(report);
    forall lccn, qid ensures HitsOf(vs, lccn, qid) == [] {
      var head: seq<(string, SectionData)> := [("metadata", NoList)];
      assert vs[..1] == head && head[..0] == [];
      assert HitsOf(head, lccn, qid) == [];
      assert KindOf("sections") == Unchecked;
      assert !LccnFound("sections", vs[1].1, lccn) && !QidFound("sections", vs[1].1, qid);
    }
    NoHitsNoMatches(vs, reports);
  }

  lemma {:induction false} NoHitsNoMatches(vs: seq<(string, SectionData)>, reports: seq<LccnReport>)
    requires forall lccn, qid :: HitsOf(vs, lccn, qid) == []
    ensures MatchesOf(vs, reports) == []
  {
    if reports != [] {
      NoHitsNoMatches(vs, reports[..|reports| - 1]);
    }
  }
}
