/**
 * The id.loc.gov side of a comparison: the label and type of an authority taken from its
 * MADS/RDF JSON graph, the merge of its related works into the record, and the Q-prefixing
 * of a Wikidata id.
 */
module LcData {
  import opened Text
  import opened Wrappers
  import opened LcRecord

  // ---------------------------------------------------------------------
  // get_lccn_label_and_type
  // ---------------------------------------------------------------------

  /** An `authoritativeLabel` entry: its `@value`, if it has one. */
  datatype LabelEntry = LabelEntry(value: Option<string>)

  /** One object of the JSON graph: its `@id`, its `@type` list and its
      `authoritativeLabel` list, each when present. */
  datatype GraphItem = GraphItem(id: Option<string>, types: Option<seq<string>>, labels: Option<seq<LabelEntry>>)

  const AuthoritiesPrefix := "http://id.loc.gov/authorities"
  const MadsNamespace := "http://www.loc.gov/mads/rdf/v1#"
  const AuthoritySuffix := "#Authority"

  /** The main authority record of `lccn`. */
  predicate IsMainGraph(item: GraphItem, lccn: string) {
    && item.id.Some?
    && Contains(item.id.value, lccn)
    && Contains(item.id.value, AuthoritiesPrefix)
    && EndsWith(item.id.value, lccn)
  }

  /** The graph search loop: the first main record, if any. */
  method FindMainGraph(items: seq<GraphItem>, lccn: string) returns (idx: Option<nat>)
    ensures idx.Some? ==> idx.value < |items| && IsMainGraph(items[idx.value], lccn)
    ensures idx.Some? ==> forall j | 0 <= j < idx.value :: !IsMainGraph(items[j], lccn)
    ensures idx.None? ==> forall j | 0 <= j < |items| :: !IsMainGraph(items[j], lccn)
  {
    idx := None;
    var i := 0;
    while i < |items|
      invariant 0 <= i <= |items|
      invariant forall j | 0 <= j < i :: !IsMainGraph(items[j], lccn)
    {
      var item := items[i];
      if item.id.Some? {
        if Contains(item.id.value, lccn) {
          if Contains(item.id.value, AuthoritiesPrefix) && EndsWith(item.id.value, lccn) {
            idx := Some(i);
            return;
          }
        }
      }
      i := i + 1;
    }
  }

  /** The first main record, as a value. */
  function MainGraph(items: seq<GraphItem>, lccn: string): (r: Option<nat>)
    ensures r.Some? ==> (r.value < |items| && IsMainGraph(items[r.value], lccn)
      && forall j | 0 <= j < r.value :: !IsMainGraph(items[j], lccn))
    ensures r.None? ==> forall j | 0 <= j < |items| :: !IsMainGraph(items[j], lccn)
  {
    if items == [] then None
    else if IsMainGraph(items[0], lccn) then Some(0)
    else
      match MainGraph(items[1..], lccn)
      case None => None
      case Some(k) => Some(k + 1)
  }

  /** `mads_types`: the types in the MADS namespace, in order. */
  function MadsTypes(types: seq<string>): (r: seq<string>)
    ensures forall t :: t in r <==> t in types && Contains(t, MadsNamespace)
  {
    if types == [] then []
    else
      var t := types[|types| - 1];
      MadsTypes(types[..|types| - 1]) + (if Contains(t, MadsNamespace) then [t] else [])
  }

  /** The name after `#` of the first type that is not just `Authority`. */
  function FirstTypeName(ms: seq<string>): (r: Option<string>)
    ensures r.Some? <==> exists i | 0 <= i < |ms| :: !EndsWith(ms[i], AuthoritySuffix)
    ensures r.Some? ==> exists i | 0 <= i < |ms| :: (!EndsWith(ms[i], AuthoritySuffix)
      && r.value == LastSegment(ms[i], '#')
      && forall j | 0 <= j < i :: EndsWith(ms[j], AuthoritySuffix))
  {
    if ms == [] then None
    else if !EndsWith(ms[0], AuthoritySuffix) then Some(LastSegment(ms[0], '#'))
    else
      var r := FirstTypeName(ms[1..]);
      if r.Some? then
        var i :| 0 <= i < |ms[1..]| && !EndsWith(ms[1..][i], AuthoritySuffix)
          && r.value == LastSegment(ms[1..][i], '#')
          && forall j | 0 <= j < i :: EndsWith(ms[1..][j], AuthoritySuffix);
        assert ms[i + 1] == ms[1..][i];
        assert forall j | 0 <= j < i + 1 :: EndsWith(ms[j], AuthoritySuffix) by {
          forall j | 0 <= j < i + 1 ensures EndsWith(ms[j], AuthoritySuffix) {
            if j > 0 {
              assert ms[j] == ms[1..][j - 1];
            }
          }
        }
        r
      else
        assert forall i | 0 <= i < |ms| :: EndsWith(ms[i], AuthoritySuffix) by {
          forall i | 0 <= i < |ms| ensures EndsWith(ms[i], AuthoritySuffix) {
            if i > 0 {
              assert ms[i] == ms[1..][i - 1];
            }
          }
        }
        None
  }

  /** The type loop of `get_lccn_label_and_type`: `type_value`, or `None`. */
  method TypeValue(item: GraphItem) returns (t: Option<string>)
    ensures t == if item.types.Some? then FirstTypeName(MadsTypes(item.types.value)) else None
  {
    t := None;
    if item.types.Some? {
      var ms := MadsTypes(item.types.value);
      var i := 0;
      while i < |ms|
        invariant 0 <= i <= |ms|
        invariant FirstTypeName(ms) == FirstTypeName(ms[i..])
      {
        if !EndsWith(ms[i], AuthoritySuffix) {
          t := Some(LastSegment(ms[i], '#'));
          return;
        }
        assert ms[i..][1..] == ms[i + 1..];
        i := i + 1;
      }
    }
  }

  /** `label_value`: the `@value` of the first authoritative label. */
  function LabelValue(item: GraphItem): Option<string> {
    if item.labels.Some? && |item.labels.value| > 0 then item.labels.value[0].value else None
  }

  function OrDefault(o: Option<string>, d: string): (r: string)
    ensures r == d || (o.Some? && r == o.value && r != "")
  {
    if o.Some? && o.value != "" then o.value else d
  }

  datatype LabelAndType = LabelAndType(kind: string, text: string)

  const UnknownType := "Unknown"
  const NoLabel := "No label found"

  function LabelAndTypeOf(items: seq<GraphItem>, lccn: string): Option<LabelAndType> {
    match MainGraph(items, lccn)
    case None => None
    case Some(i) =>
      var item := items[i];
      var t := if item.types.Some? then FirstTypeName(MadsTypes(item.types.value)) else None;
      Some(LabelAndType(OrDefault(t, UnknownType), OrDefault(LabelValue(item), NoLabel)))
  }

  /** `get_lccn_label_and_type` once the JSON is in hand. */
  method LabelAndTypeFor(items: seq<GraphItem>, lccn: string) returns (r: Option<LabelAndType>)
    ensures r == LabelAndTypeOf(items, lccn)
  {
    var idx := FindMainGraph(items, lccn);
    if idx.None? {
      assert MainGraph(items, lccn).None?;
      return None;
    }
    MainGraphUnique(items, lccn, idx.value);
    var item := items[idx.value];
    var t := TypeValue(item);
    var tag := LabelValue(item);
    r := Some(LabelAndType(OrDefault(t, UnknownType), OrDefault(tag, NoLabel)));
  }

  /** The first main record is determined by its two properties. */
  lemma MainGraphUnique(items: seq<GraphItem>, lccn: string, k: nat)
    requires k < |items| && IsMainGraph(items[k], lccn)
    requires forall j | 0 <= j < k :: !IsMainGraph(items[j], lccn)
    ensures MainGraph(items, lccn) == Some(k)
  {
  }

  /** `s.split(c)[-1]` follows the last `c` of a text that has one. */
  lemma {:induction false} LastSegmentIsSuffix(s: string, c: char)
    requires c in s
    ensures EndsWith(s, [c] + LastSegment(s, c))
  {
    var rest := SplitOn(s[1..], c);
    SplitCons(s, c);
    if c in s[1..] {
      LastSegmentIsSuffix(s[1..], c);
      SplitCount(s[1..], c);
      CountPositive(s[1..], c);
      assert LastSegment(s, c) == Last(rest);
    } else {
      assert s[0] == c;
      SplitWithoutSeparator(s[1..], c);
      assert LastSegment(s, c) == s[1..];
      assert s == [c] + s[1..];
    }
  }

  lemma {:induction false} CountPositive(s: string, c: char)
    requires c in s
    ensures Count(s, c) >= 1
  {
    if s[0] != c {
      CountPositive(s[1..], c);
    }
  }

  lemma ContainsChar(s: string, sub: string, k: nat)
    requires Contains(s, sub) && k < |sub|
    ensures sub[k] in s
  {
    var i :| 0 <= i <= |s| && sub <= s[i..];
    assert s[i + k] == sub[k];
  }

  lemma AuthoritySegment(s: string)
    requires '#' in s && LastSegment(s, '#') == "Authority"
    ensures EndsWith(s, AuthoritySuffix)
  {
    LastSegmentIsSuffix(s, '#');
    assert ['#'] + "Authority" == AuthoritySuffix;
  }

  /** A type name read as above is never `Authority`: a MADS type contains `#`, so its last
      segment is `Authority` only when it ends in `#Authority`, and those are passed over. */
  lemma TypeNameNotAuthority(types: seq<string>)
    ensures FirstTypeName(MadsTypes(types)) != Some("Authority")
  {
    var ms := MadsTypes(types);
    var r := FirstTypeName(ms);
    if r.Some? {
      var i :| 0 <= i < |ms| && !EndsWith(ms[i], AuthoritySuffix) && r.value == LastSegment(ms[i], '#');
      var m := ms[i];
      assert m in ms;
      assert Contains(m, MadsNamespace);
      assert MadsNamespace[|MadsNamespace| - 1] == '#';
      ContainsChar(m, MadsNamespace, |MadsNamespace| - 1);
      if r.value == "Authority" {
        AuthoritySegment(m);
      }
    }
  }

  /** No result without a main record; with one, the label and type are never empty: a missing
      or empty label or type falls back to `No label found` and `Unknown`, and a type is never the
      bare `Authority`. */
  lemma LabelAndTypeMeaning(items: seq<GraphItem>, lccn: string)
    ensures var r := LabelAndTypeOf(items, lccn);
      && (r.None? <==> forall j | 0 <= j < |items| :: !IsMainGraph(items[j], lccn))
      && (r.Some? ==> r.value.kind != "" && r.value.text != "" && r.value.kind != "Authority")
      && (r.Some? ==> (r.value.text == NoLabel <==> LabelValue(items[MainGraph(items, lccn).value]) in {None, Some(""), Some(NoLabel)}))
  {
    var m := MainGraph(items, lccn);
    if m.None? {
      assert LabelAndTypeOf(items, lccn).None?;
    } else {
      assert !forall j | 0 <= j < |items| :: !IsMainGraph(items[j], lccn) by {
        assert IsMainGraph(items[m.value], lccn);
      }
      var item := items[m.value];
      var t := if item.types.Some? then FirstTypeName(MadsTypes(item.types.value)) else None;
      if item.types.Some? {
        TypeNameNotAuthority(item.types.value);
      }
      assert LabelAndTypeOf(items, lccn) == Some(LabelAndType(OrDefault(t, UnknownType), OrDefault(LabelValue(item), NoLabel)));
      DefaultedLabel(LabelValue(item));
    }
  }

  /** The label falls back to `No label found` exactly when it is missing, empty or that text. */
  lemma DefaultedLabel(o: Option<string>)
    ensures OrDefault(o, NoLabel) == NoLabel <==> o in {None, Some(""), Some(NoLabel)}
  {
  }

  // ---------------------------------------------------------------------
  // build_lc_data
  // ---------------------------------------------------------------------

  /** The text after the lines `"\n" + tag + x` for each `x`, in order. */
  function WithLines(text: string, tag: string, xs: seq<string>): string {
    if xs == [] then text else WithLines(text, tag, xs[..|xs| - 1]) + "\n" + tag + xs[|xs| - 1]
  }

  function Labelled(tag: string, xs: seq<string>): (r: seq<string>)
    ensures |r| == |xs| && forall i | 0 <= i < |xs| :: r[i] == tag + xs[i]
  {
    if xs == [] then [] else Labelled(tag, xs[..|xs| - 1]) + [tag + xs[|xs| - 1]]
  }

  /** `d[key] = v`: an existing key keeps its place, a new one goes at the end. */
  function SetKey(d: seq<(string, Json)>, key: string, v: Json): (r: seq<(string, Json)>)
    ensures (key, v) in r
    ensures forall p | p in d && p.0 != key :: p in r
    ensures forall p | p in r && p.0 != key :: p in d
  {
    if d == [] then [(key, v)]
    else if d[0].0 == key then [(key, v)] + d[1..]
    else [d[0]] + SetKey(d[1..], key, v)
  }

  const ContributorLabel := "Contributor to: "
  const SubjectLabel := "Subject of: "

  /** The merged record. */
  datatype LcData = LcData(text: string, json: seq<(string, Json)>)

  function Names(o: Option<seq<string>>): seq<string> {
    SortedUnique(if o.Some? then o.value else [])
  }

  function MergedOf(text: string, json: seq<(string, Json)>, contributorTo: Option<seq<string>>, subjectOf: Option<seq<string>>): LcData {
    var cs, ss := Names(contributorTo), Names(subjectOf);
    LcData(WithLines(WithLines(text, ContributorLabel, cs), SubjectLabel, ss),
           SetKey(SetKey(json, "contributor_to", Many(cs)), "subject_of", Many(ss)))
  }

  /** `build_lc_data` given the record and the two work lists (`None` where a fetch failed). */
  method BuildLcData(text: string, json: seq<(string, Json)>, contributorTo: Option<seq<string>>, subjectOf: Option<seq<string>>)
    returns (r: LcData)
    ensures r == MergedOf(text, json, contributorTo, subjectOf)
  {
    var contributors := if contributorTo.None? then [] else contributorTo.value;
    var subjects := if subjectOf.None? then [] else subjectOf.value;
    contributors := SortedUnique(contributors);
    subjects := SortedUnique(subjects);
    var out := json;
    out := SetKey(out, "contributor_to", Many(contributors));
    out := SetKey(out, "subject_of", Many(subjects));
    var t := text;
    for i := 0 to |contributors|
      invariant t == WithLines(text, ContributorLabel, contributors[..i])
    {
      assert contributors[..i + 1][..i] == contributors[..i];
      t := t + "\n" + ContributorLabel + contributors[i];
    }
    assert contributors[..|contributors|] == contributors;
    var mid := t;
    for i := 0 to |subjects|
      invariant t == WithLines(mid, SubjectLabel, subjects[..i])
    {
      assert subjects[..i + 1][..i] == subjects[..i];
      t := t + "\n" + SubjectLabel + subjects[i];
    }
    assert subjects[..|subjects|] == subjects;
    r := LcData(t, out);
  }

  /** Appending a newline and a single line adds exactly that line. */
  lemma SplitAddLine(a: string, x: string)
    requires '\n' !in x
    ensures SplitOn(a + "\n" + x, '\n') == SplitOn(a, '\n') + [x]
  {
    var b := "\n" + x;
    assert a + "\n" + x == a + b;
    SplitAppend(a, b, '\n');
    NewlineThenLine(x);
    GlueEmpty(SplitOn(a, '\n'), x);
  }

  lemma NewlineThenLine(x: string)
    requires '\n' !in x
    ensures SplitOn("\n" + x, '\n') == ["", x]
  {
    SplitCons("\n" + x, '\n');
    assert ("\n" + x)[1..] == x;
    SplitWithoutSeparator(x, '\n');
  }

  lemma GlueEmpty(sa: seq<string>, x: string)
    requires |sa| >= 1
    ensures sa[..|sa| - 1] + [Last(sa) + ""] + [x] == sa + [x]
  {
    assert Last(sa) + "" == Last(sa);
    assert sa[..|sa| - 1] + [Last(sa)] == sa;
  }

  lemma {:induction false} WithLinesSplit(text: string, tag: string, xs: seq<string>)
    requires '\n' !in tag && forall x | x in xs :: '\n' !in x
    ensures SplitOn(WithLines(text, tag, xs), '\n') == SplitOn(text, '\n') + Labelled(tag, xs)
  {
    if xs != [] {
      var init := xs[..|xs| - 1];
      assert forall x | x in init :: x in xs;
      WithLinesSplit(text, tag, init);
      var y := tag + xs[|xs| - 1];
      assert xs[|xs| - 1] in xs;
      assert WithLines(text, tag, xs) == WithLines(text, tag, init) + "\n" + y;
      SplitAddLine(WithLines(text, tag, init), y);
    }
  }

  /** The merged text is the record's lines, then one `Contributor to:` line per distinct
      work in sorted order, then one `Subject of:` line per distinct work in sorted order
      (for work titles without line breaks); the JSON holds the two sorted lists. */
  lemma MergedLines(text: string, json: seq<(string, Json)>, contributorTo: Option<seq<string>>, subjectOf: Option<seq<string>>)
    requires contributorTo.Some? ==> forall x | x in contributorTo.value :: '\n' !in x
    requires subjectOf.Some? ==> forall x | x in subjectOf.value :: '\n' !in x
    ensures var m := MergedOf(text, json, contributorTo, subjectOf);
      var cs, ss := Names(contributorTo), Names(subjectOf);
      && SplitOn(m.text, '\n') == SplitOn(text, '\n') + Labelled(ContributorLabel, cs) + Labelled(SubjectLabel, ss)
      && StrictlySorted(cs) && StrictlySorted(ss)
      && (forall x :: x in cs <==> contributorTo.Some? && x in contributorTo.value)
      && (forall x :: x in ss <==> subjectOf.Some? && x in subjectOf.value)
      && ("contributor_to", Many(cs)) in m.json && ("subject_of", Many(ss)) in m.json
  {
    var cs, ss := Names(contributorTo), Names(subjectOf);
    WithLinesSplit(text, ContributorLabel, cs);
    WithLinesSplit(WithLines(text, ContributorLabel, cs), SubjectLabel, ss);
  }

  // ---------------------------------------------------------------------
  // query_wikidata_for_label_and_instanceOf
  // ---------------------------------------------------------------------

  /** A Wikidata id with its `Q` prefix, added only when missing. */
  function EnsureQ(qid: string): (r: string)
    ensures StartsWith(r, "Q")
    ensures StartsWith(qid, "Q") ==> r == qid
    ensures !StartsWith(qid, "Q") ==> r == "Q" + qid
  {
    if StartsWith(qid, "Q") then qid else "Q" + qid
  }

  /** Prefixing twice is prefixing once, and a bare number becomes a Q-id. */
  lemma EnsureQIdempotent(qid: string)
    ensures EnsureQ(EnsureQ(qid)) == EnsureQ(qid)
    ensures qid != "" && AllDigits(qid) ==> IsId(EnsureQ(qid), 'Q')
  {
    if qid != "" && AllDigits(qid) {
      assert qid[0] != 'Q';
      assert EnsureQ(qid)[1..] == qid;
    }
  }
}
