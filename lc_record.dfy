/**
 * Assembly of an id.loc.gov authority record into text and JSON, over the values the
 * XML walk hands to `add_to_result` rather than over ElementTree nodes.
 *
 * `result` is a dictionary from field name to the list of its values, kept in the order
 * the fields were first added; it is the state of `RecordFields`.
 */
module LcRecord {
  import opened Text
  import opened Wrappers

  // ---------------------------------------------------------------------
  // add_to_result
  // ---------------------------------------------------------------------

  /** What the XML walk passes in: one string or a list of them. */
  datatype Value = Scalar(s: string) | List(items: seq<string>)

  /** Python truthiness of the value: an empty string or an empty list is ignored. */
  predicate Truthy(v: Value) {
    if v.Scalar? then v.s != "" else v.items != []
  }

  /** The values `add_to_result` stores: a list is extended by, a scalar appended. */
  function Items(v: Value): seq<string> {
    if v.Scalar? then [v.s] else v.items
  }

  /** The `result` dictionary: its keys in insertion order and the value list of each. */
  datatype Fields = Fields(keys: seq<string>, values: map<string, seq<string>>)

  const NoFields := Fields([], map[])

  /** Every key listed once, and the listed keys are exactly the stored ones. */
  ghost predicate WellKeyed(f: Fields) {
    && (forall k :: k in f.values <==> k in f.keys)
    && (forall i, j | 0 <= i < j < |f.keys| :: f.keys[i] != f.keys[j])
  }

  function ValuesOf(f: Fields, key: string): seq<string> {
    if key in f.values then f.values[key] else []
  }

  /** One call of `add_to_result(key, value)`. */
  function AddStep(f: Fields, key: string, v: Value): Fields {
    if !Truthy(v) then f
    else Fields(if key in f.values then f.keys else f.keys + [key], f.values[key := ValuesOf(f, key) + Items(v)])
  }

  /** A run of `add_to_result` calls. */
  function Accumulate(f: Fields, adds: seq<(string, Value)>): Fields {
    if adds == [] then f
    else
      var last := adds[|adds| - 1];
      AddStep(Accumulate(f, adds[..|adds| - 1]), last.0, last.1)
  }

  /** The values a run of calls contributes to one key, in call order. */
  function Collected(adds: seq<(string, Value)>, key: string): seq<string> {
    if adds == [] then []
    else
      var last := adds[|adds| - 1];
      Collected(adds[..|adds| - 1], key) + (if last.0 == key && Truthy(last.1) then Items(last.1) else [])
  }

  /** A key is present after a run of calls iff it was before or some call gave it a truthy value. */
  predicate Touched(adds: seq<(string, Value)>, key: string) {
    exists i | 0 <= i < |adds| :: adds[i].0 == key && Truthy(adds[i].1)
  }

  lemma AddStepWellKeyed(f: Fields, key: string, v: Value)
    requires WellKeyed(f)
    ensures WellKeyed(AddStep(f, key, v))
  {
  }

  /** After a run of calls each key holds its old values followed by everything the calls gave it,
      in call order; the key list only grows at its end, and a key is new only if some call
      gave it a truthy value. */
  lemma AccumulateFacts(f: Fields, adds: seq<(string, Value)>, key: string)
    requires WellKeyed(f)
    ensures WellKeyed(Accumulate(f, adds))
    ensures ValuesOf(Accumulate(f, adds), key) == ValuesOf(f, key) + Collected(adds, key)
    ensures f.keys <= Accumulate(f, adds).keys
    ensures key in Accumulate(f, adds).values <==> key in f.values || Touched(adds, key)
  {
    AccumulateWellKeyed(f, adds);
    AccumulateValues(f, adds, key);
    AccumulateKeys(f, adds, key);
  }

  lemma {:induction false} AccumulateWellKeyed(f: Fields, adds: seq<(string, Value)>)
    requires WellKeyed(f)
    ensures WellKeyed(Accumulate(f, adds))
  {
    if adds != [] {
      var init, last := adds[..|adds| - 1], adds[|adds| - 1];
      AccumulateWellKeyed(f, init);
      AddStepWellKeyed(Accumulate(f, init), last.0, last.1);
    }
  }

  lemma {:induction false} AccumulateValues(f: Fields, adds: seq<(string, Value)>, key: string)
    ensures ValuesOf(Accumulate(f, adds), key) == ValuesOf(f, key) + Collected(adds, key)
  {
    if adds != [] {
      AccumulateValues(f, adds[..|adds| - 1], key);
    }
  }

  lemma {:induction false} AccumulateKeys(f: Fields, adds: seq<(string, Value)>, key: string)
    ensures f.keys <= Accumulate(f, adds).keys
    ensures key in Accumulate(f, adds).values <==> key in f.values || Touched(adds, key)
  {
    if adds != [] {
      var init := adds[..|adds| - 1];
      AccumulateKeys(f, init, key);
      TouchedSnoc(adds, key);
    }
  }

  lemma TouchedSnoc(adds: seq<(string, Value)>, key: string)
    requires adds != []
    ensures var init, last := adds[..|adds| - 1], adds[|adds| - 1];
      Touched(adds, key) <==> Touched(init, key) || (last.0 == key && Truthy(last.1))
  {
    var init := adds[..|adds| - 1];
    if Touched(init, key) {
      var i :| 0 <= i < |init| && init[i].0 == key && Truthy(init[i].1);
      assert adds[i] == init[i];
    }
    if Touched(adds, key) {
      var i :| 0 <= i < |adds| && adds[i].0 == key && Truthy(adds[i].1);
      if i < |init| {
        assert init[i] == adds[i];
      }
    }
  }

  /** A call with an empty string or an empty list changes nothing. */
  lemma FalsyIgnored(f: Fields, key: string, v: Value)
    requires !Truthy(v)
    ensures AddStep(f, key, v) == f
  {
  }

  // ---------------------------------------------------------------------
  // citations and record information
  // ---------------------------------------------------------------------

  /** An element's text and its `rdf:resource` attribute, `""` where it has none (both are
      only ever checked for truthiness). */
  datatype Node = Node(text: string, resource: string)

  /** The `citationStatus`, `citationSource` and `citationNote` children of one `madsrdf:Source`. */
  datatype Citation = Citation(status: Option<Node>, source: Option<Node>, note: Option<Node>)

  /** The `recordChangeDate`, `recordStatus`, `recordContentSource` and `languageOfCataloging`
      children of one `ri:RecordInfo`. */
  datatype RecordInfo = RecordInfo(changeDate: Option<Node>, status: Option<Node>, source: Option<Node>, language: Option<Node>)

  const WikidataHost := "wikidata.org"

  /** A Wikidata reference in citation text: a Q-id, or any mention of the Wikidata host. */
  predicate WikidataText(t: string) {
    IsId(t, 'Q') || Contains(t, WikidataHost)
  }

  function HasText(n: Option<Node>): bool { n.Some? && n.value.text != "" }
  function HasResource(n: Option<Node>): bool { n.Some? && n.value.resource != "" }

  function StatusPart(c: Citation): seq<string> {
    if HasText(c.status) then ["[" + c.status.value.text + "]"] else []
  }

  function SourceTextPart(c: Citation): seq<string> {
    if HasText(c.source) && !WikidataText(Strip(c.source.value.text)) then [Strip(c.source.value.text)] else []
  }

  function SourceRefPart(c: Citation): seq<string> {
    if HasResource(c.source) && !Contains(c.source.value.resource, WikidataHost) then ["(" + c.source.value.resource + ")"] else []
  }

  function NotePart(c: Citation): seq<string> {
    if HasText(c.note) && !WikidataText(Strip(c.note.value.text)) then ["Note: " + Strip(c.note.value.text)] else []
  }

  /** `source_text` for one citation. */
  function CitationParts(c: Citation): seq<string> {
    StatusPart(c) + SourceTextPart(c) + SourceRefPart(c) + NotePart(c)
  }

  /** The `Source` value recorded for a citation, when any part remains. */
  function CitationEntry(c: Citation): Option<string> {
    var parts := CitationParts(c);
    if parts != [] then Some(Join(parts, " ")) else None
  }

  /** Wrapping text in characters foreign to the host name adds no mention of it. */
  lemma WrappedMentions(a: string, t: string, b: string)
    requires |a| > 0 && a[|a| - 1] !in WikidataHost && |a| < |WikidataHost|
    requires b == [] || (b[0] !in WikidataHost && |b| < |WikidataHost|)
    requires Contains(a + t + b, WikidataHost)
    ensures Contains(t, WikidataHost)
  {
    assert a + t + b == a + (t + b);
    LeftWrapped(a, t + b);
    if b != [] {
      RightWrapped(t, b);
    } else {
      assert t + b == t;
    }
  }

  lemma LeftWrapped(a: string, u: string)
    requires |a| > 0 && a[|a| - 1] !in WikidataHost && |a| < |WikidataHost|
    requires Contains(a + u, WikidataHost)
    ensures Contains(u, WikidataHost)
  {
    var a0 := a[..|a| - 1];
    assert a + u == a0 + [a[|a| - 1]] + u;
    ContainsAcrossSeparator(a0, a[|a| - 1], u, WikidataHost);
    NotContainsEmptyParts(a0, WikidataHost);
  }

  lemma RightWrapped(t: string, b: string)
    requires b != [] && b[0] !in WikidataHost && |b| < |WikidataHost|
    requires Contains(t + b, WikidataHost)
    ensures Contains(t, WikidataHost)
  {
    assert t + b == t + [b[0]] + b[1..];
    ContainsAcrossSeparator(t, b[0], b[1..], WikidataHost);
    NotContainsEmptyParts(b[1..], WikidataHost);
  }

  /** No part of a citation is a Q-id: the status and the note carry a prefix, the resource is
      bracketed, and a source text that is one is dropped. */
  lemma CitationHasNoQid(c: Citation)
    ensures forall p | p in CitationParts(c) :: !IsId(p, 'Q')
  {
  }

  /** No part but the status mentions the Wikidata host. */
  lemma CitationHasNoWikidataLink(c: Citation)
    ensures forall p | p in CitationParts(c)[|StatusPart(c)|..] :: !Contains(p, WikidataHost)
  {
    assert CitationParts(c)[|StatusPart(c)|..] == SourceTextPart(c) + SourceRefPart(c) + NotePart(c);
    if HasResource(c.source) {
      BracketedClean(c.source.value.resource);
    }
    if HasText(c.note) {
      NoteClean(Strip(c.note.value.text));
    }
  }

  lemma BracketedClean(r: string)
    ensures !Contains(r, WikidataHost) ==> !Contains("(" + r + ")", WikidataHost)
  {
    if Contains("(" + r + ")", WikidataHost) {
      WrappedMentions("(", r, ")");
    }
  }

  lemma NoteClean(t: string)
    ensures !Contains(t, WikidataHost) ==> !Contains("Note: " + t, WikidataHost)
  {
    if Contains("Note: " + t, WikidataHost) {
      assert "Note: " + t == "Note: " + t + "";
      WrappedMentions("Note: ", t, "");
    }
  }

  /** A source text, a resource URL or a note that is not a Wikidata reference is kept. */
  lemma CitationKeepsOthers(c: Citation)
    ensures HasText(c.source) && !WikidataText(Strip(c.source.value.text)) ==> Strip(c.source.value.text) in CitationParts(c)
    ensures HasResource(c.source) && !Contains(c.source.value.resource, WikidataHost) ==> "(" + c.source.value.resource + ")" in CitationParts(c)
    ensures HasText(c.note) && !WikidataText(Strip(c.note.value.text)) ==> "Note: " + Strip(c.note.value.text) in CitationParts(c)
  {
  }

  /** A citation whose only part is a blank source text is joined to `""`, which the falsy test in
      `add_to_result` then drops: nothing is recorded. */
  lemma BlankSourceDropped(f: Fields)
    ensures var c := Citation(None, Some(Node(" ", "")), None);
      CitationEntry(c) == Some("") && AddStep(f, "Source", Scalar(CitationEntry(c).value)) == f
  {
    var c := Citation(None, Some(Node(" ", "")), None);
    assert Strip(" ") == "";
    assert !IsId("", 'Q');
    assert !Contains("", WikidataHost);
    assert CitationParts(c) == [""];
  }

  /** `text[:10]` */
  function Take(s: string, n: nat): (r: string)
    ensures r <= s && |r| == if |s| <= n then |s| else n
  {
    if |s| <= n then s else s[..n]
  }

  /** `record_text` for one record-information element. */
  function RecordInfoParts(r: RecordInfo): seq<string> {
    (if HasText(r.status) then ["Status: " + r.status.value.text] else [])
    + (if HasText(r.changeDate) then ["Date: " + Take(r.changeDate.value.text, 10)] else [])
    + (if HasResource(r.source) then ["Source: " + r.source.value.resource] else [])
    + (if HasResource(r.language) then ["Language: " + r.language.value.resource] else [])
  }

  /** The `Record Info` value, when any part is present. */
  function RecordInfoEntry(r: RecordInfo): Option<string> {
    var parts := RecordInfoParts(r);
    if parts != [] then Some(Join(parts, " | ")) else None
  }

  /** Record information yields a value iff one of its four parts is present; the value starts
      with the first present part and is never blank, so `add_to_result` always keeps it; the
      date is cut to its first ten characters. */
  lemma {:induction false} RecordInfoShape(r: RecordInfo)
    ensures RecordInfoEntry(r).Some? <==> HasText(r.status) || HasText(r.changeDate) || HasResource(r.source) || HasResource(r.language)
    ensures RecordInfoEntry(r).Some? ==> RecordInfoEntry(r).value != "" && RecordInfoParts(r)[0] <= RecordInfoEntry(r).value
    ensures HasText(r.status) ==> "Status: " + r.status.value.text <= RecordInfoEntry(r).value
    ensures !HasText(r.status) && HasText(r.changeDate) ==> "Date: " + Take(r.changeDate.value.text, 10) <= RecordInfoEntry(r).value
    ensures HasText(r.changeDate) ==> |Take(r.changeDate.value.text, 10)| <= 10
  {
    var parts := RecordInfoParts(r);
    if parts != [] {
      JoinEnds(parts, " | ");
      assert parts[0] != "";
    }
  }

  /** The `Source` calls of a run of citations. */
  function CitationAdds(cs: seq<Citation>): seq<(string, Value)> {
    if cs == [] then []
    else
      var e := CitationEntry(cs[|cs| - 1]);
      CitationAdds(cs[..|cs| - 1]) + (if e.Some? then [("Source", Scalar(e.value))] else [])
  }

  /** The `Record Info` calls of a run of record-information elements. */
  function RecordInfoAdds(rs: seq<RecordInfo>): seq<(string, Value)> {
    if rs == [] then []
    else
      var e := RecordInfoEntry(rs[|rs| - 1]);
      RecordInfoAdds(rs[..|rs| - 1]) + (if e.Some? then [("Record Info", Scalar(e.value))] else [])
  }

  /** What a run of citations records: only `Source` values, none of them a Q-id. */
  lemma {:induction false} CitationAddsAreSources(cs: seq<Citation>)
    ensures forall i | 0 <= i < |CitationAdds(cs)| :: CitationAdds(cs)[i].0 == "Source" && CitationAdds(cs)[i].1.Scalar?
    ensures |CitationAdds(cs)| <= |cs|
  {
    if cs != [] {
      CitationAddsAreSources(cs[..|cs| - 1]);
    }
  }

  lemma CitationAddsStep(cs: seq<Citation>, i: nat)
    requires i < |cs|
    ensures var e := CitationEntry(cs[i]);
      CitationAdds(cs[..i + 1]) == CitationAdds(cs[..i]) + if e.Some? then [("Source", Scalar(e.value))] else []
  {
    assert cs[..i + 1][..i] == cs[..i];
  }

  lemma RecordInfoAddsStep(rs: seq<RecordInfo>, i: nat)
    requires i < |rs|
    ensures var e := RecordInfoEntry(rs[i]);
      RecordInfoAdds(rs[..i + 1]) == RecordInfoAdds(rs[..i]) + if e.Some? then [("Record Info", Scalar(e.value))] else []
  {
    assert rs[..i + 1][..i] == rs[..i];
  }

  lemma AccumulateSnoc(f: Fields, adds: seq<(string, Value)>, more: seq<(string, Value)>)
    requires |more| <= 1
    ensures Accumulate(f, adds + more) == if more == [] then Accumulate(f, adds) else AddStep(Accumulate(f, adds), more[0].0, more[0].1)
  {
    if more == [] {
      assert adds + more == adds;
    } else {
      assert (adds + more)[..|adds + more| - 1] == adds;
    }
  }

  // ---------------------------------------------------------------------
  // output shaping
  // ---------------------------------------------------------------------

  /** `f"{key}: {value}"` for each value of one key. */
  function KeyLines(key: string, vs: seq<string>): (r: seq<string>)
    ensures |r| == |vs|
    ensures forall j | 0 <= j < |vs| :: r[j] == key + ": " + vs[j]
  {
    if vs == [] then [] else KeyLines(key, vs[..|vs| - 1]) + [key + ": " + vs[|vs| - 1]]
  }

  /** `text_output`: the lines of every key, in key order. */
  function TextLines(keys: seq<string>, values: map<string, seq<string>>): seq<string> {
    if keys == [] then []
    else
      var k := keys[|keys| - 1];
      TextLines(keys[..|keys| - 1], values) + KeyLines(k, ValuesOf(Fields(keys, values), k))
  }

  lemma KeyLinesStep(key: string, vs: seq<string>, j: nat)
    requires j < |vs|
    ensures forall pre: seq<string> :: pre + KeyLines(key, vs[..j + 1]) == (pre + KeyLines(key, vs[..j])) + [key + ": " + vs[j]]
  {
    assert vs[..j + 1][..j] == vs[..j];
  }

  lemma TextLinesStep(keys: seq<string>, values: map<string, seq<string>>, i: nat)
    requires i < |keys|
    ensures TextLines(keys[..i + 1], values) == TextLines(keys[..i], values) + KeyLines(keys[i], ValuesOf(Fields(keys, values), keys[i]))
  {
    assert keys[..i + 1][..i] == keys[..i];
  }

  const MarcKey := "MARC Key"

  /** The lines that do not mention `MARC Key`, in order. */
  function DropMarcKeys(lines: seq<string>): (r: seq<string>)
    ensures forall l :: l in r <==> l in lines && !Contains(l, MarcKey)
  {
    if lines == [] then []
    else
      var l := lines[|lines| - 1];
      DropMarcKeys(lines[..|lines| - 1]) + (if Contains(l, MarcKey) then [] else [l])
  }

  /** The text output: lines mentioning `MARC Key` are dropped, and the rest are made unique and
      sorted. */
  function ShapeText(textFormat: string): string {
    var kept := Join(DropMarcKeys(SplitOn(textFormat, '\n')), "\n");
    Join(SortedUnique(SplitOn(kept, '\n')), "\n")
  }

  /** The lines of the text output are strictly increasing, hence distinct; none mentions
      `MARC Key`; and they are exactly the lines of the input that do not, except that a text
      with no such line becomes one empty line. */
  lemma ShapeTextLines(t: string)
    ensures var out := SplitOn(ShapeText(t), '\n');
      var kept := DropMarcKeys(SplitOn(t, '\n'));
      && StrictlySorted(out)
      && (forall l | l in out :: !Contains(l, MarcKey))
      && (forall l :: l in out <==> (l in SplitOn(t, '\n') && !Contains(l, MarcKey)) || (kept == [] && l == ""))
  {
    var lines := SplitOn(t, '\n');
    var kept := DropMarcKeys(lines);
    SplitPiecesAvoidSeparator(t, '\n');
    var joined := Join(kept, "\n");
    var split := SplitOn(joined, '\n');
    if kept != [] {
      SplitJoin(kept, '\n');
    } else {
      assert split == [""];
    }
    assert forall l :: l in split <==> l in kept || (kept == [] && l == "");
    var su := SortedUnique(split);
    assert split[0] in su;
    assert forall x | x in su :: '\n' !in x;
    SplitJoin(su, '\n');
    forall l | l in su ensures !Contains(l, MarcKey) {
      if kept == [] {
        NotContainsEmptyParts(l, MarcKey);
      }
    }
  }

  /** A JSON value of the record: a single value unwrapped, any other count a list. */
  datatype Json = One(s: string) | Many(items: seq<string>)

  function Simplified(vs: seq<string>): Json {
    if |vs| == 1 then One(vs[0]) else Many(vs)
  }

  /** `json_result`: every key in order, a key with exactly one value mapped to that value
      itself and any other to its list. */
  function JsonOf(f: Fields): (r: seq<(string, Json)>)
    ensures |r| == |f.keys|
    ensures forall i | 0 <= i < |r| :: r[i].0 == f.keys[i]
    ensures forall i | 0 <= i < |r| :: var vs := ValuesOf(f, f.keys[i]);
      (r[i].1.One? <==> |vs| == 1) && (r[i].1.One? ==> r[i].1.s == vs[0]) && (r[i].1.Many? ==> r[i].1.items == vs)
    decreases |f.keys|
  {
    if f.keys == [] then []
    else
      var k := f.keys[|f.keys| - 1];
      JsonOf(f.(keys := f.keys[..|f.keys| - 1])) + [(k, Simplified(ValuesOf(f, k)))]
  }

  // ---------------------------------------------------------------------
  // the accumulator
  // ---------------------------------------------------------------------

  /** The `result` dictionary of one `parse_loc_xml` call, with `add_to_result` and the
      loops that feed it. */
  class RecordFields {
    var keys: seq<string>
    var values: map<string, seq<string>>

    function State(): Fields
      reads this
    {
      Fields(keys, values)
    }

    constructor ()
      ensures State() == NoFields
    {
      keys := [];
      values := map[];
    }

    /** `add_to_result(key, value)` */
    method Add(key: string, value: Value)
      modifies this
      ensures State() == AddStep(old(State()), key, value)
    {
      if Truthy(value) {
        if key !in values {
          keys := keys + [key];
          values := values[key := []];
        }
        if value.List? {
          values := values[key := values[key] + value.items];
        } else {
          values := values[key := values[key] + [value.s]];
        }
      }
    }

    /** The citation loop: one `Source` value per citation with a part left after filtering. */
    method AddCitations(cs: seq<Citation>)
      modifies this
      ensures State() == Accumulate(old(State()), CitationAdds(cs))
    {
      ghost var start := State();
      for i := 0 to |cs|
        invariant State() == Accumulate(start, CitationAdds(cs[..i]))
      {
        var entry := CitationEntry(cs[i]);
        ghost var more := if entry.Some? then [("Source", Scalar(entry.value))] else [];
        CitationAddsStep(cs, i);
        AccumulateSnoc(start, CitationAdds(cs[..i]), more);
        if entry.Some? {
          Add("Source", Scalar(entry.value));
        }
      }
      assert cs[..|cs|] == cs;
    }

    /** The record-information loop: one `Record Info` value per element with a part present. */
    method AddRecordInfos(rs: seq<RecordInfo>)
      modifies this
      ensures State() == Accumulate(old(State()), RecordInfoAdds(rs))
    {
      ghost var start := State();
      for i := 0 to |rs|
        invariant State() == Accumulate(start, RecordInfoAdds(rs[..i]))
      {
        var entry := RecordInfoEntry(rs[i]);
        ghost var more := if entry.Some? then [("Record Info", Scalar(entry.value))] else [];
        RecordInfoAddsStep(rs, i);
        AccumulateSnoc(start, RecordInfoAdds(rs[..i]), more);
        if entry.Some? {
          Add("Record Info", Scalar(entry.value));
        }
      }
      assert rs[..|rs|] == rs;
    }

    /** `text_format`: one `key: value` line per stored value, joined by newlines. */
    method TextFormat() returns (text: string)
      ensures text == Join(TextLines(keys, values), "\n")
    {
      var lines: seq<string> := [];
      for i := 0 to |keys|
        invariant lines == TextLines(keys[..i], values)
      {
        var key := keys[i];
        var vs := ValuesOf(State(), key);
        ghost var done := lines;
        TextLinesStep(keys, values, i);
        for j := 0 to |vs|
          invariant lines == done + KeyLines(key, vs[..j])
        {
          KeyLinesStep(key, vs, j);
          lines := lines + [key + ": " + vs[j]];
        }
        assert vs[..|vs|] == vs;
      }
      assert keys[..|keys|] == keys;
      text := Join(lines, "\n");
    }

    /** The pair `parse_loc_xml` returns once the walk is done. */
    method Output() returns (text: string, json: seq<(string, Json)>)
      ensures text == ShapeText(Join(TextLines(keys, values), "\n"))
      ensures json == JsonOf(State())
    {
      var textFormat := TextFormat();
      json := JsonOf(State());
      text := ShapeText(textFormat);
    }
  }
}
