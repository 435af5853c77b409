/**
 * Finding the Wikidata item named in a MARC authority record.
 *
 * `extract_wikidata` runs `re.findall(r'wikidata\.org/.*\/Q[0-9]+', str(field))`
 * and keeps the last `/`-segment of the only match. The regular expression is
 * modelled by hand: a match starting at `i` needs the literal `wikidata.org/`
 * there; the greedy `.*` (which stops at a line break) then backs off to the
 * LAST `/Q<digit>` on the same line, and `[0-9]+` takes every digit after it.
 */
module Marc {
  import opened Text
  import opened Wrappers
  import Patterns

  /** A MARC field as the scan sees it: `str(field)` and whether it has a `$u` subfield. */
  datatype Field = Field(text: string, hasSubfieldU: bool)

  const Host := "wikidata.org/"

  /** The first line break at or after `j`, or the end of the text. */
  function LineEnd(s: string, j: nat): (e: nat)
    requires j <= |s|
    ensures j <= e <= |s|
    ensures e == |s| || s[e] == '\n'
    ensures forall k | j <= k < e :: s[k] != '\n'
    decreases |s| - j
  {
    if j == |s| || s[j] == '\n' then j else LineEnd(s, j + 1)
  }

  /** `/Q` followed by a digit at `k`. */
  predicate QLinkAt(s: string, k: nat) {
    k + 2 < |s| && s[k] == '/' && s[k + 1] == 'Q' && IsDigit(s[k + 2])
  }

  /** The last `/Q<digit>` that starts in `[lo, hi)`. */
  function LastQLink(s: string, lo: nat, hi: nat): (r: Option<nat>)
    requires lo <= hi <= |s|
    ensures r.Some? ==> lo <= r.value < hi && QLinkAt(s, r.value)
    ensures r.Some? ==> forall j | r.value < j < hi :: !QLinkAt(s, j)
    ensures r.None? ==> forall j | lo <= j < hi :: !QLinkAt(s, j)
    decreases hi - lo
  {
    if hi == lo then None
    else if QLinkAt(s, hi - 1) then Some(hi - 1)
    else LastQLink(s, lo, hi - 1)
  }

  /** Where `/Q` sits in the match that starts at `i`, if there is a match. */
  function LinkOfMatchAt(s: string, i: nat): (r: Option<nat>)
    requires i <= |s|
    ensures r.Some? ==> i + |Host| <= r.value && QLinkAt(s, r.value)
  {
    if Host <= s[i..] then LastQLink(s, i + |Host|, LineEnd(s, i + |Host|)) else None
  }

  /** The end of the match that starts at `i`. */
  function MatchAt(s: string, i: nat): (r: Option<nat>)
    requires i <= |s|
    ensures r.Some? ==> i < r.value <= |s|
  {
    match LinkOfMatchAt(s, i)
    case None => None
    case Some(k) => Some(k + 2 + Patterns.RunLength(s, k + 2, Patterns.Digits))
  }

  /** The `(start, end)` of every match found scanning from `i`, as `re.findall` finds them. */
  function SpansFrom(s: string, i: nat): (spans: seq<(nat, nat)>)
    requires i <= |s|
    ensures forall k | 0 <= k < |spans| :: i <= spans[k].0 <= |s| && MatchAt(s, spans[k].0) == Some(spans[k].1)
    decreases |s| - i
  {
    if i == |s| then []
    else
      match MatchAt(s, i)
      case Some(e) => [(i, e)] + SpansFrom(s, e)
      case None => SpansFrom(s, i + 1)
  }

  /** `extract_wikidata`: the last `/`-segment of the match when there is exactly one. */
  function ExtractWikidata(text: string): Option<string> {
    var spans := SpansFrom(text, 0);
    if |spans| == 1 then Some(LastSegment(text[spans[0].0..spans[0].1], '/')) else None
  }

  /** A match ends in `/Q<digits>`, and its last `/`-segment is that `Q<digits>`. */
  lemma MatchEndsInQid(s: string, b: nat, e: nat)
    requires b <= |s| && MatchAt(s, b) == Some(e)
    ensures IsId(LastSegment(s[b..e], '/'), 'Q')
  {
    var k := LinkOfMatchAt(s, b).value;
    QLinkTail(s, k);
    var head, tail := s[b..k + 1], s[k + 1..e];
    assert s[b..e] == head + tail;
    assert head[|head| - 1] == '/';
    LastSegmentAfterSeparator(head, tail, '/');
  }

  /** From a `/Q<digit>` at `k`, the `Q` and the digits after it: an item id with no `/`. */
  lemma QLinkTail(s: string, k: nat)
    requires QLinkAt(s, k)
    ensures var tail := s[k + 1..k + 2 + Patterns.RunLength(s, k + 2, Patterns.Digits)];
      '/' !in tail && IsId(tail, 'Q')
  {
    var e := k + 2 + Patterns.RunLength(s, k + 2, Patterns.Digits);
    var tail := s[k + 1..e];
    forall j | 0 <= j < |tail| ensures tail[j] != '/' {
      assert tail[j] == s[k + 1 + j];
      assert j == 0 || Patterns.InClass(s[k + 1 + j], Patterns.Digits);
    }
    forall j | 0 <= j < |tail[1..]| ensures IsDigit(tail[1..][j]) {
      assert tail[1..][j] == s[k + 2 + j];
      assert Patterns.InClass(s[k + 2 + j], Patterns.Digits);
    }
  }

  /** Whatever `extract_wikidata` returns, when it returns something, is an item id. */
  lemma ExtractedIsId(text: string)
    ensures ExtractWikidata(text).Some? ==> IsId(ExtractWikidata(text).value, 'Q')
  {
    var spans := SpansFrom(text, 0);
    if |spans| == 1 {
      MatchEndsInQid(text, spans[0].0, spans[0].1);
    }
  }

  /** Only a field text that holds `wikidata.org/` can yield an id. */
  lemma IdNeedsHost(text: string)
    ensures ExtractWikidata(text).Some? ==> Contains(text, Host)
  {
    var spans := SpansFrom(text, 0);
    if |spans| == 1 {
      var b := spans[0].0;
      assert LinkOfMatchAt(text, b).Some?;
      ContainsAt(text, Host, b);
    }
  }

  // ---------------------------------------------------------------------
  // The field scan of the main loop
  // ---------------------------------------------------------------------

  /** A field the scan takes its id from: it mentions `wikidata.org`, is a 024, or a 670
      with a `$u`, and extraction succeeds on it. */
  predicate Yields(f: Field) {
    && Contains(f.text, "wikidata.org")
    && (Contains(f.text, "=024") || (Contains(f.text, "=670") && f.hasSubfieldU))
    && ExtractWikidata(f.text).Some?
  }

  /** The id the field loop settles on: that of the first yielding field, if any. */
  function ScanFields(fields: seq<Field>): Option<string> {
    if fields == [] then None
    else if Yields(fields[0]) then ExtractWikidata(fields[0].text)
    else ScanFields(fields[1..])
  }

  /** The scan finds nothing iff no field yields, and otherwise returns the id of the first
      field that yields. */
  lemma {:induction false} ScanFieldsIsFirst(fields: seq<Field>)
    ensures ScanFields(fields).None? <==> forall i | 0 <= i < |fields| :: !Yields(fields[i])
    ensures ScanFields(fields).Some? ==> exists i | 0 <= i < |fields| ::
      && Yields(fields[i])
      && ScanFields(fields) == ExtractWikidata(fields[i].text)
      && forall j | 0 <= j < i :: !Yields(fields[j])
  {
    if fields != [] && !Yields(fields[0]) {
      var rest := fields[1..];
      ScanFieldsIsFirst(rest);
      assert forall i | 1 <= i < |fields| :: fields[i] == rest[i - 1];
      if ScanFields(rest).Some? {
        var i :| 0 <= i < |rest| && Yields(rest[i]) && ScanFields(rest) == ExtractWikidata(rest[i].text)
          && forall j | 0 <= j < i :: !Yields(rest[j]);
        assert Yields(fields[i + 1]);
      }
    }
  }

  /** The id found by the scan is an item id. */
  lemma ScanFieldsYieldsQid(fields: seq<Field>)
    ensures ScanFields(fields).Some? ==> IsId(ScanFields(fields).value, 'Q')
  {
    ScanFieldsIsFirst(fields);
    if ScanFields(fields).Some? {
      var i :| 0 <= i < |fields| && Yields(fields[i]) && ScanFields(fields) == ExtractWikidata(fields[i].text);
      ExtractedIsId(fields[i].text);
    }
  }

  /** The field loop of the main script: 024 first, then 670 with `$u`, stopping at the
      first field from which an id is extracted. */
  method FindWikidataId(fields: seq<Field>) returns (wikiId: Option<string>)
    ensures wikiId == ScanFields(fields)
  {
    wikiId := None;
    var i := 0;
    while i < |fields|
      invariant 0 <= i <= |fields|
      invariant wikiId == None
      invariant ScanFields(fields[i..]) == ScanFields(fields)
    {
      assert fields[i..][1..] == fields[i + 1..];
      var field := fields[i];
      if Contains(field.text, "wikidata.org") {
        if Contains(field.text, "=024") {
          wikiId := ExtractWikidata(field.text);
          if wikiId.Some? {
            return;
          }
        }
        if Contains(field.text, "=670") {
          if field.hasSubfieldU {
            wikiId := ExtractWikidata(field.text);
            if wikiId.Some? {
              return;
            }
          }
        }
      }
      i := i + 1;
    }
  }
}
