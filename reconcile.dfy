/**
 * The P244 decision of the main loop: given the LCCN of a feed record, the
 * preferred label id.loc.gov reports for it and the Wikidata item found in its
 * MARC record, bring the item's P244 claims in line and report what was done.
 *
 * `Reconciled` and `ReconcileEffect` say what one record does to the item's P244
 * claim list, to the item's write history, to the run's log and to the ledger;
 * `ReconcileP244` is the loop of the script, proved to do exactly that. The
 * lemmas at the end state the four outcomes (`ADD_P244`, `NAMED_AS_ADDED`,
 * `NAMED_AS_CHANGE`, `NEED_REVIEW`) one by one.
 */
module Reconcile {
  import opened Text
  import opened Wrappers
  import opened IdLedger

  /** A property-value snak; qualifier and reference values are strings here. */
  datatype Snak = Snak(property: string, value: string)

  /** A P244 claim: the LCCN it states, its qualifiers in iteration order, its reference. */
  datatype Claim = Claim(value: string, qualifiers: seq<Snak>, references: seq<Snak>)

  /** "subject named as" */
  const NamedAsProperty := "P1810"

  /** The claim added to an item with no P244: the LCCN, qualified by the preferred label,
      with a reference stated in (P248) the LC authority file (Q18912790), retrieved (P813)
      on `today`. */
  function NewClaim(lccn: string, pref: string, today: string): Claim {
    Claim(lccn, [Snak(NamedAsProperty, pref)],
      [Snak("P248", "Q18912790"), Snak("P813", "+" + today + "T00:00:00Z")])
  }

  datatype Action = AddP244 | NamedAsAdded | NamedAsChange | NeedReview

  function ActionName(a: Action): string {
    match a
    case AddP244 => "ADD_P244"
    case NamedAsAdded => "NAMED_AS_ADDED"
    case NamedAsChange => "NAMED_AS_CHANGE"
    case NeedReview => "NEED_REVIEW"
  }

  /** One element of `log_writes`. */
  datatype LogEntry = LogEntry(lccn: string, qid: string, action: Action, oldValue: string, newValue: string)

  const NeedReviewMessage := "LCCN already exist but not the one we are trying to add."

  /** The edit summaries of `wiki_item.write`. */
  const ChangeSummary := "Updating the subject named as to LCCN authorized heading value"
  const AddedSummary := "Add authorized heading for P244 Library of Congress LCCN subject named as"
  const AddP244Summary := "Add P244 Library of Congress LCCN External Identifier"

  /** A claim states our LCCN when the two agree ignoring case. */
  predicate MatchesLccn(c: Claim, lccn: string) {
    Lower(c.value) == Lower(lccn)
  }

  predicate AnyMatch(cs: seq<Claim>, lccn: string) {
    exists i | 0 <= i < |cs| :: MatchesLccn(cs[i], lccn)
  }

  /** `len(c.qualifiers.get('P1810')) > 0` */
  predicate HasNamedAs(c: Claim) {
    exists j | 0 <= j < |c.qualifiers| :: c.qualifiers[j].property == NamedAsProperty
  }

  /** The first qualifier, of any property, whose stripped value is not the preferred label. */
  function FirstDiffering(qs: seq<Snak>, pref: string): (r: Option<nat>)
    ensures r.Some? ==> r.value < |qs| && Strip(qs[r.value].value) != pref
    ensures r.Some? ==> forall j | 0 <= j < r.value :: Strip(qs[j].value) == pref
    ensures r.None? ==> forall j | 0 <= j < |qs| :: Strip(qs[j].value) == pref
  {
    if qs == [] then None
    else if Strip(qs[0].value) != pref then Some(0)
    else
      match FirstDiffering(qs[1..], pref)
      case None => None
      case Some(k) => Some(k + 1)
  }

  /** A claim that states our LCCN, after the decision block has handled it. */
  function UpdateMatching(c: Claim, pref: string): Claim {
    if HasNamedAs(c) then
      match FirstDiffering(c.qualifiers, pref)
      case None => c
      case Some(k) => c.(qualifiers := c.qualifiers[k := c.qualifiers[k].(value := pref)])
    else
      c.(qualifiers := c.qualifiers + [Snak(NamedAsProperty, pref)])
  }

  /** One claim of a non-empty P244 list, after the decision block. */
  function UpdateClaim(c: Claim, lccn: string, pref: string): Claim {
    if MatchesLccn(c, lccn) then UpdateMatching(c, pref) else c
  }

  /** The P244 claim list after the decision block. */
  function Reconciled(cs: seq<Claim>, lccn: string, pref: string, today: string): seq<Claim> {
    if cs == [] then [NewClaim(lccn, pref, today)]
    else seq(|cs|, i requires 0 <= i < |cs| => UpdateClaim(cs[i], lccn, pref))
  }

  /** What handling a record leaves behind besides the item's claims: log entries,
      edit summaries written to Wikidata, and the number of ledger inserts. */
  datatype Effect = Effect(log: seq<LogEntry>, writes: seq<string>, inserts: nat)

  const NoEffect := Effect([], [], 0)

  function Then(a: Effect, b: Effect): Effect {
    Effect(a.log + b.log, a.writes + b.writes, a.inserts + b.inserts)
  }

  /** What one claim contributes while the loop runs over a non-empty P244 list. */
  function ClaimEffect(c: Claim, lccn: string, pref: string, qid: string): Effect {
    if !MatchesLccn(c, lccn) then NoEffect
    else if HasNamedAs(c) then
      match FirstDiffering(c.qualifiers, pref)
      case None => Effect([], [], 1)
      case Some(k) => Effect([LogEntry(lccn, qid, NamedAsChange, c.qualifiers[k].value, pref)], [ChangeSummary], 1)
    else
      Effect([LogEntry(lccn, qid, NamedAsAdded, "", pref)], [AddedSummary], 1)
  }

  /** The claims' effects, in claim order. */
  function ClaimsEffect(cs: seq<Claim>, lccn: string, pref: string, qid: string): Effect {
    if cs == [] then NoEffect
    else Then(ClaimsEffect(cs[..|cs| - 1], lccn, pref, qid), ClaimEffect(cs[|cs| - 1], lccn, pref, qid))
  }

  /** Everything the decision block does besides changing the claims. */
  function ReconcileEffect(cs: seq<Claim>, lccn: string, pref: string, qid: string): Effect {
    if cs == [] then
      Effect([LogEntry(lccn, qid, AddP244, "", "")], [AddP244Summary], 1)
    else if AnyMatch(cs, lccn) then
      ClaimsEffect(cs, lccn, pref, qid)
    else
      Then(ClaimsEffect(cs, lccn, pref, qid), Effect([LogEntry(lccn, qid, NeedReview, "", NeedReviewMessage)], [], 1))
  }

  function Repeat<T>(x: T, n: nat): (xs: seq<T>)
    ensures |xs| == n && forall i | 0 <= i < n :: xs[i] == x
  {
    seq(n, _ => x)
  }

  /** A Wikidata item as the bot edits it: its P244 claims and the edits written so far. */
  class Item {
    var claims: seq<Claim>
    var writes: seq<string>

    /** `wbi.item.get`: the item's P244 claims as fetched. */
    constructor (claims0: seq<Claim>)
      ensures claims == claims0 && writes == []
    {
      claims := claims0;
      writes := [];
    }

    /** `q.datavalue['value'] = value` on qualifier `qi` of claim `ci`. */
    method SetQualifierValue(ci: nat, qi: nat, value: string)
      requires ci < |claims| && qi < |claims[ci].qualifiers|
      modifies this
      ensures claims == old(claims[ci := claims[ci].(qualifiers := claims[ci].qualifiers[qi := claims[ci].qualifiers[qi].(value := value)])])
      ensures writes == old(writes)
    {
      var c := claims[ci];
      claims := claims[ci := c.(qualifiers := c.qualifiers[qi := c.qualifiers[qi].(value := value)])];
    }

    /** `c.qualifiers.add(q)` on claim `ci`. */
    method AddQualifier(ci: nat, q: Snak)
      requires ci < |claims|
      modifies this
      ensures claims == old(claims[ci := claims[ci].(qualifiers := claims[ci].qualifiers + [q])])
      ensures writes == old(writes)
    {
      claims := claims[ci := claims[ci].(qualifiers := claims[ci].qualifiers + [q])];
    }

    /** `wiki_item.claims.add(c)` */
    method AddClaim(c: Claim)
      modifies this
      ensures claims == old(claims) + [c] && writes == old(writes)
    {
      claims := claims + [c];
    }

    /** `wiki_item.write(summary=…)` */
    method Write(summary: string)
      modifies this
      ensures writes == old(writes) + [summary] && claims == old(claims)
    {
      writes := writes + [summary];
    }
  }

  /** The qualifier loop for claim `ci`, which states our LCCN and already has a P1810:
      overwrite the first qualifier whose stripped value is not the preferred label. */
  method RenameFirstDiffering(item: Item, ci: nat, lccn: string, pref: string, qid: string)
    returns (entries: seq<LogEntry>)
    requires ci < |item.claims| && MatchesLccn(item.claims[ci], lccn) && HasNamedAs(item.claims[ci])
    modifies item
    ensures item.claims == old(item.claims[ci := UpdateMatching(item.claims[ci], pref)])
    ensures item.writes == old(item.writes) + ClaimEffect(old(item.claims[ci]), lccn, pref, qid).writes
    ensures entries == ClaimEffect(old(item.claims[ci]), lccn, pref, qid).log
  {
    var qs := item.claims[ci].qualifiers;
    entries := [];
    var k := 0;
    while k < |qs|
      invariant 0 <= k <= |qs|
      invariant forall j | 0 <= j < k :: Strip(qs[j].value) == pref
      invariant item.claims == old(item.claims) && item.writes == old(item.writes) && entries == []
    {
      var q := qs[k];
      if Strip(q.value) != pref {
        entries := entries + [LogEntry(lccn, qid, NamedAsChange, q.value, pref)];
        item.SetQualifierValue(ci, k, pref);
        item.Write(ChangeSummary);
        assert FirstDiffering(qs, pref) == Some(k);
        return;
      }
      k := k + 1;
    }
    assert FirstDiffering(qs, pref) == None;
    assert old(item.claims)[ci := old(item.claims)[ci]] == old(item.claims);
  }

  /** The branch for a claim that states our LCCN: with a P1810 already, the qualifier loop;
      without one, add it; in both cases ledger the key. */
  method HandleOurClaim(item: Item, ledger: Ledger, ci: nat, key: string, lccn: string, pref: string,
                        qid: string, now: int)
    returns (entries: seq<LogEntry>)
    requires ci < |item.claims| && MatchesLccn(item.claims[ci], lccn)
    modifies item, ledger
    ensures item.claims == old(item.claims[ci := UpdateMatching(item.claims[ci], pref)])
    ensures item.writes == old(item.writes) + ClaimEffect(old(item.claims[ci]), lccn, pref, qid).writes
    ensures entries == ClaimEffect(old(item.claims[ci]), lccn, pref, qid).log
    ensures ledger.rows == old(ledger.rows) + [Row(key, lccn, now)]
  {
    if HasNamedAs(item.claims[ci]) {
      entries := RenameFirstDiffering(item, ci, lccn, pref, qid);
    } else {
      item.AddQualifier(ci, Snak(NamedAsProperty, pref));
      item.Write(AddedSummary);
      entries := [LogEntry(lccn, qid, NamedAsAdded, "", pref)];
    }
    ledger.Insert(key, lccn, now);
  }

  /** One pass of the claim loop: claim `i` is handled if it states our LCCN and left
      alone otherwise. */
  method HandleClaim(item: Item, ledger: Ledger, i: nat, key: string, lccn: string, pref: string,
                     qid: string, now: int)
    returns (entries: seq<LogEntry>)
    requires i < |item.claims|
    modifies item, ledger
    ensures item.claims == old(item.claims[i := UpdateClaim(item.claims[i], lccn, pref)])
    ensures entries == ClaimEffect(old(item.claims[i]), lccn, pref, qid).log
    ensures item.writes == old(item.writes) + ClaimEffect(old(item.claims[i]), lccn, pref, qid).writes
    ensures ledger.rows == old(ledger.rows) + Repeat(Row(key, lccn, now), ClaimEffect(old(item.claims[i]), lccn, pref, qid).inserts)
  {
    if Lower(item.claims[i].value) == Lower(lccn) {
      entries := HandleOurClaim(item, ledger, i, key, lccn, pref, qid, now);
      assert Repeat(Row(key, lccn, now), 1) == [Row(key, lccn, now)];
    } else {
      entries := [];
      assert item.claims[i := item.claims[i]] == item.claims;
      assert item.writes + [] == item.writes && ledger.rows + [] == ledger.rows;
    }
  }

  /** The loop over a P244 list: every claim handled in order; `hasLccn` records whether
      any of them states our LCCN. */
  method HandleClaims(item: Item, ledger: Ledger, key: string, lccn: string, pref: string, qid: string, now: int)
    returns (log: seq<LogEntry>, hasLccn: bool)
    modifies item, ledger
    ensures |item.claims| == |old(item.claims)|
    ensures forall j | 0 <= j < |item.claims| :: item.claims[j] == UpdateClaim(old(item.claims[j]), lccn, pref)
    ensures log == ClaimsEffect(old(item.claims), lccn, pref, qid).log
    ensures item.writes == old(item.writes) + ClaimsEffect(old(item.claims), lccn, pref, qid).writes
    ensures ledger.rows == old(ledger.rows) + Repeat(Row(key, lccn, now), ClaimsEffect(old(item.claims), lccn, pref, qid).inserts)
    ensures hasLccn <==> AnyMatch(old(item.claims), lccn)
  {
    var p244 := item.claims;
    var row := Row(key, lccn, now);
    log := [];
    hasLccn := false;
    var i := 0;
    while i < |p244|
      invariant 0 <= i <= |p244|
      invariant |item.claims| == |p244|
      invariant forall j | 0 <= j < |p244| :: item.claims[j] == if j < i then UpdateClaim(p244[j], lccn, pref) else p244[j]
      invariant log == ClaimsEffect(p244[..i], lccn, pref, qid).log
      invariant item.writes == old(item.writes) + ClaimsEffect(p244[..i], lccn, pref, qid).writes
      invariant ledger.rows == old(ledger.rows) + Repeat(row, ClaimsEffect(p244[..i], lccn, pref, qid).inserts)
      invariant hasLccn <==> AnyMatch(p244[..i], lccn)
    {
      ghost var before := ClaimsEffect(p244[..i], lccn, pref, qid);
      ghost var c := ClaimEffect(p244[i], lccn, pref, qid);
      ghost var writes0, rows0 := item.writes, ledger.rows;
      ClaimsEffectStep(p244, i, lccn, pref, qid);
      AnyMatchStep(p244, i, lccn);
      hasLccn := hasLccn || Lower(p244[i].value) == Lower(lccn);
      var entries := HandleClaim(item, ledger, i, key, lccn, pref, qid, now);
      log := log + entries;
      AppendAssoc(old(item.writes), before.writes, c.writes);
      AppendAssoc(old(ledger.rows), Repeat(row, before.inserts), Repeat(row, c.inserts));
      RepeatAdd(row, before.inserts, c.inserts);
      i := i + 1;
    }
    assert p244[..i] == p244;
  }

  /** The P244 decision block for one record, with the ledger inserts it makes. */
  method ReconcileP244(item: Item, ledger: Ledger, key: string, lccn: string, pref: string, qid: string,
                       today: string, now: int)
    returns (log: seq<LogEntry>)
    modifies item, ledger
    ensures item.claims == Reconciled(old(item.claims), lccn, pref, today)
    ensures log == ReconcileEffect(old(item.claims), lccn, pref, qid).log
    ensures item.writes == old(item.writes) + ReconcileEffect(old(item.claims), lccn, pref, qid).writes
    ensures ledger.rows == old(ledger.rows) + Repeat(Row(key, lccn, now), ReconcileEffect(old(item.claims), lccn, pref, qid).inserts)
  {
    var row := Row(key, lccn, now);
    if |item.claims| > 0 {
      ghost var p244 := item.claims;
      var hasLccn;
      log, hasLccn := HandleClaims(item, ledger, key, lccn, pref, qid, now);
      assert item.claims == Reconciled(p244, lccn, pref, today);
      if !hasLccn {
        ghost var rows0 := ledger.rows;
        log := log + [LogEntry(lccn, qid, NeedReview, "", NeedReviewMessage)];
        ledger.Insert(key, lccn, now);
        ghost var e := ClaimsEffect(p244, lccn, pref, qid);
        AppendAssoc(old(ledger.rows), Repeat(row, e.inserts), [row]);
        RepeatSnoc(row, e.inserts);
        assert item.writes == old(item.writes) + (e.writes + []);
      }
    } else {
      item.AddClaim(NewClaim(lccn, pref, today));
      item.Write(AddP244Summary);
      log := [LogEntry(lccn, qid, AddP244, "", "")];
      ledger.Insert(key, lccn, now);
      assert Repeat(row, 1) == [row];
    }
  }

  lemma AppendAssoc<T>(a: seq<T>, b: seq<T>, c: seq<T>)
    ensures (a + b) + c == a + (b + c)
  {
  }

  lemma RepeatSnoc<T>(x: T, n: nat)
    ensures Repeat(x, n) + [x] == Repeat(x, n + 1)
  {
  }

  lemma RepeatAdd<T>(x: T, a: nat, b: nat)
    ensures Repeat(x, a) + Repeat(x, b) == Repeat(x, a + b)
  {
  }

  /** Extending the handled prefix of the claims by one claim. */
  lemma ClaimsEffectStep(cs: seq<Claim>, i: nat, lccn: string, pref: string, qid: string)
    requires i < |cs|
    ensures var e, e', c := ClaimsEffect(cs[..i], lccn, pref, qid), ClaimsEffect(cs[..i + 1], lccn, pref, qid), ClaimEffect(cs[i], lccn, pref, qid);
      && e'.log == e.log + c.log && e'.writes == e.writes + c.writes && e'.inserts == e.inserts + c.inserts
      && (!MatchesLccn(cs[i], lccn) ==> e'.log == e.log && e'.writes == e.writes && e'.inserts == e.inserts)
  {
    assert cs[..i + 1][..i] == cs[..i];
    var e := ClaimsEffect(cs[..i], lccn, pref, qid);
    assert e.log + [] == e.log && e.writes + [] == e.writes;
  }

  lemma AnyMatchStep(cs: seq<Claim>, i: nat, lccn: string)
    requires i < |cs|
    ensures AnyMatch(cs[..i + 1], lccn) <==> AnyMatch(cs[..i], lccn) || MatchesLccn(cs[i], lccn)
  {
    if AnyMatch(cs[..i + 1], lccn) {
      var j :| 0 <= j < i + 1 && MatchesLccn(cs[..i + 1][j], lccn);
      if j < i {
        assert cs[..i][j] == cs[j];
      }
    }
    if AnyMatch(cs[..i], lccn) {
      var j :| 0 <= j < i && MatchesLccn(cs[..i][j], lccn);
      assert cs[..i + 1][j] == cs[j];
    }
    if MatchesLccn(cs[i], lccn) {
      assert cs[..i + 1][i] == cs[i];
    }
  }

  // ---------------------------------------------------------------------
  // The four outcomes
  // ---------------------------------------------------------------------

  /** An item without P244 gets exactly one new claim: the LCCN with one P1810 qualifier
      holding the preferred label; one write, one `ADD_P244` entry, one ledger insert. */
  lemma NoClaimsAddsOne(lccn: string, pref: string, qid: string, today: string)
    ensures Reconciled([], lccn, pref, today) == [NewClaim(lccn, pref, today)]
    ensures var c := NewClaim(lccn, pref, today);
      c.value == lccn && c.qualifiers == [Snak(NamedAsProperty, pref)] && c.references[0] == Snak("P248", "Q18912790")
    ensures var e := ReconcileEffect([], lccn, pref, qid);
      e.log == [LogEntry(lccn, qid, AddP244, "", "")] && e.writes == [AddP244Summary] && e.inserts == 1
  {
  }

  /** No claim and no effect at all comes from claims that do not state our LCCN. */
  lemma {:induction false} NonMatchingClaimsNoEffect(cs: seq<Claim>, lccn: string, pref: string, qid: string)
    requires !AnyMatch(cs, lccn)
    ensures var e := ClaimsEffect(cs, lccn, pref, qid);
      e.log == [] && e.writes == [] && e.inserts == 0
  {
    if cs != [] {
      var init := cs[..|cs| - 1];
      NonMatchingClaimsNoEffect(init, lccn, pref, qid);
      assert !MatchesLccn(cs[|cs| - 1], lccn);
    }
  }

  /** P244 claims, none of them ours: nothing changes or is written, one `NEED_REVIEW`
      entry is logged and the key is ledgered once. */
  lemma NoMatchNeedsReview(cs: seq<Claim>, lccn: string, pref: string, qid: string, today: string)
    requires cs != [] && !AnyMatch(cs, lccn)
    ensures Reconciled(cs, lccn, pref, today) == cs
    ensures var e := ReconcileEffect(cs, lccn, pref, qid);
      e.log == [LogEntry(lccn, qid, NeedReview, "", NeedReviewMessage)] && e.writes == [] && e.inserts == 1
  {
    NonMatchingClaimsNoEffect(cs, lccn, pref, qid);
    NoMatchUnchanged(cs, lccn, pref, today);
    var e := ClaimsEffect(cs, lccn, pref, qid);
    var review := LogEntry(lccn, qid, NeedReview, "", NeedReviewMessage);
    assert ReconcileEffect(cs, lccn, pref, qid) == Then(e, Effect([review], [], 1));
    assert e.log == [] && [] + [review] == [review];
  }

  lemma NoMatchUnchanged(cs: seq<Claim>, lccn: string, pref: string, today: string)
    requires cs != [] && !AnyMatch(cs, lccn)
    ensures Reconciled(cs, lccn, pref, today) == cs
  {
    var r := Reconciled(cs, lccn, pref, today);
    forall i | 0 <= i < |cs| ensures r[i] == cs[i] {
      assert !MatchesLccn(cs[i], lccn);
    }
  }

  /** A claim of ours with no P1810 gets exactly one more qualifier, P1810 = preferred label,
      and `NAMED_AS_ADDED` is logged with an empty old value. */
  lemma NamedAsAddedOutcome(c: Claim, lccn: string, pref: string, qid: string)
    requires MatchesLccn(c, lccn) && !HasNamedAs(c)
    ensures UpdateClaim(c, lccn, pref) == Claim(c.value, c.qualifiers + [Snak(NamedAsProperty, pref)], c.references)
    ensures var e := ClaimEffect(c, lccn, pref, qid);
      e.log == [LogEntry(lccn, qid, NamedAsAdded, "", pref)] && e.writes == [AddedSummary] && e.inserts == 1
  {
  }

  /** A claim of ours with a P1810: at most one qualifier changes, the first whose stripped
      value is not the preferred label, and it then holds the label; the old raw value is
      logged. With no such qualifier nothing is written, but the key is still ledgered. */
  lemma NamedAsChangeOutcome(c: Claim, lccn: string, pref: string, qid: string)
    requires MatchesLccn(c, lccn) && HasNamedAs(c)
    ensures var u := UpdateClaim(c, lccn, pref);
      u.value == c.value && u.references == c.references && |u.qualifiers| == |c.qualifiers|
    ensures var u := UpdateClaim(c, lccn, pref);
      forall j | 0 <= j < |c.qualifiers| && u.qualifiers[j] != c.qualifiers[j] ::
        && u.qualifiers[j] == c.qualifiers[j].(value := pref)
        && Strip(c.qualifiers[j].value) != pref
        && forall j' | 0 <= j' < j :: Strip(c.qualifiers[j'].value) == pref
    ensures var u := UpdateClaim(c, lccn, pref);
      forall j, j' | 0 <= j < j' < |c.qualifiers| :: u.qualifiers[j] == c.qualifiers[j] || u.qualifiers[j'] == c.qualifiers[j']
    ensures (forall j | 0 <= j < |c.qualifiers| :: Strip(c.qualifiers[j].value) == pref) ==>
      var e := ClaimEffect(c, lccn, pref, qid);
      UpdateClaim(c, lccn, pref) == c && e.log == [] && e.writes == [] && e.inserts == 1
    ensures (exists j | 0 <= j < |c.qualifiers| :: Strip(c.qualifiers[j].value) != pref) ==>
      var e := ClaimEffect(c, lccn, pref, qid);
      && e.writes == [ChangeSummary] && e.inserts == 1
      && exists j | 0 <= j < |c.qualifiers| ::
        && e.log == [LogEntry(lccn, qid, NamedAsChange, c.qualifiers[j].value, pref)]
        && UpdateClaim(c, lccn, pref).qualifiers[j] == c.qualifiers[j].(value := pref)
  {
    var u := UpdateClaim(c, lccn, pref);
    match FirstDiffering(c.qualifiers, pref)
    case None =>
    case Some(k) =>
      assert forall j | 0 <= j < |c.qualifiers| && j != k :: u.qualifiers[j] == c.qualifiers[j];
  }

  /** Claims that do not state our LCCN are never modified, and no claim is added or removed
      when the item already has P244 claims. */
  lemma OtherClaimsUntouched(cs: seq<Claim>, lccn: string, pref: string, today: string)
    requires cs != []
    ensures var r := Reconciled(cs, lccn, pref, today);
      |r| == |cs| && forall i | 0 <= i < |cs| && !MatchesLccn(cs[i], lccn) :: r[i] == cs[i]
  {
  }

  /** The number of claims that state our LCCN. */
  function MatchCount(cs: seq<Claim>, lccn: string): nat {
    if cs == [] then 0
    else MatchCount(cs[..|cs| - 1], lccn) + (if MatchesLccn(cs[|cs| - 1], lccn) then 1 else 0)
  }

  lemma {:induction false} MatchCountPositive(cs: seq<Claim>, lccn: string)
    ensures MatchCount(cs, lccn) > 0 <==> AnyMatch(cs, lccn)
  {
    if cs != [] {
      var n := |cs| - 1;
      MatchCountPositive(cs[..n], lccn);
      AnyMatchStep(cs, n, lccn);
      assert cs[..n + 1] == cs;
    }
  }

  /** Each claim of ours ledgers the key once more. */
  lemma {:induction false} ClaimsEffectInserts(cs: seq<Claim>, lccn: string, pref: string, qid: string)
    ensures ClaimsEffect(cs, lccn, pref, qid).inserts == MatchCount(cs, lccn)
  {
    if cs != [] {
      var init, c := cs[..|cs| - 1], cs[|cs| - 1];
      ClaimsEffectInserts(init, lccn, pref, qid);
      ClaimEffectInserts(c, lccn, pref, qid);
      assert ClaimsEffect(cs, lccn, pref, qid).inserts == ClaimsEffect(init, lccn, pref, qid).inserts + ClaimEffect(c, lccn, pref, qid).inserts;
      assert MatchCount(cs, lccn) == MatchCount(init, lccn) + (if MatchesLccn(c, lccn) then 1 else 0);
    }
  }

  lemma ClaimEffectInserts(c: Claim, lccn: string, pref: string, qid: string)
    ensures ClaimEffect(c, lccn, pref, qid).inserts == if MatchesLccn(c, lccn) then 1 else 0
  {
  }

  /** The key is inserted once per claim of ours, or once when there is none: a key can be
      ledgered twice within one record. Some insert always happens. */
  lemma InsertCount(cs: seq<Claim>, lccn: string, pref: string, qid: string)
    ensures ReconcileEffect(cs, lccn, pref, qid).inserts ==
      if cs != [] && AnyMatch(cs, lccn) then MatchCount(cs, lccn) else 1
    ensures ReconcileEffect(cs, lccn, pref, qid).inserts >= 1
  {
    ClaimsEffectInserts(cs, lccn, pref, qid);
    MatchCountPositive(cs, lccn);
    if cs != [] && !AnyMatch(cs, lccn) {
      NonMatchingClaimsNoEffect(cs, lccn, pref, qid);
    }
  }

  /** Every entry of the claims' log is about our LCCN and item, and is a named-as action. */
  lemma {:induction false} ClaimsLogActions(cs: seq<Claim>, lccn: string, pref: string, qid: string)
    ensures var log := ClaimsEffect(cs, lccn, pref, qid).log;
      forall e | e in log :: e.lccn == lccn && e.qid == qid && e.newValue == pref && (e.action == NamedAsAdded || e.action == NamedAsChange)
    ensures |ClaimsEffect(cs, lccn, pref, qid).log| == |ClaimsEffect(cs, lccn, pref, qid).writes|
  {
    if cs != [] {
      ClaimsLogActions(cs[..|cs| - 1], lccn, pref, qid);
    }
  }

  /** `ADD_P244` is logged iff the item had no P244 claim; every Wikidata write is logged, and
      the only entry without a write is `NEED_REVIEW`. */
  lemma LogMatchesWrites(cs: seq<Claim>, lccn: string, pref: string, qid: string)
    ensures var e := ReconcileEffect(cs, lccn, pref, qid);
      (exists k | 0 <= k < |e.log| :: e.log[k].action == AddP244) <==> cs == []
    ensures var e := ReconcileEffect(cs, lccn, pref, qid);
      |e.log| == |e.writes| + (if cs != [] && !AnyMatch(cs, lccn) then 1 else 0)
    ensures forall e | e in ReconcileEffect(cs, lccn, pref, qid).log :: e.lccn == lccn && e.qid == qid
  {
    ClaimsLogActions(cs, lccn, pref, qid);
    var e := ReconcileEffect(cs, lccn, pref, qid);
    var ce := ClaimsEffect(cs, lccn, pref, qid);
    if cs == [] {
      assert e.log[0].action == AddP244;
    } else {
      var review := [LogEntry(lccn, qid, NeedReview, "", NeedReviewMessage)];
      assert e.log == ce.log || e.log == ce.log + review;
      forall k | 0 <= k < |e.log| ensures e.log[k].action != AddP244 {
        if k < |ce.log| {
          assert e.log[k] == ce.log[k];
          assert ce.log[k] in ce.log;
        }
      }
      if !AnyMatch(cs, lccn) {
        assert e.writes == ce.writes + [];
      }
    }
  }
}
