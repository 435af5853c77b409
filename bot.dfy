/**
 * The main loop of the bot: walk the pages of the id.loc.gov activity stream,
 * skip every record whose ledger key is already present, and for each other
 * record find the Wikidata id in its MARC record and reconcile the item's P244
 * claims; then prune the ledger.
 *
 * Every network call is an input: a `World` says, for one record, what the MARC
 * download and parse gave, what the preferred-label request gave and what the
 * item fetch gave (`None` where the call raised).
 */
module Bot {
  import opened Text
  import opened Wrappers
  import opened IdLedger
  import Marc
  import opened Reconcile

  /** One element of a feed page's `orderedItems`: `object.id`, `published`, `object.update`. */
  datatype FeedRecord = FeedRecord(objectId: string, published: string, update: string)

  /** The MARC download and parse: either step can raise. */
  datatype MarcFetch = DownloadFailed | ParseFailed | Parsed(fields: seq<Marc.Field>)

  /** What the network answers for one record: the MARC record, the `X-PrefLabel-Encoded`
      header (decoded), and the P244 claims of the Wikidata item. */
  datatype World = World(marc: MarcFetch, prefLabel: Option<string>, p244: Option<seq<Claim>>)

  datatype FeedEntry = FeedEntry(record: FeedRecord, world: World)

  /** `range(1, 50)`: feed pages 1 to 49. */
  const FeedPages := 49

  /** `rec['object']['id'].split("/")[-1]` */
  function LccnOf(r: FeedRecord): string {
    LastSegment(r.objectId, '/')
  }

  function KeyOf(r: FeedRecord): string {
    LedgerKey(LccnOf(r), r.published, r.update)
  }

  function WikiIdOf(w: World): Option<string> {
    if w.marc.Parsed? then Marc.ScanFields(w.marc.fields) else None
  }

  /** The record gets as far as the P244 decision block. */
  predicate Reaches(w: World) {
    WikiIdOf(w).Some? && w.prefLabel.Some? && w.p244.Some?
  }

  /** The decision block's effect, for a record that reaches it. */
  function DecisionOf(e: FeedEntry): Effect
    requires Reaches(e.world)
  {
    ReconcileEffect(e.world.p244.value, LccnOf(e.record), e.world.prefLabel.value, WikiIdOf(e.world).value)
  }

  /** The log entries one record contributes. */
  function RecordLog(e: FeedEntry): seq<LogEntry> {
    if Reaches(e.world) then DecisionOf(e).log else []
  }

  /** The number of ledger inserts one record makes. */
  function RecordInserts(e: FeedEntry): nat {
    if !e.world.marc.Parsed? then 0
    else if WikiIdOf(e.world).None? then 1
    else if Reaches(e.world) then DecisionOf(e).inserts
    else 0
  }

  function RecordRows(e: FeedEntry, now: int): seq<Row> {
    Repeat(Row(KeyOf(e.record), LccnOf(e.record), now), RecordInserts(e))
  }

  /** Handle one record of `to_check`. The item, when the record reaches the decision block,
      is returned with its claims and writes as the block leaves them. */
  method ProcessRecord(ledger: Ledger, e: FeedEntry, today: string, now: int)
    returns (log: seq<LogEntry>, item: Item?)
    modifies ledger
    ensures log == RecordLog(e)
    ensures ledger.rows == old(ledger.rows) + RecordRows(e, now)
    ensures item != null <==> Reaches(e.world)
    ensures item != null ==> (
      && fresh(item)
      && item.claims == Reconciled(e.world.p244.value, LccnOf(e.record), e.world.prefLabel.value, today)
      && item.writes == DecisionOf(e).writes)
  {
    var lccn := LccnOf(e.record);
    var key := KeyOf(e.record);
    log := [];
    item := null;
    match e.world.marc
    case DownloadFailed =>
      return;
    case ParseFailed =>
      return;
    case Parsed(fields) =>
      var wikiId := Marc.FindWikidataId(fields);
      if wikiId.None? {
        ledger.Insert(key, lccn, now);
        assert RecordRows(e, now) == [Row(key, lccn, now)];
        return;
      }
      if e.world.prefLabel.None? {
        return;
      }
      var pref := e.world.prefLabel.value;
      if e.world.p244.None? {
        return;
      }
      item := new Item(e.world.p244.value);
      log := ReconcileP244(item, ledger, key, lccn, pref, wikiId.value, today, now);
  }

  /** The entries of a page whose key is not in the ledger, in page order (`to_check`). */
  function Unseen(es: seq<FeedEntry>, rows: seq<Row>): seq<FeedEntry> {
    if es == [] then []
    else
      var init := Unseen(es[..|es| - 1], rows);
      if HasKey(rows, KeyOf(es[|es| - 1].record)) then init else init + [es[|es| - 1]]
  }

  function RecordsRows(es: seq<FeedEntry>, now: int): seq<Row> {
    if es == [] then [] else RecordsRows(es[..|es| - 1], now) + RecordRows(es[|es| - 1], now)
  }

  function RecordsLog(es: seq<FeedEntry>): seq<LogEntry> {
    if es == [] then [] else RecordsLog(es[..|es| - 1]) + RecordLog(es[|es| - 1])
  }

  /** The ledger after one page. */
  function PageAfter(rows: seq<Row>, page: seq<FeedEntry>, now: int): seq<Row> {
    rows + RecordsRows(Unseen(page, rows), now)
  }

  /** The first loop of a page: the records whose key is not yet ledgered (`to_check`). */
  method SelectUnseen(ledger: Ledger, page: seq<FeedEntry>) returns (toCheck: seq<FeedEntry>)
    ensures toCheck == Unseen(page, ledger.rows)
  {
    toCheck := [];
    var i := 0;
    while i < |page|
      invariant 0 <= i <= |page|
      invariant toCheck == Unseen(page[..i], ledger.rows)
    {
      assert page[..i + 1][..i] == page[..i];
      var found := ledger.Lookup(KeyOf(page[i].record));
      if !found {
        toCheck := toCheck + [page[i]];
      }
      i := i + 1;
    }
    assert page[..i] == page;
  }

  /** The second loop of a page: each selected record handled in order. */
  method ProcessRecords(ledger: Ledger, toCheck: seq<FeedEntry>, today: string, now: int)
    returns (log: seq<LogEntry>)
    modifies ledger
    ensures ledger.rows == old(ledger.rows) + RecordsRows(toCheck, now)
    ensures log == RecordsLog(toCheck)
  {
    log := [];
    var j := 0;
    while j < |toCheck|
      invariant 0 <= j <= |toCheck|
      invariant ledger.rows == old(ledger.rows) + RecordsRows(toCheck[..j], now)
      invariant log == RecordsLog(toCheck[..j])
    {
      assert toCheck[..j + 1][..j] == toCheck[..j];
      ghost var rows0 := ledger.rows;
      var entries, _ := ProcessRecord(ledger, toCheck[j], today, now);
      log := log + entries;
      Reconcile.AppendAssoc(old(ledger.rows), RecordsRows(toCheck[..j], now), RecordRows(toCheck[j], now));
      j := j + 1;
    }
    assert toCheck[..j] == toCheck;
  }

  /** One feed page: first pick the unseen records, looking keys up before any of them is
      handled, then handle them in order. */
  method ProcessPage(ledger: Ledger, page: seq<FeedEntry>, today: string, now: int)
    returns (log: seq<LogEntry>)
    modifies ledger
    ensures ledger.rows == PageAfter(old(ledger.rows), page, now)
    ensures log == RecordsLog(Unseen(page, old(ledger.rows)))
  {
    var toCheck := SelectUnseen(ledger, page);
    log := ProcessRecords(ledger, toCheck, today, now);
  }

  /** The ledger after handling `pages` in order, each page seeing the ledger the previous
      one left. */
  function RunRows(rows: seq<Row>, pages: seq<seq<FeedEntry>>, now: int): seq<Row>
    decreases |pages|
  {
    if pages == [] then rows else RunRows(PageAfter(rows, pages[0], now), pages[1..], now)
  }

  function RunLog(rows: seq<Row>, pages: seq<seq<FeedEntry>>, now: int): seq<LogEntry>
    decreases |pages|
  {
    if pages == [] then []
    else RecordsLog(Unseen(pages[0], rows)) + RunLog(PageAfter(rows, pages[0], now), pages[1..], now)
  }

  /** Handling page `p` and then the rest is handling pages `p` onwards. */
  lemma RunStep(rows: seq<Row>, pages: seq<seq<FeedEntry>>, p: nat, now: int)
    requires p < |pages|
    ensures var after := PageAfter(rows, pages[p], now);
      && RunRows(rows, pages[p..], now) == RunRows(after, pages[p + 1..], now)
      && RunLog(rows, pages[p..], now) == RecordsLog(Unseen(pages[p], rows)) + RunLog(after, pages[p + 1..], now)
  {
    assert pages[p..][1..] == pages[p + 1..];
  }

  /** One run: pages 1 to 49 of the feed, then `prune`. */
  method Run(ledger: Ledger, pages: seq<seq<FeedEntry>>, today: string, now: int)
    returns (log: seq<LogEntry>, deleted: nat)
    requires |pages| == FeedPages
    modifies ledger
    ensures ledger.rows == Retained(RunRows(old(ledger.rows), pages, now), now - RetentionSeconds)
    ensures log == RunLog(old(ledger.rows), pages, now)
  {
    log := [];
    var p := 0;
    while p < |pages|
      invariant 0 <= p <= |pages|
      invariant RunRows(ledger.rows, pages[p..], now) == RunRows(old(ledger.rows), pages, now)
      invariant log + RunLog(ledger.rows, pages[p..], now) == RunLog(old(ledger.rows), pages, now)
    {
      ghost var rows0, log0 := ledger.rows, log;
      RunStep(rows0, pages, p, now);
      var entries := ProcessPage(ledger, pages[p], today, now);
      log := log + entries;
      Reconcile.AppendAssoc(log0, entries, RunLog(ledger.rows, pages[p + 1..], now));
      p := p + 1;
    }
    assert pages[p..] == [];
    deleted := ledger.Prune(now);
  }

  // ---------------------------------------------------------------------
  // Properties of the loop
  // ---------------------------------------------------------------------

  /** A failed download, parse, preferred-label request or item fetch is `continue`d:
      no ledger insert and no log entry. */
  lemma FailuresLeaveNoTrace(e: FeedEntry)
    requires || !e.world.marc.Parsed?
             || (WikiIdOf(e.world).Some? && (e.world.prefLabel.None? || e.world.p244.None?))
    ensures RecordInserts(e) == 0 && RecordLog(e) == [] && !Reaches(e.world)
  {
  }

  /** A record with no Wikidata id in its MARC record is ledgered once and nothing is edited. */
  lemma NoIdLedgeredOnce(e: FeedEntry, now: int)
    requires e.world.marc.Parsed? && Marc.ScanFields(e.world.marc.fields).None?
    ensures RecordRows(e, now) == [Row(KeyOf(e.record), LccnOf(e.record), now)]
    ensures RecordLog(e) == [] && !Reaches(e.world)
  {
  }

  /** A record is finished, and ledgered at least once, exactly when no fetch failed. */
  predicate Completes(w: World) {
    w.marc.Parsed? && (WikiIdOf(w).None? || (w.prefLabel.Some? && w.p244.Some?))
  }

  lemma CompletesIffLedgered(e: FeedEntry)
    ensures Completes(e.world) <==> RecordInserts(e) >= 1
  {
    if Reaches(e.world) {
      InsertCount(e.world.p244.value, LccnOf(e.record), e.world.prefLabel.value, WikiIdOf(e.world).value);
    }
  }

  /** Every row a record adds carries that record's key and LCCN. */
  lemma RecordRowsKeyed(e: FeedEntry, now: int)
    ensures forall r | r in RecordRows(e, now) :: r.key == KeyOf(e.record) && r.lccn == LccnOf(e.record) && r.timestamp == now
  {
  }

  /** `to_check` holds exactly the page's records whose key is not yet ledgered. */
  lemma {:induction false} UnseenMembers(es: seq<FeedEntry>, rows: seq<Row>)
    ensures forall e :: e in Unseen(es, rows) <==> e in es && !HasKey(rows, KeyOf(e.record))
  {
    if es != [] {
      var init := es[..|es| - 1];
      UnseenMembers(init, rows);
      assert es == init + [es[|es| - 1]];
    }
  }

  /** Each completed record has its key among the rows its page adds. */
  lemma {:induction false} CompletedKeysAdded(es: seq<FeedEntry>, now: int, e: FeedEntry)
    requires e in es && Completes(e.world)
    ensures HasKey(RecordsRows(es, now), KeyOf(e.record))
  {
    var init, last := es[..|es| - 1], es[|es| - 1];
    var rows := RecordsRows(es, now);
    assert rows == RecordsRows(init, now) + RecordRows(last, now);
    if e == last {
      CompletesIffLedgered(e);
      assert rows[|RecordsRows(init, now)|] == RecordRows(e, now)[0];
    } else {
      assert es == init + [last];
      assert e in init;
      CompletedKeysAdded(init, now, e);
      var i :| 0 <= i < |RecordsRows(init, now)| && RecordsRows(init, now)[i].key == KeyOf(e.record);
      assert rows[i] == RecordsRows(init, now)[i];
    }
  }

  lemma HasKeyExtends(rows: seq<Row>, more: seq<Row>, key: string)
    requires HasKey(rows, key) || HasKey(more, key)
    ensures HasKey(rows + more, key)
  {
    if HasKey(rows, key) {
      var i :| 0 <= i < |rows| && rows[i].key == key;
      assert (rows + more)[i] == rows[i];
    } else {
      var i :| 0 <= i < |more| && more[i].key == key;
      assert (rows + more)[|rows| + i] == more[i];
    }
  }

  /** Idempotency: handling the same page again re-checks only the records that were not
      ledgered before and did not complete this time; every completed record is skipped. */
  lemma SecondPassRechecksOnlyFailures(page: seq<FeedEntry>, rows: seq<Row>, now: int)
    ensures forall e | e in Unseen(page, PageAfter(rows, page, now)) ::
      e in Unseen(page, rows) && !Completes(e.world)
  {
    var after := PageAfter(rows, page, now);
    var toCheck := Unseen(page, rows);
    UnseenMembers(page, rows);
    UnseenMembers(page, after);
    forall e | e in Unseen(page, after)
      ensures e in toCheck && !Completes(e.world)
    {
      var key := KeyOf(e.record);
      if HasKey(rows, key) {
        HasKeyExtends(rows, RecordsRows(toCheck, now), key);
      }
      assert e in toCheck;
      if Completes(e.world) {
        CompletedKeysAdded(toCheck, now, e);
        HasKeyExtends(rows, RecordsRows(toCheck, now), key);
      }
    }
  }

  /** After a run, no row is older than the thirty-day cutoff. */
  lemma RunLeavesFreshRows(rows: seq<Row>, pages: seq<seq<FeedEntry>>, now: int)
    ensures forall r | r in Retained(RunRows(rows, pages, now), now - RetentionSeconds) ::
      r.timestamp >= now - RetentionSeconds
  {
    RetainedMembers(RunRows(rows, pages, now), now - RetentionSeconds);
  }
}
