# LCCN Wikidata bot — a verified model

The bot walks the activity stream of the Library of Congress name authority
file (id.loc.gov). It adds or repairs the LCCN identifier (Wikidata property
P244) and its "subject named as" qualifier (P1810) on the Wikidata item that
the MARC record of each changed authority links to. A small SQLite table, the
ledger, records the feed entries already handled. Rows older than thirty days
are pruned at the end of a run.

Three helper libraries sit beside the main script:

- **Report parsers** (`src/lib/parse_reports.py`).
  - They read the raw wikitext of the P244 constraint violations report into
    sections of violation records.
  - They read the HTML table of a constraint report with an event-driven parser.
  - They classify constraint violations into the `constraint` attribute of a
    log entry.
  - They cross-reference those reports with LCCN bot entries.
- **Prompt builders** (`src/lib/llm.py`). They assemble the comparison prompts
  sent to a language model, route calls by argument shape, and combine the
  streamed answer.
- **Data-source helpers** (`src/lib/parse_data_sources.py`).
  - They accumulate the fields of an authority record.
  - They filter Wikidata references out of its citations.
  - They shape its text and JSON output.
  - They merge in the lists of works.
  - They pick the main graph, type and label of an authority's JSON.

The model is written in Dafny, one module per concern.

| file | module | what it models |
|---|---|---|
| `wrappers.dfy` | `Wrappers` | `Option` |
| `text.dfy` | `Text` | the Python string operations the core uses: `strip`, `lower`, `split`, `join`, `in`, string order, `sorted(set(…))` |
| `patterns.dfy` | `Patterns` | the fixed regular expressions of the report parser: a literal prefix, greedy character-class runs, a literal suffix; `findall` and `search` |
| `ledger.dfy` | `IdLedger` | the `ids` table as a class `Ledger` with a sequence of rows: lookup, insert, prune, the key format |
| `marc.dfy` | `Marc` | `extract_wikidata` and the scan of the MARC fields for the item id |
| `reconcile.dfy` | `Reconcile` | the P244/P1810 decision block as a class `Item` whose claims the methods change in place, specified by the functions `Reconciled` and `ReconcileEffect` |
| `bot.dfy` | `Bot` | the feed-page loop, the `to_check` loop and the final prune; the network answers for each record are inputs |
| `violations.dfy` | `Violations` | `parse_wikidata_violations` on raw content |
| `constraint_table.dfy` | `ConstraintTable` | `ConstraintTableParser` as a class over tokenizer events, row conversion, the constraint flag |
| `cross_reference.dfy` | `CrossReference` | matching and the two tallies of `cross_reference_violations_with_reports` |
| `prompts.dfy` | `Prompts` | the two prompt builders, the router and `send_prompt` |
| `lc_record.dfy` | `LcRecord` | `add_to_result` as a class `RecordFields`; citation and record-info strings; text and JSON shaping |
| `lc_data.dfy` | `LcData` | `get_lccn_label_and_type` on the fetched JSON, the `build_lc_data` merge, Q-prefixing |

## How each part is modelled

**Handling a record.** Each imperative method is proved against a function of
its inputs and old state. The properties the source promises are proved of
those functions as lemmas. For example:

- `Reconcile.ReconcileP244` changes the item's claims to
  `Reconciled(old claims, …)`.
- It appends `ReconcileEffect(…).log` to the log.
- It makes `ReconcileEffect(…).inserts` ledger inserts.
- The lemmas `NoClaimsAddsOne`, `NoMatchNeedsReview`, `NamedAsAddedOutcome`,
  `NamedAsChangeOutcome` and `OtherClaimsUntouched` state the four outcomes of
  the decision block in terms of those functions.

**The P1810 loop.** The loop iterates every qualifier of a matching claim,
whatever its property, as the source does. Every matching claim makes
its own ledger insert, so one key can be inserted more than once
(`Reconcile.InsertCount`).

**Cross-referencing.** `cross_reference_violations_with_reports` is modelled
over the input shape it expects: sections mapped to lists of dictionaries with
`item`, `lccn_ids`, `lccn_id` and `items` keys. The parser's own output is a
dictionary with the two top-level keys `metadata` and `sections`. The matcher
iterates those top-level keys, skips `metadata`, and finds no `violations` key
under `sections`. `CrossReference.ParserOutputNeverMatches` proves that, fed the
parser's report, the matcher never finds a match. The model keeps this
behaviour as written rather than guessing at a repair.

**The constraint-table parser.** Closing `tr` stores `current_row` itself, not a
copy. A later cell closed before the next `tr` is therefore also appended to
the stored row. The flag `rowStored` models this aliasing.

**Prompt wording.** The prompt builders take their fixed wording as a `Wording`
parameter. `Prompts.SourceWording` holds the source's texts. Meta-data lines
are read the same way through `Violations.MetaTemplate`, whose instance
`MetaLine` is the report's template. The parameters keep the proofs
independent of the long literals. Every lemma holds for all wordings, so in
particular for the source's texts.

## Model

| member | source | states |
|---|---|---|
| `IdLedger.Ledger.constructor` | src/script.py:52-61 | a freshly created ledger table holds no rows |
| `IdLedger.Ledger.Lookup` | src/script.py:120-124 | the lookup answers true exactly when some row carries the key |
| `IdLedger.Ledger.Insert` | src/script.py:183-186 | an insert appends one row with the key, the LCCN and the current time, and changes no other row |
| `IdLedger.Ledger.Prune` | src/script.py:72-84 | pruning keeps exactly the rows not older than `now - 2592000`, in order; its out-parameter `deleted` stands for the count of expired rows that the source's SELECT reads and prints (`prune` itself returns nothing) |
| `IdLedger.RetainedMembers` | src/script.py:72-84 | a row survives pruning iff it was in the table and its timestamp is at least the cutoff |
| `IdLedger.RetainedCount` | src/script.py:79-83 | the rows kept plus the rows reported as expired are all the rows |
| `IdLedger.RetainedAllFresh` | src/script.py:72-84 | when no row is older than the cutoff, pruning deletes nothing and reports zero |
| `IdLedger.RetainedIdempotent` | src/script.py:72-84 | pruning twice with the same cutoff is the same as pruning once |
| `IdLedger.KeyStartsWithLccn` | src/script.py:118 | the first `-`-separated field of a ledger key is the record's LCCN |
| `IdLedger.KeyDeterminesLccn` | src/script.py:118 | two records whose ledger keys are equal have the same LCCN |
| `Marc.MatchEndsInQid` | src/script.py:65-67 | the last `/`-segment of any match is `Q` followed by one or more digits |
| `Marc.ExtractedIsId` | src/script.py:64-69 | whatever `extract_wikidata` returns, when it returns a string, is an item id `Q<digits>` |
| `Marc.IdNeedsHost` | src/script.py:64-69 | `extract_wikidata` returns an id only for a text that mentions `wikidata.org/` |
| `Marc.ScanFieldsIsFirst` | src/script.py:157-173 | the field scan finds nothing iff no field yields an id; otherwise it returns the id of the first yielding field (a 024, or a 670 with `$u`, that mentions `wikidata.org` and gives an id) |
| `Marc.ScanFieldsYieldsQid` | src/script.py:157-173 | the id the field scan settles on is an item id |
| `Marc.FindWikidataId` | src/script.py:157-173 | the field loop with its `break` returns exactly the id the scan specification names |
| `Reconcile.FirstDiffering` | src/script.py:229-234 | the index found is the first qualifier, of any property, whose stripped value differs from the preferred label; none is found iff all agree |
| `Reconcile.Item.constructor` | src/script.py:202-211 | the fetched item holds the given P244 claims and no writes yet |
| `Reconcile.Item.SetQualifierValue` | src/script.py:232 | exactly the value of one qualifier of one claim changes |
| `Reconcile.Item.AddQualifier` | src/script.py:249 | one qualifier is appended to one claim; nothing else changes |
| `Reconcile.Item.AddClaim` | src/script.py:302 | one claim is appended to the item; the writes are unchanged |
| `Reconcile.Item.Write` | src/script.py:233 | one edit summary is appended to the writes; the claims are unchanged |
| `Reconcile.RenameFirstDiffering` | src/script.py:229-234 | the qualifier loop leaves the claim as `UpdateMatching` describes and writes and logs what `ClaimEffect` specifies |
| `Reconcile.HandleOurClaim` | src/script.py:219-257 | a claim that states our LCCN is updated, logged and written per `ClaimEffect`, and exactly one ledger row is inserted |
| `Reconcile.HandleClaim` | src/script.py:217-265 | one pass of the claim loop: claim `i` becomes `UpdateClaim` of it, with the log, writes and inserts of `ClaimEffect`; other claims are unchanged |
| `Reconcile.HandleClaims` | src/script.py:216-265 | every claim is handled in order; `has_lccn` is true iff some claim matches the LCCN case-insensitively |
| `Reconcile.ReconcileP244` | src/script.py:214-312 | the decision block leaves the claims as `Reconciled`, and logs, writes and inserts ledger rows as `ReconcileEffect` |
| `Reconcile.NoClaimsAddsOne` | src/script.py:278-312 | with no P244 claims, exactly one claim is added: value = LCCN, one P1810 qualifier = preferred label, stated in Q18912790; one `ADD_P244` entry, one write, one insert |
| `Reconcile.NonMatchingClaimsNoEffect` | src/script.py:260-265 | claims none of which states our LCCN produce no log entry, no write and no insert in the loop |
| `Reconcile.NoMatchNeedsReview` | src/script.py:267-275 | claims exist but none matches: no claim changes, one `NEED_REVIEW` entry, no write, one insert |
| `Reconcile.NamedAsAddedOutcome` | src/script.py:243-257 | a matching claim without P1810 gets exactly one P1810 qualifier = preferred label; `NAMED_AS_ADDED` with old `""`, one write, one insert |
| `Reconcile.NamedAsChangeOutcome` | src/script.py:223-240 | a matching claim with P1810: at most one qualifier changes, the first whose stripped value differs, logged with its old and new value; if none differs nothing is written but the key is still inserted |
| `Reconcile.OtherClaimsUntouched` | src/script.py:260-265 | claims that do not state our LCCN are never modified, and no claim is added to a non-empty list |
| `Reconcile.ClaimsEffectInserts` | src/script.py:237-257 | the claim loop inserts one ledger row per matching claim |
| `Reconcile.InsertCount` | src/script.py:214-312 | the decision block inserts the key once per matching claim, or once when no claim matches or there is none; always at least once |
| `Reconcile.ClaimsLogActions` | src/script.py:229-251 | every entry the claim loop logs is `NAMED_AS_ADDED` or `NAMED_AS_CHANGE` for this LCCN, item and preferred label, and each comes with exactly one write |
| `Reconcile.LogMatchesWrites` | src/script.py:214-312 | `ADD_P244` is logged iff the item had no P244; entries and writes agree one for one except the single unwritten `NEED_REVIEW`; every entry names this LCCN and item |
| `Bot.ProcessRecord` | src/script.py:135-312 | one record: its log entries and ledger inserts are those of `RecordLog` and `RecordRows`; the item is returned iff every fetch succeeded, with its claims reconciled |
| `Bot.SelectUnseen` | src/script.py:110-131 | `to_check` is the page's records whose key is not yet in the ledger, in page order |
| `Bot.ProcessRecords` | src/script.py:135-312 | the `to_check` loop appends the rows and log entries of each record in order |
| `Bot.ProcessPage` | src/script.py:99-312 | one feed page: the ledger and the log advance as `PageAfter` and `RecordsLog` of the unseen records |
| `Bot.Run` | src/script.py:99-321 | the whole run over the 49 feed pages followed by `prune`: the final ledger and the log are those `RunRows` and `RunLog` specify, pruned at thirty days |
| `Bot.FailuresLeaveNoTrace` | src/script.py:138-206 | a failed download, parse, preferred-label request or item fetch leaves no ledger row and no log entry |
| `Bot.NoIdLedgeredOnce` | src/script.py:181-187 | a record without a Wikidata id is ledgered exactly once and changes nothing else |
| `Bot.CompletesIffLedgered` | src/script.py:181-312 | a record is ledgered iff its handling ran to completion (no id found, or the decision block reached) |
| `Bot.RecordRowsKeyed` | src/script.py:183-186 | every row a record inserts carries its key, its LCCN and the current time |
| `Bot.UnseenMembers` | src/script.py:118-131 | a record is checked iff it is on the page and its key is not in the ledger |
| `Bot.CompletedKeysAdded` | src/script.py:135-312 | every completed record's key is in the rows the page adds |
| `Bot.SecondPassRechecksOnlyFailures` | src/script.py:120-131 | after a page, the only records of it still unseen are the ones that were unseen and did not complete |
| `Bot.RunLeavesFreshRows` | src/script.py:72-84 | after the final prune, no row is older than thirty days |
| `Patterns.GroupsAreIds` | src/lib/parse_reports.py:240-246 | `[[(Q\d+)]]` captures only item ids and `[[Property:(P\d+)]]` only property ids |
| `Patterns.SearchGroupIsProperty` | src/lib/parse_reports.py:58-67 | the group found by `#(P\d+)` or `Property:(P\d+)` is a property id |
| `Patterns.LccnUrlMatches` | src/lib/parse_reports.py:242-244 | every LCCN URL match is the authorities prefix followed by lower-case letters and digits, and its last `/`-segment is that tail |
| `Violations.SplitLines` | src/lib/parse_reports.py:200 | `splitlines` gives no lines for an empty text and lines free of line boundaries |
| `Violations.SplitLinesJoin` | src/lib/parse_reports.py:200 | for `\n`-separated text not ending in a newline, joining the lines gives the text back |
| `Violations.AssignFind` | src/lib/parse_reports.py:236 | assigning a section sets its violations and leaves every other section as it was |
| `Violations.AssignNames` | src/lib/parse_reports.py:236 | assigning keeps the dictionary's key order; a new section goes last |
| `Violations.AppendToFind` | src/lib/parse_reports.py:254 | appending a violation extends only the named section, and adds no section |
| `Violations.ParseWikidataViolations` | src/lib/parse_reports.py:195-261 | the line loop computes `ReportOf(content)`; the warning is set iff the content has fewer than 10 lines |
| `Violations.ViolationOfWellFormed` | src/lib/parse_reports.py:239-254 | a non-empty violation record lists only item ids, LCCN-shaped strings and property ids |
| `Violations.ReportWellFormed` | src/lib/parse_reports.py:216-254 | every violation the parser records names at least one id, and each id has the right shape |
| `Violations.NoHeaderNoSections` | src/lib/parse_reports.py:248 | lines seen before any section header add no section and no violation |
| `Violations.HeaderResetsSection` | src/lib/parse_reports.py:233-237 | a header line opens its section with an empty violation list, even if seen before, and leaves the others alone |
| `Violations.ViolationLineAppends` | src/lib/parse_reports.py:239-254 | a non-header line appends its record to the open section only, and only if one of its three lists is non-empty |
| `Violations.HeaderRoundTrip` | src/lib/parse_reports.py:233-235 | the header `==name==` of a stripped name reads back as that name |
| `Violations.MetadataRoundTrip` | src/lib/parse_reports.py:222-231 | the metadata line built from a date and an item count reads back as that date and count |
| `ConstraintTable.ConstraintTableParser.constructor` | src/lib/parse_reports.py:27-37 | every flag is false and every list empty |
| `ConstraintTable.ConstraintTableParser.HandleStartTag` | src/lib/parse_reports.py:39-67 | the handler performs `StartTagStep`: the first applicable branch of the table, tbody, tr, td and a cases |
| `ConstraintTable.ConstraintTableParser.HandleLink` | src/lib/parse_reports.py:53-67 | an `<a>` in a cell changes the P number and the link flag as `LinkStep` says, and nothing else |
| `ConstraintTable.ConstraintTableParser.HandleEndTag` | src/lib/parse_reports.py:69-89 | the handler performs `EndTagStep` |
| `ConstraintTable.ConstraintTableParser.CloseCell` | src/lib/parse_reports.py:79-87 | closing a cell appends it to the current row, and to the stored row it aliases |
| `ConstraintTable.ConstraintTableParser.HandleData` | src/lib/parse_reports.py:91-96 | inside a cell a non-blank stripped chunk is appended; otherwise nothing changes |
| `ConstraintTable.ConstraintTableParser.Feed` | src/lib/parse_reports.py:99-100 | feeding events runs the handlers in order |
| `ConstraintTable.ConvertRows` | src/lib/parse_reports.py:103-113 | the conversion loop returns `Converted(rows)` |
| `ConstraintTable.ParseConstraintReport` | src/lib/parse_reports.py:98-115 | the result is the conversion of the rows the parser collected from the events |
| `ConstraintTable.ConstraintFlag` | src/lib/parse_reports.py:623-632 | the flag loop returns `FlagOf` the violations |
| `ConstraintTable.StartTagInv` | src/lib/parse_reports.py:39-67 | start tags preserve the parser invariant |
| `ConstraintTable.EndTagInv` | src/lib/parse_reports.py:69-89 | end tags preserve the parser invariant |
| `ConstraintTable.DataInv` | src/lib/parse_reports.py:91-96 | text data preserves the parser invariant |
| `ConstraintTable.RunInv` | src/lib/parse_reports.py:99-100 | any event sequence preserves the parser invariant |
| `ConstraintTable.RowsHaveCells` | src/lib/parse_reports.py:75-78 | every row the parser keeps has at least one cell |
| `ConstraintTable.CellTextIsJoinedChunks` | src/lib/parse_reports.py:79-87 | a closed cell's text is its chunks joined by single spaces, already stripped, with the cell's P number |
| `ConstraintTable.NoSortableTableNoRows` | src/lib/parse_reports.py:42-49 | without a `table` whose class holds `wikitable sortable`, no row is collected |
| `ConstraintTable.NoTbodyNoRows` | src/lib/parse_reports.py:42-49 | without a `tbody` start tag, no row is collected, even inside a sortable table |
| `ConstraintTable.HashLinkSetsP` | src/lib/parse_reports.py:58-63 | a `#P…` href in a cell always sets the cell's P number to that property id |
| `ConstraintTable.PropertyLinkKeepsP` | src/lib/parse_reports.py:64-67 | a `Property:P…` href only fills an unset P number; a set one is kept |
| `ConstraintTable.ConvertedRows` | src/lib/parse_reports.py:104-113 | there is one result per row of four or more cells, and each result is cells 0–3 of such a row |
| `ConstraintTable.FlagMeaning` | src/lib/parse_reports.py:623-632 | the flag is `no` iff the list is empty, and `p244` iff some violation's `property_P_number` is `P244`; otherwise `yes` |
| `CrossReference.CheckSection` | src/lib/parse_reports.py:428-483 | the per-section checks set `lccn_found` and `qid_found` as the section's structure says |
| `CrossReference.FindHits` | src/lib/parse_reports.py:424-490 | the section loop collects the sections that flag the entry, in dictionary order, skipping `metadata` |
| `CrossReference.FindMatches` | src/lib/parse_reports.py:416-500 | the report loop keeps the entries some section flagged, in report order |
| `CrossReference.CountSections` | src/lib/parse_reports.py:512-517 | `matches_by_section` is the tally of the section names over all matches |
| `CrossReference.CountActions` | src/lib/parse_reports.py:520-524 | `matches_by_action` is the tally of the matches' actions |
| `CrossReference.CrossReferenceViolations` | src/lib/parse_reports.py:411-526 | the summary holds the report count, the matches, their number and the two tallies |
| `CrossReference.TallyCounts` | src/lib/parse_reports.py:512-524 | a tally's counts add up to the number of keys, and each key counts its occurrences |
| `CrossReference.SummaryCountsAddUp` | src/lib/parse_reports.py:503-524 | `matches_by_action` sums to `total_matches` and `matches_by_section` to the number of `found_in_sections` entries |
| `CrossReference.HitsAreFlags` | src/lib/parse_reports.py:485-490 | every section entry flags the LCCN or the item, and none is `metadata` |
| `CrossReference.MatchedIffFlagged` | src/lib/parse_reports.py:493-500 | a report entry appears among the matches iff some section flagged it |
| `CrossReference.MatchesCarryHits` | src/lib/parse_reports.py:493-500 | every match carries the non-empty list of the sections that flag it |
| `CrossReference.ParserOutputNeverMatches` | src/lib/parse_reports.py:424-426 | on the output of `parse_wikidata_violations` the matcher finds no match, whatever the bot reports |
| `CrossReference.NoHitsNoMatches` | src/lib/parse_reports.py:493-500 | when no section flags anything there are no matches |
| `Prompts.TooShortIffFewBreaks` | src/lib/llm.py:136 | a text splits into fewer than three `\n` parts iff it holds fewer than two newlines |
| `Prompts.OneToOneOutcome` | src/lib/llm.py:160-195 | the error flag is set iff either block is too short; the LCCN message overrides the Wikidata one; the prompt is the LCCN segment alone on error, else preamble, source and LCCN segment |
| `Prompts.FirstShort` | src/lib/llm.py:141-148 | the index returned is the first LCCN whose block is too short; none iff all are long enough |
| `Prompts.BuildOneToMany` | src/lib/llm.py:121-157 | the builder loop returns `OneToMany`, the prompt specification |
| `Prompts.ShortLccnStops` | src/lib/llm.py:141-148 | any too-short LCCN block leaves an error with the LCCN message and an empty prompt |
| `Prompts.SegmentsInOrder` | src/lib/llm.py:141-150 | the LCCN segments are laid out in input order |
| `Prompts.SchemaFor` | src/lib/llm.py:59-91 | both keys are required, and `match` is BOOLEAN iff `match_is_boolean`, else STRING |
| `Prompts.StreamTextAppend` | src/lib/llm.py:99-108 | the streamed text of two runs of chunks is the text of each in turn |
| `Prompts.BlankChunksVanish` | src/lib/llm.py:107-108 | chunks that are missing or blank after stripping contribute nothing |
| `Prompts.SendPrompt` | src/lib/llm.py:56-118 | the schema is `SchemaFor`, and the answer is the parsed concatenation of non-blank chunks, or the parse-failure error |
| `Prompts.OneToOneRoute` | src/lib/llm.py:200-218 | two strings and two singleton lists route alike: the boolean schema when both blocks are long enough, the builder's error message otherwise |
| `Prompts.OneToManyRoute` | src/lib/llm.py:220-222 | one item and several LCCNs are sent with the string schema, whatever the error flag |
| `Prompts.OtherShapesReturnNone` | src/lib/llm.py:197-225 | every other shape of arguments returns `None` |
| `LcRecord.AddStepWellKeyed` | src/lib/parse_data_sources.py:123-130 | one `add_to_result` keeps every key listed once |
| `LcRecord.AccumulateFacts` | src/lib/parse_data_sources.py:123-130 | a run of calls appends each key's truthy values in call order, and a key is present iff it was or got a truthy value |
| `LcRecord.FalsyIgnored` | src/lib/parse_data_sources.py:124 | an empty string or list changes nothing |
| `LcRecord.CitationHasNoQid` | src/lib/parse_data_sources.py:332-353 | no part of a citation's `Source` text is a Q-id |
| `LcRecord.CitationHasNoWikidataLink` | src/lib/parse_data_sources.py:335-353 | no part but the status mentions `wikidata.org` |
| `LcRecord.CitationKeepsOthers` | src/lib/parse_data_sources.py:335-353 | source text, resource URL and note that are not Wikidata references are kept |
| `LcRecord.BlankSourceDropped` | src/lib/parse_data_sources.py:335-356 | a citation whose only part is blank source text joins to `""` and adds no `Source` |
| `LcRecord.Take` | src/lib/parse_data_sources.py:431 | `text[:10]` is the prefix of length at most 10 |
| `LcRecord.RecordInfoShape` | src/lib/parse_data_sources.py:421-442 | Record Info exists iff one of its four parts exists; it starts with Status or else Date, the date cut to 10 characters |
| `LcRecord.CitationAddsAreSources` | src/lib/parse_data_sources.py:327-356 | citations only add scalar `Source` values, at most one each |
| `LcRecord.KeyLines` | src/lib/parse_data_sources.py:446-451 | one `key: value` line per value, in order |
| `LcRecord.DropMarcKeys` | src/lib/parse_data_sources.py:464 | the lines kept are exactly those not containing `MARC Key` |
| `LcRecord.ShapeTextLines` | src/lib/parse_data_sources.py:463-466 | the final text's lines are sorted, distinct, free of `MARC Key`, and are exactly the remaining lines |
| `LcRecord.JsonOf` | src/lib/parse_data_sources.py:455-461 | one JSON key per field key in order; a single value maps to itself, other value lists stay lists |
| `LcRecord.RecordFields.constructor` | src/lib/parse_data_sources.py:120 | the result dictionary starts empty |
| `LcRecord.RecordFields.Add` | src/lib/parse_data_sources.py:123-130 | the call performs `AddStep` on the dictionary |
| `LcRecord.RecordFields.AddCitations` | src/lib/parse_data_sources.py:327-356 | the citation loop adds the `Source` entries `CitationAdds` lists |
| `LcRecord.RecordFields.AddRecordInfos` | src/lib/parse_data_sources.py:421-442 | the record-info loop adds the `Record Info` entries `RecordInfoAdds` lists |
| `LcRecord.RecordFields.TextFormat` | src/lib/parse_data_sources.py:444-453 | the text is the `key: value` lines of every key in insertion order, joined by `\n` |
| `LcRecord.RecordFields.Output` | src/lib/parse_data_sources.py:444-468 | the returned text is the shaped text and the JSON is `JsonOf` the fields |
| `LcData.FindMainGraph` | src/lib/parse_data_sources.py:895-903 | the graph search returns the first item whose `@id` contains the authorities prefix and ends with the LCCN, or none iff there is none |
| `LcData.MainGraph` | src/lib/parse_data_sources.py:895-903 | the same first main record, as a value |
| `LcData.MadsTypes` | src/lib/parse_data_sources.py:914 | the MADS types are exactly the types in the MADS namespace |
| `LcData.FirstTypeName` | src/lib/parse_data_sources.py:915-920 | the type is the text after `#` of the first MADS type not ending in `#Authority`; none iff every one does |
| `LcData.TypeValue` | src/lib/parse_data_sources.py:910-920 | the type loop yields `FirstTypeName` of the MADS types, or none without `@type` |
| `LcData.OrDefault` | src/lib/parse_data_sources.py:933-936 | a missing or empty value falls back to the default |
| `LcData.LabelAndTypeFor` | src/lib/parse_data_sources.py:895-936 | the function returns `LabelAndTypeOf` the JSON graph |
| `LcData.MainGraphUnique` | src/lib/parse_data_sources.py:895-903 | the main record is determined by being a main record with none before it |
| `LcData.TypeNameNotAuthority` | src/lib/parse_data_sources.py:915-920 | the type read is never `Authority` |
| `LcData.LabelAndTypeMeaning` | src/lib/parse_data_sources.py:905-936 | none iff no main record; otherwise the type and label are never empty and the type is never `Authority`; the label is `No label found` iff it is missing, empty or that text |
| `LcData.DefaultedLabel` | src/lib/parse_data_sources.py:935 | the label falls back to `No label found` exactly when missing, empty or already that text |
| `LcData.SetKey` | src/lib/parse_data_sources.py:857-858 | the key is bound to the value, and every other binding is kept |
| `LcData.BuildLcData` | src/lib/parse_data_sources.py:839-869 | the merge loops compute `MergedOf` the record and the work lists |
| `LcData.WithLinesSplit` | src/lib/parse_data_sources.py:860-864 | appending `"\n" + tag + x` for each `x` adds exactly those lines |
| `LcData.MergedLines` | src/lib/parse_data_sources.py:849-864 | the work lists are sorted and deduplicated; the text gains one `Contributor to:` line per distinct work, then `Subject of:` lines; both lists are in the JSON |
| `LcData.EnsureQ` | src/lib/parse_data_sources.py:963-964 | the result starts with `Q`; a `Q` is prefixed only when missing |
| `LcData.EnsureQIdempotent` | src/lib/parse_data_sources.py:963-964 | prefixing twice is prefixing once, and a bare number becomes an item id |
| `Text.Strip` | src/lib/parse_reports.py:217 | the stripped text has no whitespace at either end |
| `Text.StripIsMiddle` | src/lib/parse_reports.py:217 | `strip()` removes only leading and trailing whitespace |
| `Text.StripOfStripped` | src/lib/parse_reports.py:235 | stripping a stripped text changes nothing |
| `Text.StripEmptyIffBlank` | src/lib/parse_reports.py:217-219 | `strip()` gives `""` iff the text is all whitespace |
| `Text.TrimLeftFacts` | src/lib/parse_reports.py:94 | the left trim removes exactly the leading whitespace |
| `Text.TrimRightFacts` | src/lib/parse_reports.py:94 | the right trim removes exactly the trailing whitespace |
| `Text.SplitCount` | src/lib/llm.py:136 | `split` gives one more piece than there are separators |
| `Text.SplitPiecesAvoidSeparator` | src/lib/parse_data_sources.py:464 | no piece of a split holds the separator |
| `Text.SplitWithoutSeparator` | src/lib/parse_data_sources.py:464 | a text without the separator splits into itself |
| `Text.SplitAppend` | src/lib/parse_data_sources.py:861 | splitting a concatenation glues the last piece of the first text to the first piece of the second |
| `Text.LastSegmentAfterSeparator` | src/lib/parse_reports.py:244 | the last segment after a trailing separator is the separator-free rest |
| `Text.JoinSplit` | src/lib/parse_data_sources.py:464 | joining the pieces of a split gives back the text |
| `Text.SplitJoin` | src/lib/parse_data_sources.py:466 | splitting the join of separator-free pieces gives back the pieces |
| `Text.JoinOfStrippedChunks` | src/lib/parse_reports.py:82 | joining non-empty stripped chunks with spaces gives a stripped text |
| `Text.SortedIsDistinct` | src/lib/parse_data_sources.py:466 | a strictly sorted list has no duplicates |
| `Text.InsertSorted` | src/lib/parse_data_sources.py:466 | inserting into a strictly sorted list keeps it sorted and adds exactly the element |
| `Text.SortedUnique` | src/lib/parse_data_sources.py:466 | `sorted(set(xs))` is strictly sorted and holds exactly the elements of `xs` |

## Left out

- Network, service and database I/O becomes inputs.
  - This covers the feed pages, the MARC download, the preferred-label HEAD request, `wbi.item.get` and `write`, the SQL connection, and the model stream.
  - Each per-record fetch that the script guards (src/script.py:138-206: the MARC download, the preferred label, `wbi.item.get`) is an `Option` or a failure constructor of the input.
- The feed page fetch and decode (src/script.py:105-106) and `wiki_item.write` (src/script.py:233, 250, 304) are not guarded in the source. A failure there aborts the whole run: rows already inserted stay, later records are never handled, and the final `prune(db)` (src/script.py:321) never runs. The model assumes these calls succeed: `Bot.Run` takes every page as a list of entries, always ends with the prune, and `Reconcile.Item.Write` always succeeds.
- The URL branches of `parse_wikidata_violations` and `parse_loc_xml`, `fetch_wikidata_with_login`, `fetch_lccn_bot_reports` and `constraint_violations` are network code; the report content is an input.
- `constraint_violations` returning `False` after a login or permission error is not modelled. The flag rule is modelled over the violation list it returns otherwise.
- The time is one parameter `now` per run, in place of `int(time.time())` at each insert. The claim's retrieval date is a parameter `today`.
- Python string operations are modelled on fixed character sets:
  - `strip` removes the six characters of `string.whitespace` (space, `\t`, `\n`, `\r`, `\x0b`, `\x0c`) only. Python's `str.strip()` also removes `\x1c`–`\x1f`, `\x85` and the other Unicode spaces; the model does not. `lower` folds A–Z only. `isdigit` accepts 0–9 only.
  - `splitlines` splits on Python's full line-boundary set: `\n`, `\r`, `\r\n` as one break, `\x0b`, `\x0c`, `\x1c`–`\x1e`, `\x85`, `\u2028` and `\u2029`.
  - `sorted` compares strings by code point.
- Regular expressions are modelled as the fixed shapes the core uses: a literal prefix, greedy runs of `[a-z]` or `[0-9]`, and a literal suffix, plus a hand model of `wikidata\.org/.*/Q[0-9]+`. No general regex engine is modelled. `\d` is modelled as `[0-9]`: in a Python 3 `str` pattern it matches every Unicode decimal digit (src/lib/parse_reports.py:61, 65, 211, 213, 223), and `int()` accepts those digits too.
- `datetime.fromisoformat(...).date()` in the metadata line (src/lib/parse_reports.py:229) is not modelled; the raw date text is kept. On a date text that is not ISO 8601 the source raises `ValueError` and `parse_wikidata_violations` ends without a result. The model accepts any date text and carries on.
- `unquote` of the `X-PrefLabel-Encoded` header is not modelled; the decoded label is an input.
- The HTML tokenizer is not modelled: the parser consumes `StartTag`/`EndTag`/`Data` events, with the `class` and `href` attributes given as options. A valueless attribute (`<table class>`, `<a href>`) is modelled the same as a missing one. In the source it reaches `attrs_dict` as `None`, so `'wikitable sortable' in None` (src/lib/parse_reports.py:42) or `'#P' in None` (src/lib/parse_reports.py:58) raises `TypeError` and ends the parse. The model skips the attribute and goes on.
- `HTMLParser`-, `ElementTree`- and `pymarc`-level parsing is not modelled. A MARC field is its `str(field)` text and whether it has `$u`.
- The XML walk of `parse_loc_xml` is abstracted. Its output is a run of (key, value) calls to `add_to_result`. Only citations and record information are modelled in detail, because only they carry filtering and assembly logic. The other fields enter as plain values.
- `get_loc_preflabel`, `return_wikidata`, `get_wikidata_labels_aliases_descriptions` and the pagination of `get_loc_subject_of_works` and `get_loc_contributor_to_works` are network code. Their results are inputs: the text blocks and the work lists.
- `query_wikidata_for_label_and_instanceOf` is modelled only as far as its Q-prefixing. Its SPARQL result mapping is network-bound.
- `process_lccn_bot_xml` itself (the XML rewrite and the auto-eval request) is left out. Its constraint flag is modelled as `ConstraintTable.ConstraintFlag`.
- `convert_point_to_degree_string` is left out (floating point), and so is `translate_dict` (a pure model call).
- The print statements, the test drivers and the placeholder stubs returning constants are left out.
- `src/test.py` is not part of this model; it duplicates the main script.
- Qualifier and reference values are strings. Wikibase data types are not modelled.
- `IdLedger.Ledger.Lookup`: the source builds the lookup query by interpolating the key into the SQL text (src/script.py:120). A key holding `'` makes `execute` raise, unguarded, which ends the run before the prune; a crafted key could also match other rows. The model compares keys exactly and does not capture either effect.
- `Reconcile.FirstDiffering` and `Reconcile.RenameFirstDiffering`: every qualifier value is a string, so the model cannot express a qualifier of another property whose value is not a string (a time, an item) or has no value (somevalue/novalue). In the source, `q.datavalue['value'].strip()` (src/script.py:230) raises on such a qualifier, and `.lower()` (src/script.py:219) raises on a P244 claim without a string value. Either aborts the run as above: no insert for this record, no later record, no prune.
- `Bot.Run`: its precondition fixes the number of feed pages to the 49 the script requests (`range(1, 50)`). Fewer pages are not modelled.
- The builders' fixed texts enter as a `Wording` parameter and the metadata template as a `MetaTemplate` parameter. `Prompts.SourceWording` and `Violations.MetaLine` are the source's texts.
