/**
 * The model-assisted match check: building the comparison prompt from the
 * Wikidata and id.loc.gov text blocks, routing on the shape of the arguments,
 * and assembling the model's streamed answer.
 *
 * The text blocks (`return_wikidata(qid)['prompt']` and `build_lc_data(lccn)[0]`)
 * are given as functions of the id; the streamed chunks and `json.loads` are
 * inputs too.
 */
module Prompts {
  import opened Text
  import opened Wrappers

  /** The fixed texts of the two prompts and their error messages. The builders take them as
      their first argument, so that their proofs hold whatever the wording; `SourceWording` is the
      wording the program uses. */
  datatype Wording = Wording(
    oneToOnePreamble: string,
    oneToManyPreamble: string,
    oneToOneLead: string,
    oneToManyLead: string,
    lccnLead: string,
    wikiMessage: string,
    lccnMessage: string)

  const SourceWording := Wording(
    "You are a helpful assistant comparing entities between two systems. You will be given an entity and data about it along with a possible matche from another database.  You are trying to identifiy if the entity is a good match. Reply in JSON Object with two keys, \"match\" that is a true or false boolean value if the two entities are a good match and \"reason\" a short one sentence explanation for your reasoning why they are or are not a good match.",
    "You are a helpful assistant comparing entities between multiple sources. You will be given an entity and data about it along with multiple possible matches from another database.  You are trying to identifiy which entitiy is the best match. Reply in JSON Object with two keys, \"match\" that is the LCCN identfier for the correct match and \"reason\" a short one sentence explanation for your reasoning. If all the options do not appear correct set match to \"None\".",
    "\n\nThis is the source entitiy and it's data you are comparing: \n ",
    "\n\nThis is the source entitiy and it's data you are trying to find the best match for: \n ",
    "\n-------------------------------\nThis is a possible match LCCN: ",
    "Not enough information in Wikidata prompt",
    "Not enough information in LCCN prompt")

  /** The builders' result dictionary. */
  datatype PromptBuild = PromptBuild(error: bool, errorMessage: string, prompt: string)

  /** `len(text.split("\n")) < 3` */
  predicate TooShort(text: string) {
    |SplitOn(text, '\n')| < 3
  }

  /** Too short means fewer than two line breaks. */
  lemma TooShortIffFewBreaks(text: string)
    ensures TooShort(text) <==> Count(text, '\n') < 2
  {
    SplitCount(text, '\n');
  }

  function OneToOneSource(w: Wording, qid: string, wiki: string): string {
    w.oneToOneLead + qid + " \n " + wiki + " \n"
  }

  function OneToManySource(w: Wording, qid: string, wiki: string): string {
    w.oneToManyLead + qid + " \n " + wiki + " \n"
  }

  function LccnSegment(w: Wording, lccn: string, text: string): string {
    w.lccnLead + lccn + " \n " + text + " \n"
  }

  /** `build_prompt_one_to_one`, step by step: the Wikidata check clears the prompt, and the
      LCCN check clears it again, before the LCCN segment is appended in every case. */
  function OneToOne(w: Wording, qid: string, lccn: string, wiki: string, lc: string): PromptBuild {
    var afterWiki :=
      if TooShort(wiki) then PromptBuild(true, w.wikiMessage, "")
      else PromptBuild(false, "", w.oneToOnePreamble + OneToOneSource(w, qid, wiki));
    var afterLccn := if TooShort(lc) then PromptBuild(true, w.lccnMessage, "") else afterWiki;
    afterLccn.(prompt := afterLccn.prompt + LccnSegment(w, lccn, lc))
  }

  /** The error flag is set iff either block has fewer than two line breaks; the LCCN message
      wins over the Wikidata one; on error the prompt is the LCCN segment alone, otherwise
      preamble, source segment and LCCN segment. */
  lemma OneToOneOutcome(w: Wording, qid: string, lccn: string, wiki: string, lc: string)
    ensures var b := OneToOne(w, qid, lccn, wiki, lc);
      && (b.error <==> Count(wiki, '\n') < 2 || Count(lc, '\n') < 2)
      && b.errorMessage == (if Count(lc, '\n') < 2 then w.lccnMessage else if Count(wiki, '\n') < 2 then w.wikiMessage else "")
      && b.prompt == (if b.error then "" else w.oneToOnePreamble + OneToOneSource(w, qid, wiki)) + LccnSegment(w, lccn, lc)
  {
    TooShortIffFewBreaks(wiki);
    TooShortIffFewBreaks(lc);
  }

  /** The index of the first LCCN whose text block is too short. */
  function FirstShort(lccns: seq<string>, lcText: string -> string): (r: Option<nat>)
    ensures r.Some? ==> (r.value < |lccns| && TooShort(lcText(lccns[r.value]))
      && forall j | 0 <= j < r.value :: !TooShort(lcText(lccns[j])))
    ensures r.None? ==> forall j | 0 <= j < |lccns| :: !TooShort(lcText(lccns[j]))
  {
    if lccns == [] then None
    else if TooShort(lcText(lccns[0])) then Some(0)
    else
      match FirstShort(lccns[1..], lcText)
      case None => None
      case Some(k) => Some(k + 1)
  }

  /** The LCCN segments, in input order. */
  function Segments(w: Wording, lccns: seq<string>, lcText: string -> string): string {
    if lccns == [] then "" else Segments(w, lccns[..|lccns| - 1], lcText) + LccnSegment(w, lccns[|lccns| - 1], lcText(lccns[|lccns| - 1]))
  }

  /** What `build_prompt_single_wiki_to_lccns` returns: a too-short LCCN block ends the loop
      with an empty prompt and the LCCN message; otherwise the segments of all LCCNs follow
      the preamble and source segment, or follow nothing when the Wikidata block is short. */
  function OneToMany(w: Wording, qid: string, lccns: seq<string>, wiki: string, lcText: string -> string): PromptBuild {
    if FirstShort(lccns, lcText).Some? then PromptBuild(true, w.lccnMessage, "")
    else if TooShort(wiki) then PromptBuild(true, w.wikiMessage, Segments(w, lccns, lcText))
    else PromptBuild(false, "", w.oneToManyPreamble + OneToManySource(w, qid, wiki) + Segments(w, lccns, lcText))
  }

  method BuildOneToMany(w: Wording, qid: string, lccns: seq<string>, wiki: string, lcText: string -> string)
    returns (b: PromptBuild)
    ensures b == OneToMany(w, qid, lccns, wiki, lcText)
  {
    var error := false;
    var errorMessage := "";
    var prompt := w.oneToManyPreamble;
    prompt := prompt + OneToManySource(w, qid, wiki);
    if TooShort(wiki) {
      error := true;
      prompt := "";
      errorMessage := w.wikiMessage;
    }
    ghost var base := prompt;
    var i := 0;
    while i < |lccns|
      invariant 0 <= i <= |lccns|
      invariant forall j | 0 <= j < i :: !TooShort(lcText(lccns[j]))
      invariant prompt == base + Segments(w, lccns[..i], lcText)
      invariant error == TooShort(wiki) && errorMessage == (if TooShort(wiki) then w.wikiMessage else "")
    {
      var lccn := lccns[i];
      var lc := lcText(lccn);
      if TooShort(lc) {
        error := true;
        prompt := "";
        errorMessage := w.lccnMessage;
        // the loop's `break` leads straight to the return
        b := PromptBuild(error, errorMessage, prompt);
        assert FirstShort(lccns, lcText).Some?;
        return;
      }
      SegmentsSnoc(w, lccns, i, lcText);
      AppendAssoc(base, Segments(w, lccns[..i], lcText), LccnSegment(w, lccn, lc));
      prompt := prompt + LccnSegment(w, lccn, lc);
      i := i + 1;
    }
    assert lccns[..i] == lccns;
    assert FirstShort(lccns, lcText).None?;
    b := PromptBuild(error, errorMessage, prompt);
  }

  lemma AppendAssoc(a: string, b: string, c: string)
    ensures (a + b) + c == a + (b + c)
  {
  }

  lemma SegmentsSnoc(w: Wording, lccns: seq<string>, i: nat, lcText: string -> string)
    requires i < |lccns|
    ensures Segments(w, lccns[..i + 1], lcText) == Segments(w, lccns[..i], lcText) + LccnSegment(w, lccns[i], lcText(lccns[i]))
  {
    assert lccns[..i + 1][..i] == lccns[..i];
  }

  /** No segment after the first too-short one: the result then carries no LCCN text at all,
      and the message is the LCCN one whatever the Wikidata block was. */
  lemma ShortLccnStops(w: Wording, qid: string, lccns: seq<string>, wiki: string, lcText: string -> string, k: nat)
    requires k < |lccns| && TooShort(lcText(lccns[k]))
    ensures OneToMany(w, qid, lccns, wiki, lcText) == PromptBuild(true, w.lccnMessage, "")
  {
  }

  /** With every block long enough, the prompt is the preamble, the source segment and one
      segment per LCCN, in input order. */
  lemma {:induction false} SegmentsInOrder(w: Wording, lccns: seq<string>, lcText: string -> string, k: nat)
    requires k <= |lccns|
    ensures Segments(w, lccns, lcText) == Segments(w, lccns[..k], lcText) + Segments(w, lccns[k..], lcText)
    decreases |lccns|
  {
    if k < |lccns| {
      var init := lccns[..|lccns| - 1];
      SegmentsInOrder(w, init, lcText, k);
      assert init[..k] == lccns[..k];
      assert lccns[k..][..|lccns[k..]| - 1] == init[k..];
    } else {
      assert lccns[..k] == lccns;
    }
  }

  // ---------------------------------------------------------------------
  // send_prompt
  // ---------------------------------------------------------------------

  datatype MatchType = BooleanMatch | StringMatch

  /** The response schema: an object with `match` and `reason`, both required. */
  datatype Schema = Schema(required: seq<string>, matchType: MatchType)

  function SchemaFor(matchIsBoolean: bool): (s: Schema)
    ensures s.required == ["match", "reason"]
    ensures s.matchType == BooleanMatch <==> matchIsBoolean
  {
    Schema(["match", "reason"], if matchIsBoolean then BooleanMatch else StringMatch)
  }

  /** A streamed chunk: `None` for a missing chunk or one without text. */
  type Chunk = Option<string>

  /** What one chunk adds: its text, unless it is missing or blank. */
  function ChunkText(c: Chunk): string {
    if c.Some? && Strip(c.value) != "" then c.value else ""
  }

  /** `response_text`: the chunks whose stripped text is not empty, appended as they came. */
  function StreamText(chunks: seq<Chunk>): string {
    if chunks == [] then ""
    else StreamText(chunks[..|chunks| - 1]) + ChunkText(chunks[|chunks| - 1])
  }

  /** The streamed text of two runs of chunks is the text of each, one after the other. */
  lemma {:induction false} StreamTextAppend(a: seq<Chunk>, b: seq<Chunk>)
    ensures StreamText(a + b) == StreamText(a) + StreamText(b)
    decreases |b|
  {
    if b == [] {
      assert a + b == a;
    } else {
      var b0, c := b[..|b| - 1], b[|b| - 1];
      StreamTextAppend(a, b0);
      assert (a + b)[..|a + b| - 1] == a + b0;
      assert (a + b)[|a + b| - 1] == c;
      AppendAssoc(StreamText(a), StreamText(b0), ChunkText(c));
    }
  }

  /** Blank and missing chunks contribute nothing. */
  lemma {:induction false} BlankChunksVanish(chunks: seq<Chunk>)
    requires forall k | 0 <= k < |chunks| :: chunks[k].None? || Strip(chunks[k].value) == ""
    ensures StreamText(chunks) == ""
  {
    if chunks != [] {
      BlankChunksVanish(chunks[..|chunks| - 1]);
    }
  }

  /** The answer: the parsed JSON, or `{"error": "Failed to parse response as JSON"}`. */
  datatype Response<J> = Parsed(value: J) | ParseError(error: string)

  const ParseFailure := "Failed to parse response as JSON"

  /** `send_prompt`: the schema sent with the prompt, and the parsed answer. */
  method SendPrompt<J>(matchIsBoolean: bool, chunks: seq<Chunk>, parse: string -> Option<J>)
    returns (schema: Schema, response: Response<J>)
    ensures schema == SchemaFor(matchIsBoolean)
    ensures parse(StreamText(chunks)).Some? ==> response == Parsed(parse(StreamText(chunks)).value)
    ensures parse(StreamText(chunks)).None? ==> response == ParseError(ParseFailure)
  {
    schema := Schema(["match", "reason"], StringMatch);
    if matchIsBoolean {
      schema := Schema(["match", "reason"], BooleanMatch);
    }
    var text := "";
    for i := 0 to |chunks|
      invariant text == StreamText(chunks[..i])
    {
      assert chunks[..i + 1][..i] == chunks[..i];
      var chunk := chunks[i];
      if chunk.Some? && Strip(chunk.value) != "" {
        text := text + chunk.value;
      }
      assert text == StreamText(chunks[..i]) + ChunkText(chunk);
    }
    assert chunks[..|chunks|] == chunks;
    var parsed := parse(text);
    if parsed.Some? {
      response := Parsed(parsed.value);
    } else {
      response := ParseError(ParseFailure);
    }
  }

  // ---------------------------------------------------------------------
  // auto_route_prompt
  // ---------------------------------------------------------------------

  /** An argument: a string, a list of strings, or something else. */
  datatype Arg = Str(s: string) | List(items: seq<string>) | OtherArg

  /** What `auto_route_prompt` does: send a prompt with the boolean schema, send the whole
      one-to-many build with the string schema, return an error object, or return `None`. */
  datatype Route =
    | SendBoolean(prompt: string)
    | SendString(build: PromptBuild)
    | ReturnError(message: string)
    | ReturnNone

  function RouteOneToOne(b: PromptBuild): Route {
    if b.error != true then SendBoolean(b.prompt) else ReturnError(b.errorMessage)
  }

  function AutoRoute(w: Wording, qids: Arg, lccns: Arg, wikiText: string -> string, lcText: string -> string): Route {
    if qids.Str? && lccns.Str? then
      RouteOneToOne(OneToOne(w, qids.s, lccns.s, wikiText(qids.s), lcText(lccns.s)))
    else if qids.List? && lccns.List? then
      if |qids.items| == 1 && |lccns.items| == 1 then
        var q, l := qids.items[0], lccns.items[0];
        RouteOneToOne(OneToOne(w, q, l, wikiText(q), lcText(l)))
      else if |qids.items| == 1 && |lccns.items| > 1 then
        var q := qids.items[0];
        SendString(OneToMany(w, q, lccns.items, wikiText(q), lcText))
      else ReturnNone
    else ReturnNone
  }

  /** Two strings and two one-element lists are the same one-to-one check: the boolean schema
      when both blocks are long enough, otherwise an error object and no model call. */
  lemma OneToOneRoute(w: Wording, q: string, l: string, wikiText: string -> string, lcText: string -> string)
    ensures AutoRoute(w, Str(q), Str(l), wikiText, lcText) == AutoRoute(w, List([q]), List([l]), wikiText, lcText)
    ensures var r := AutoRoute(w, Str(q), Str(l), wikiText, lcText);
      var short := Count(wikiText(q), '\n') < 2 || Count(lcText(l), '\n') < 2;
      && (r.SendBoolean? <==> !short)
      && (r.ReturnError? <==> short)
      && (r.ReturnError? ==> r.message == w.lccnMessage || r.message == w.wikiMessage)
  {
    OneToOneOutcome(w, q, l, wikiText(q), lcText(l));
  }

  /** One item and several LCCNs always reach the model with the string schema, even when
      the build reports an error. */
  lemma OneToManyRoute(w: Wording, q: string, ls: seq<string>, wikiText: string -> string, lcText: string -> string)
    requires |ls| > 1
    ensures AutoRoute(w, List([q]), List(ls), wikiText, lcText) == SendString(OneToMany(w, q, ls, wikiText(q), lcText))
  {
  }

  /** Every other shape of arguments returns `None`. */
  lemma OtherShapesReturnNone(w: Wording, qids: Arg, lccns: Arg, wikiText: string -> string, lcText: string -> string)
    requires !(qids.Str? && lccns.Str?)
    requires !(qids.List? && lccns.List? && |qids.items| == 1 && |lccns.items| >= 1)
    ensures AutoRoute(w, qids, lccns, wikiText, lcText) == ReturnNone
  {
  }
}
