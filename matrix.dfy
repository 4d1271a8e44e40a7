/**
 * The Matrix bot (arxiv_matrix_bot.py): one `fetch_and_send` pass over the configured queries,
 * with the in-memory `sent_ids` set as its only delivery record, and the plain-text message body.
 */
module Matrix {
  import opened Wrappers
  import opened Strings
  import opened Store
  import opened Client
  import opened Delivery

  /** `query_cfg.get("max_results", 5)` */
  const DefaultQueryMax: int := 5

  /** The result cap a configured query asks for; a missing key gives 5. */
  function QueryMax(q: SearchQuery): int {
    if q.maxResults.Some? then q.maxResults.value else DefaultQueryMax
  }

  /** `getattr(paper, "tags", None)` is truthy. */
  predicate TagsShown(p: PaperEntry) { p.tags.Some? && p.tags.value != [] }

  /** `getattr(paper, "description", None)` is truthy. */
  predicate SummaryShown(p: PaperEntry) { p.description.Some? && p.description.value != "" }

  const Ar5ivBase: string := "https://ar5iv.labs.arxiv.org/html/"

  /** The lines `build_message` collects for a paper. */
  function MessageLines(p: PaperEntry): seq<string> {
    HeadLines(p) + TagLines(p) + SummaryLines(p) + TailLines(p)
  }

  function TagLines(p: PaperEntry): seq<string> {
    if TagsShown(p) then ["Tags: " + Join(p.tags.value, ", ")] else []
  }

  function SummaryLines(p: PaperEntry): seq<string> {
    if SummaryShown(p) then ["Summary: **" + p.description.value + "**"] else []
  }

  /** The plain-text body of the message: the lines joined by newlines. */
  function PlainMessage(p: PaperEntry): string {
    Join(MessageLines(p), "\n")
  }

  /** No line of `lines` starts with `prefix` when none starts with its first character. */
  lemma NoLineStarts(lines: seq<string>, prefix: string)
    requires |prefix| > 0 && forall i | 0 <= i < |lines| :: |lines[i]| > 0 && lines[i][0] != prefix[0]
    ensures !exists i | 0 <= i < |lines| :: prefix <= lines[i]
  {
  }

  /** The fixed first three and last three lines. */
  function HeadLines(p: PaperEntry): seq<string> {
    ["**" + p.title + "**", "Authors: " + Join(p.authors, ", "), "Published: **" + p.published + "**"]
  }

  function TailLines(p: PaperEntry): seq<string> {
    ["Comment: " + p.comment, "Categories: " + Join(p.categories, ", "),
     "Continue: [Links](" + p.link + ") | [PDF](" + p.pdfLink + ") | [Ar5iv](" + Ar5ivBase + p.arxivId + ")"]
  }

  /** The fixed lines: title, authors and publication first; comment, categories and links last. */
  lemma MessageLinesLayout(p: PaperEntry)
    ensures var lines := MessageLines(p);
      var t := if TagsShown(p) then 1 else 0;
      var d := if SummaryShown(p) then 1 else 0;
      && |lines| == 6 + t + d
      && lines[..3] == HeadLines(p) && lines[3 + t + d..] == TailLines(p)
      && lines[3..3 + t] == TagLines(p) && lines[3 + t..3 + t + d] == SummaryLines(p)
  {
    var lines := MessageLines(p);
    var t := |TagLines(p)|;
    var d := |SummaryLines(p)|;
    assert lines[..3] == HeadLines(p);
    assert lines[3..3 + t] == TagLines(p);
    assert lines[3 + t..3 + t + d] == SummaryLines(p);
    assert lines[3 + t + d..] == TailLines(p);
  }

  /** No fixed line starts with 'T' or 'S'. */
  lemma FixedLineInitials(p: PaperEntry)
    ensures forall l | l in HeadLines(p) + TailLines(p) :: |l| > 0 && l[0] != 'T' && l[0] != 'S'
  {
    var fixed := HeadLines(p) + TailLines(p);
    assert forall i | 0 <= i < 6 :: fixed[i][0] in "*APCCC";
  }

  /** The first three and the last three lines start with neither 'T' nor 'S'. */
  lemma OuterLineInitials(p: PaperEntry)
    ensures var lines := MessageLines(p);
      forall i | 0 <= i < |lines| && (i < 3 || i >= |lines| - 3) :: |lines[i]| > 0 && lines[i][0] != 'T' && lines[i][0] != 'S'
  {
    var lines := MessageLines(p);
    MessageLinesLayout(p);
    FixedLineInitials(p);
    forall i | 0 <= i < |lines| && (i < 3 || i >= |lines| - 3)
      ensures |lines[i]| > 0 && lines[i][0] != 'T' && lines[i][0] != 'S'
    {
      if i < 3 {
        assert lines[i] == lines[..3][i];
      } else {
        assert lines[i] == lines[|lines| - 3..][i - (|lines| - 3)];
      }
      assert lines[i] in HeadLines(p) + TailLines(p);
    }
  }

  /** A line starts with "Tags: " exactly when the paper has tags, and then it is the fourth line. */
  lemma TagsLine(p: PaperEntry)
    ensures var lines := MessageLines(p);
      && ((exists i | 0 <= i < |lines| :: "Tags: " <= lines[i]) <==> TagsShown(p))
      && (TagsShown(p) ==> lines[3] == "Tags: " + Join(p.tags.value, ", "))
  {
    var lines := MessageLines(p);
    MessageLinesLayout(p);
    if TagsShown(p) {
      assert "Tags: " <= lines[3];
    } else {
      OuterLineInitials(p);
      forall i | 0 <= i < |lines| ensures |lines[i]| > 0 && lines[i][0] != 'T' {
        if 3 <= i < |lines| - 3 {
          assert lines[i] == lines[3..4][0] == SummaryLines(p)[0];
        }
      }
      NoLineStarts(lines, "Tags: ");
    }
  }

  /**
   * A line starts with "Summary: " exactly when the paper has a description, and then it is the
   * line after the publication line and the tags line, if any, so before the comment line.
   */
  lemma SummaryLine(p: PaperEntry)
    ensures var lines := MessageLines(p);
      var t := if TagsShown(p) then 1 else 0;
      && ((exists i | 0 <= i < |lines| :: "Summary: " <= lines[i]) <==> SummaryShown(p))
      && (SummaryShown(p) ==> lines[3 + t] == "Summary: **" + p.description.value + "**")
  {
    var lines := MessageLines(p);
    var t := if TagsShown(p) then 1 else 0;
    MessageLinesLayout(p);
    if SummaryShown(p) {
      assert lines[3 + t] == lines[3 + t..3 + t + 1][0];
      assert "Summary: " <= lines[3 + t];
    } else {
      OuterLineInitials(p);
      forall i | 0 <= i < |lines| ensures |lines[i]| > 0 && lines[i][0] != 'S' {
        if 3 <= i < |lines| - 3 {
          assert lines[i] == lines[3..3 + t][0] == TagLines(p)[0];
        }
      }
      NoLineStarts(lines, "Summary: ");
    }
  }

  lemma IdsConcat(a: seq<PaperEntry>, b: seq<PaperEntry>)
    ensures Ids(a + b) == Ids(a) + Ids(b)
  {
  }

  /** `messages[i]` is the plain body of `sent[i]`. */
  predicate Posted(sent: seq<PaperEntry>, messages: seq<string>) {
    |messages| == |sent| && forall i | 0 <= i < |sent| :: messages[i] == PlainMessage(sent[i])
  }

  lemma PostedConcat(a: seq<PaperEntry>, ma: seq<string>, b: seq<PaperEntry>, mb: seq<string>)
    requires Posted(a, ma) && Posted(b, mb)
    ensures Posted(a + b, ma + mb)
  {
  }

  /** What one `fetch_and_send` as written did before it returned or raised. */
  datatype AsWrittenPass = AsWrittenPass(raised: bool, sentIds: set<string>, sent: seq<string>)

  /**
   * `fetch_and_send` over what `asyncio.to_thread` hands back for each query: a list is iterated
   * (every id not in `sent_ids` posted and recorded), anything else makes `for paper in papers`
   * raise `TypeError`, which ends the pass.
   */
  function PassAsWritten(sentIds: set<string>, results: seq<ThreadResult>): AsWrittenPass
    decreases |results|
  {
    if results == [] then AsWrittenPass(false, sentIds, [])
    else match results[0]
      case NotAList => AsWrittenPass(true, sentIds, [])
      case PaperList(ps) =>
        var d := Deliver(sentIds, Ids(ps), seq(|ps|, i => true), true);
        var rest := PassAsWritten(d.recorded, results[1..]);
        AsWrittenPass(rest.raised, rest.sentIds, d.attempted + rest.sent)
  }

  /**
   * As written, the search is the coroutine function `search` run through `asyncio.to_thread`, so
   * a pass with any configured query raises at its first query before posting anything, and
   * `sent_ids` never changes.
   */
  lemma FetchAndSendAsWrittenRaises(sentIds: set<string>, queries: seq<SearchQuery>)
    ensures var results := seq(|queries|, i requires 0 <= i < |queries| => SearchInThreadAsWritten(queries[i].query, QueryMax(queries[i])));
      PassAsWritten(sentIds, results) == AsWrittenPass(queries != [], sentIds, [])
  {
  }

  /** With the search awaited, every found paper whose id was not yet sent is posted. */
  lemma FetchAndSendCorrectedPosts(sentIds: set<string>, stored: map<string, PaperRow>, queries: seq<SearchQuery>,
                                   api: (string, int) -> ApiResult, defaultMax: int, hasLlm: bool,
                                   enrich: PaperEntry -> Enrichment, enrichFails: bool, ok: seq<bool>, id: string)
    requires var s := SearchesInOrder(stored, queries, QueryMax, api, defaultMax, hasLlm, enrich, enrichFails);
      |ok| == |s.0| && id in Ids(s.0) && id !in sentIds
    ensures var s := SearchesInOrder(stored, queries, QueryMax, api, defaultMax, hasLlm, enrich, enrichFails);
      id in Deliver(sentIds, Ids(s.0), ok, true).attempted
  {
    var s := SearchesInOrder(stored, queries, QueryMax, api, defaultMax, hasLlm, enrich, enrichFails);
    DeliverTries(sentIds, Ids(s.0), ok, true, id);
  }

  class MatrixBot {
    const db: Database
    const client: ArxivClient
    const roomId: string
    const queries: seq<SearchQuery>
    /** Ids of the papers posted since the process started. */
    var sentIds: set<string>

    /** `matrix_cfg.get("arxiv_queries", [])`, and an empty `sent_ids`. */
    constructor (db: Database, client: ArxivClient, roomId: string, configured: Option<seq<SearchQuery>>)
      ensures this.db == db && this.client == client && this.roomId == roomId
      ensures queries == if configured.Some? then configured.value else []
      ensures sentIds == {}
    {
      this.db := db;
      this.client := client;
      this.roomId := roomId;
      queries := if configured.Some? then configured.value else [];
      sentIds := {};
    }

    /**
     * `fetch_and_send` with the search awaited: the queries in configured order, each searched with
     * its own cap (`found` is everything found, in order), and every paper whose id is not yet in
     * `sent_ids` posted once; `send_message` swallows its errors, so the id is recorded whatever
     * `outcomes` says. A search that raises ends the pass (`raised`; `start_loop` logs it), after
     * the papers of the earlier queries were posted.
     */
    method FetchAndSend(api: (string, int) -> ApiResult, enrich: PaperEntry -> Enrichment, enrichFails: bool)
      returns (sent: seq<PaperEntry>, messages: seq<string>, outcomes: seq<bool>, ghost found: seq<PaperEntry>,
               raised: bool)
      requires client.db == db
      modifies this, db
      ensures (found, db.papers, raised) ==
        SearchesInOrder(old(db.papers), queries, QueryMax, api, client.maxResults, client.hasLlm, enrich, enrichFails)
      ensures |outcomes| == |found|
      ensures var pass := Deliver(old(sentIds), Ids(found), outcomes, true);
        sentIds == pass.recorded && Ids(sent) == pass.attempted
      ensures Posted(sent, messages)
      ensures old(sentIds) <= sentIds
      ensures db.users == old(db.users) && db.sent == old(db.sent)
    {
      sent, messages, outcomes, found, raised := [], [], [], [], false;
      ghost var start, stored := sentIds, db.papers;
      for q := 0 to |queries|
        invariant (found, db.papers, false) ==
          SearchesInOrder(stored, queries[..q], QueryMax, api, client.maxResults, client.hasLlm, enrich, enrichFails)
        invariant |outcomes| == |found|
        invariant var pass := Deliver(start, Ids(found), outcomes, true);
          sentIds == pass.recorded && Ids(sent) == pass.attempted
        invariant Posted(sent, messages)
        invariant db.users == old(db.users) && db.sent == old(db.sent)
      {
        SearchesSnoc(stored, queries, q, QueryMax, api, client.maxResults, client.hasLlm, enrich, enrichFails);
        var papers, failed := client.Search(queries[q].query, Some(QueryMax(queries[q])), api, enrich, enrichFails);
        if failed {
          assert found + papers == found;
          SearchesStopAtRaise(stored, queries, q + 1, QueryMax, api, client.maxResults, client.hasLlm, enrich, enrichFails);
          DeliverFacts(start, Ids(found), outcomes, true);
          return sent, messages, outcomes, found, true;
        }
        var more, texts, oks := PostUnsent(papers);
        DeliverConcat(start, Ids(found), outcomes, Ids(papers), oks, true);
        IdsConcat(found, papers);
        IdsConcat(sent, more);
        PostedConcat(sent, messages, more, texts);
        found, sent, messages, outcomes := found + papers, sent + more, messages + texts, outcomes + oks;
      }
      assert queries[..|queries|] == queries;
      DeliverFacts(start, Ids(found), outcomes, true);
    }

    /** The inner loop of `fetch_and_send`: each paper in order, posted unless its id is in `sent_ids`. */
    method PostUnsent(papers: seq<PaperEntry>) returns (sent: seq<PaperEntry>, messages: seq<string>, outcomes: seq<bool>)
      modifies this
      ensures |outcomes| == |papers|
      ensures var pass := Deliver(old(sentIds), Ids(papers), outcomes, true);
        sentIds == pass.recorded && Ids(sent) == pass.attempted
      ensures Posted(sent, messages)
    {
      sent, messages, outcomes := [], [], [];
      ghost var keys := Ids(papers);
      assert keys[..0] == [] && Ids(sent) == [];
      for k := 0 to |papers|
        invariant |outcomes| == k
        invariant var pass := Deliver(old(sentIds), keys[..k], outcomes, true);
          sentIds == pass.recorded && Ids(sent) == pass.attempted
        invariant Posted(sent, messages)
      {
        var p := papers[k];
        var ok: bool := *;
        assert keys[..k + 1] == keys[..k] + [p.arxivId];
        DeliverSnoc(old(sentIds), keys[..k], outcomes, p.arxivId, ok, true);
        if p.arxivId !in sentIds {
          messages := messages + [PlainMessage(p)];
          assert Ids(sent + [p]) == Ids(sent) + [p.arxivId];
          sent := sent + [p];
          sentIds := sentIds + {p.arxivId};
        }
        outcomes := outcomes + [ok];
      }
      assert keys[..|papers|] == keys;
    }
  }
}
