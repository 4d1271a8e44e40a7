/**
 * What the two keyword dialogues (arxiv_tgbot.py and arxiv_bot.py) do to a user's saved query
 * list: append a query whose text is not yet listed, or remove the entry a 1-based number names.
 */
module Dialogue {
  import opened Wrappers
  import opened Strings
  import opened Store

  /** `any(q["query"] == kw for q in queries)`: an exact-text duplicate. */
  predicate Listed(qs: seq<SearchQuery>, kw: string) {
    exists i | 0 <= i < |qs| :: qs[i].query == kw
  }

  /** The cap a background search uses for a saved query: `sq.get("max_results", 10)`. */
  function SweepMax(q: SearchQuery): int {
    if q.maxResults.Some? then q.maxResults.value else 10
  }

  /** `queries.pop(k)` */
  function RemoveAt(qs: seq<SearchQuery>, k: nat): seq<SearchQuery>
    requires k < |qs|
  {
    qs[..k] + qs[k + 1..]
  }

  /** Removing entry `k` keeps every other entry, in order, and drops exactly that one. */
  lemma RemoveAtFacts(qs: seq<SearchQuery>, k: nat)
    requires k < |qs|
    ensures var r := RemoveAt(qs, k);
      && |r| == |qs| - 1
      && (forall i | 0 <= i < k :: r[i] == qs[i])
      && (forall i | k <= i < |r| :: r[i] == qs[i + 1])
      && multiset(r) + multiset{qs[k]} == multiset(qs)
  {
    assert qs == qs[..k] + [qs[k]] + qs[k + 1..];
  }

  /**
   * A query the dialogue can write: non-empty stripped text (`Trimmed`, which `TrimmedStripped`
   * shows is `Strip(q.query) == q.query`) and a cap within `1..maxAllowed`. */
  predicate ValidQuery(q: SearchQuery, maxAllowed: int) {
    q.query != "" && Trimmed(q.query) && q.maxResults.Some? && 1 <= q.maxResults.value <= maxAllowed
  }

  /** No two saved queries share their text, and each is one the dialogue could have written. */
  predicate WellKept(qs: seq<SearchQuery>, maxAllowed: int) {
    DistinctTexts(qs) && forall q | q in qs :: ValidQuery(q, maxAllowed)
  }

  predicate DistinctTexts(qs: seq<SearchQuery>) {
    forall i, j | 0 <= i < j < |qs| :: qs[i].query != qs[j].query
  }

  /** Appending a valid query whose text is not listed keeps the list well kept. */
  lemma AppendKeeps(qs: seq<SearchQuery>, q: SearchQuery, maxAllowed: int)
    requires WellKept(qs, maxAllowed) && ValidQuery(q, maxAllowed) && !Listed(qs, q.query)
    ensures WellKept(qs + [q], maxAllowed)
  {
    AppendDistinct(qs, q);
    AppendValid(qs, q, maxAllowed);
  }

  lemma AppendValid(qs: seq<SearchQuery>, q: SearchQuery, maxAllowed: int)
    requires forall x | x in qs :: ValidQuery(x, maxAllowed)
    requires ValidQuery(q, maxAllowed)
    ensures forall x | x in qs + [q] :: ValidQuery(x, maxAllowed)
  {
    forall x | x in qs + [q] ensures ValidQuery(x, maxAllowed) {
      if x != q {
        assert x in qs;
      }
    }
  }

  lemma AppendDistinct(qs: seq<SearchQuery>, q: SearchQuery)
    requires DistinctTexts(qs) && !Listed(qs, q.query)
    ensures DistinctTexts(qs + [q])
  {
    var r := qs + [q];
    forall i, j | 0 <= i < j < |r| ensures r[i].query != r[j].query {
      assert r[i] == qs[i];
      if j < |qs| {
        assert r[j] == qs[j];
      }
    }
  }

  /** Removing an entry keeps the list well kept. */
  lemma RemoveKeeps(qs: seq<SearchQuery>, k: nat, maxAllowed: int)
    requires k < |qs| && WellKept(qs, maxAllowed)
    ensures WellKept(RemoveAt(qs, k), maxAllowed)
  {
    RemoveAtFacts(qs, k);
    var r := RemoveAt(qs, k);
    assert forall x | x in r :: x in qs;
    forall i, j | 0 <= i < j < |r| ensures r[i].query != r[j].query {
      var i' := if i < k then i else i + 1;
      var j' := if j < k then j else j + 1;
      assert r[i] == qs[i'] && r[j] == qs[j'];
    }
  }
}
