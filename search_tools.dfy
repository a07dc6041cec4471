/** The agent's policy-search tool (agent/tools.py, `search_policies`): it
    turns what the vector store's query returns into a numbered text report,
    and any exception into an error text. The query itself is the input. */
module SearchTools {
  import opened Seqs
  import opened Text

  const NoResults: string := "No relevant policies found for your query."
  const ErrorPrefix: string := "Error searching policies: "
  const Separator: string := "\n---\n"
  const ExcerptLength: nat := 500
  const UnknownPolicy: string := "Unknown Policy"
  const UnknownSource: string := "Unknown Source"

  /** Python's messages for the exceptions the formatting can raise. */
  const NotSubscriptable: string := "'NoneType' object is not subscriptable"
  const IndexOutOfRange: string := "list index out of range"
  const NoGet: string := "'NoneType' object has no attribute 'get'"

  /** One metadata record of the store; `None` is a missing record. */
  type Metadata = Option<map<string, string>>

  /** The three lists of the query's answer, one inner list per query text;
      a field is `None` when the store left it out. The relevance scores
      arrive already rendered as text. */
  datatype QueryResult = QueryResult(
    documents: Option<seq<seq<string>>>,
    metadatas: Option<seq<seq<Metadata>>>,
    scores: Option<seq<seq<string>>>)

  /** What `collection.query` did: raised an exception with a message, or
      returned a result (`None` when it is empty). */
  datatype QueryOutcome = Raised(message: string) | Returned(result: Option<QueryResult>)

  function ErrorText(message: string): (r: string)
    ensures |r| >= |ErrorPrefix| && r[..|ErrorPrefix|] == ErrorPrefix
  {
    ErrorPrefix + message
  }

  /** `meta.get(key, default)`. */
  function Get(meta: map<string, string>, key: string, default: string): (r: string)
    ensures key in meta ==> r == meta[key]
    ensures key !in meta ==> r == default
  {
    if key in meta then meta[key] else default
  }

  /** `doc[:500]`, followed by "..." when something was cut. */
  function Excerpt(doc: string): (r: string)
    ensures |doc| <= ExcerptLength ==> r == doc
    ensures |doc| > ExcerptLength ==> |r| == ExcerptLength + 3 && r[..ExcerptLength] == doc[..ExcerptLength] && r[ExcerptLength..] == "..."
  {
    (if |doc| <= ExcerptLength then doc else doc[..ExcerptLength]) + (if |doc| > ExcerptLength then "..." else "")
  }

  /** The heading line of the block for the `n`-th result. */
  function Heading(n: nat): string
  {
    "**Result " + NatToString(n) + "**\n"
  }

  /** The block for the `n`-th result: heading, policy, source, score and
      excerpt, one per line. */
  function Entry(n: nat, doc: string, meta: map<string, string>, score: string): string
  {
    Heading(n) + Details(doc, meta, score)
  }

  /** The lines of a block after its heading. */
  function Details(doc: string, meta: map<string, string>, score: string): string
  {
    "Policy: " + Get(meta, "policy_name", UnknownPolicy) + "\n" +
    "Source: " + Get(meta, "source", UnknownSource) + "\n" +
    "Relevance: " + score + "\n" +
    "Excerpt:\n" + Excerpt(doc) + "\n"
  }

  function Min3(a: nat, b: nat, c: nat): (m: nat)
    ensures m <= a && m <= b && m <= c && (m == a || m == b || m == c)
  {
    if a <= b && a <= c then a else if b <= c then b else c
  }

  /** The first `k` positions have a metadata record. */
  predicate AllPresent(metas: seq<Metadata>, k: nat)
  {
    k <= |metas| && forall j :: 0 <= j < k ==> metas[j].Some?
  }

  /** The block for the result at position `j` of the zipped lists. */
  function EntryAt(docs: seq<string>, metas: seq<Metadata>, scores: seq<string>, j: nat): string
    requires j < |docs| && j < |scores| && j < |metas| && metas[j].Some?
  {
    Entry(j + 1, docs[j], metas[j].value, scores[j])
  }

  /** The blocks of the first `k` results, numbered from 1. */
  function Entries(docs: seq<string>, metas: seq<Metadata>, scores: seq<string>, k: nat): (r: seq<string>)
    requires k <= |docs| && k <= |scores| && AllPresent(metas, k)
    ensures |r| == k
    decreases k
  {
    if k == 0 then []
    else Entries(docs, metas, scores, k - 1) + [EntryAt(docs, metas, scores, k - 1)]
  }

  lemma EntriesSnoc(docs: seq<string>, metas: seq<Metadata>, scores: seq<string>, i: nat)
    requires i < |docs| && i < |scores| && AllPresent(metas, i + 1)
    ensures Entries(docs, metas, scores, i + 1) == Entries(docs, metas, scores, i) + [EntryAt(docs, metas, scores, i)]
  {
  }

  /** How far the query's answer gets before formatting: no results, an
      exception with its message, or the three lists of the first query. */
  datatype Stage = Empty | Failed(message: string) | Lists(docs: seq<string>, metas: seq<Metadata>, scores: seq<string>)

  /** The query returned nothing to format: no result, no documents, or an
      empty first list of documents. */
  predicate NothingFound(outcome: QueryOutcome)
  {
    outcome.Returned? &&
    (outcome.result.None? || outcome.result.value.documents.None? ||
     outcome.result.value.documents.value == [] || outcome.result.value.documents.value[0] == [])
  }

  function StageOf(outcome: QueryOutcome): (st: Stage)
    ensures outcome.Raised? ==> st == Failed(outcome.message)
    ensures st.Empty? <==> NothingFound(outcome)
    ensures st.Failed? && outcome.Returned? ==> st.message == NotSubscriptable || st.message == IndexOutOfRange
    ensures !NothingFound(outcome) && outcome.Returned? ==> var r := outcome.result.value;
      (r.metadatas.None? ==> st == Failed(NotSubscriptable)) &&
      (r.metadatas.Some? && r.metadatas.value == [] ==> st == Failed(IndexOutOfRange)) &&
      (r.metadatas.Some? && r.metadatas.value != [] && r.scores.None? ==> st == Failed(NotSubscriptable)) &&
      (r.metadatas.Some? && r.metadatas.value != [] && r.scores.Some? && r.scores.value == [] ==> st == Failed(IndexOutOfRange))
    ensures st.Lists? ==> st.docs != [] && outcome.Returned? && outcome.result.Some?
    ensures st.Lists? ==> var r := outcome.result.value;
      r.documents.Some? && r.metadatas.Some? && r.scores.Some? &&
      r.documents.value != [] && r.metadatas.value != [] && r.scores.value != [] &&
      [st.docs] + r.documents.value[1..] == r.documents.value &&
      [st.metas] + r.metadatas.value[1..] == r.metadatas.value &&
      [st.scores] + r.scores.value[1..] == r.scores.value
  {
    match outcome
    case Raised(m) => Failed(m)
    case Returned(None) => Empty
    case Returned(Some(r)) =>
      if r.documents.None? || |r.documents.value| == 0 || |r.documents.value[0]| == 0 then Empty
      else if r.metadatas.None? then Failed(NotSubscriptable)
      else if |r.metadatas.value| == 0 then Failed(IndexOutOfRange)
      else if r.scores.None? then Failed(NotSubscriptable)
      else if |r.scores.value| == 0 then Failed(IndexOutOfRange)
      else
        assert [r.documents.value[0]] + r.documents.value[1..] == r.documents.value;
        assert [r.metadatas.value[0]] + r.metadatas.value[1..] == r.metadatas.value;
        assert [r.scores.value[0]] + r.scores.value[1..] == r.scores.value;
        Lists(r.documents.value[0], r.metadatas.value[0], r.scores.value[0])
  }

  /** The formatted results: one block for each of the first `k` results,
      `k` the length of the shortest list, or an error at a missing record. */
  function Formatted(docs: seq<string>, metas: seq<Metadata>, scores: seq<string>): string
  {
    var k := Min3(|docs|, |metas|, |scores|);
    if !AllPresent(metas, k) then ErrorText(NoGet)
    else Join(Entries(docs, metas, scores, k), Separator)
  }

  /** The report `search_policies` returns for one outcome of the query. */
  function Report(outcome: QueryOutcome): (out: string)
    ensures NothingFound(outcome) ==> out == NoResults
    ensures StageOf(outcome).Failed? ==> out == ErrorText(StageOf(outcome).message)
    ensures StageOf(outcome).Lists? ==>
      out == Formatted(StageOf(outcome).docs, StageOf(outcome).metas, StageOf(outcome).scores)
  {
    match StageOf(outcome)
    case Empty => NoResults
    case Failed(m) => ErrorText(m)
    case Lists(docs, metas, scores) => Formatted(docs, metas, scores)
  }

  /** The `j`-th block is the entry for the `j`-th result, numbered `j + 1`. */
  lemma {:induction false} EntriesInOrder(docs: seq<string>, metas: seq<Metadata>, scores: seq<string>, k: nat)
    requires k <= |docs| && k <= |scores| && AllPresent(metas, k)
    ensures forall j :: 0 <= j < k ==>
      Entries(docs, metas, scores, k)[j] == EntryAt(docs, metas, scores, j)
    decreases k
  {
    if k > 0 {
      var prev := Entries(docs, metas, scores, k - 1);
      EntriesInOrder(docs, metas, scores, k - 1);
      assert Entries(docs, metas, scores, k) == prev + [EntryAt(docs, metas, scores, k - 1)];
      forall j | 0 <= j < k
        ensures Entries(docs, metas, scores, k)[j] == EntryAt(docs, metas, scores, j)
      {
        if j < k - 1 {
          assert Entries(docs, metas, scores, k)[j] == prev[j];
        }
      }
    }
  }

  /** Each block starts with its numbered heading. */
  lemma EntryHeading(n: nat, doc: string, meta: map<string, string>, score: string)
    ensures |Entry(n, doc, meta, score)| > |Heading(n)|
    ensures Entry(n, doc, meta, score)[..|Heading(n)|] == Heading(n)
  {
    var h, d := Heading(n), Details(doc, meta, score);
    assert |d| > 0 by {
      assert |d| >= |"Policy: "|;
    }
    assert (h + d)[..|h|] == h;
  }

  /** A falsy result, missing documents or an empty first list of documents
      gives exactly the no-results text. */
  lemma ReportEmpty(r: Option<QueryResult>)
    requires r.None? || r.value.documents.None? || r.value.documents.value == [] || r.value.documents.value[0] == []
    ensures Report(Returned(r)) == NoResults
  {
  }

  /** When all three lists are there and the first query found documents,
      the report is the formatted first lists. */
  lemma ReportFormatsFirstLists(docs: seq<seq<string>>, metas: seq<seq<Metadata>>, scores: seq<seq<string>>)
    requires docs != [] && docs[0] != [] && metas != [] && scores != []
    ensures Report(Returned(Some(QueryResult(Some(docs), Some(metas), Some(scores))))) ==
      Formatted(docs[0], metas[0], scores[0])
  {
  }

  /** An exception from the store becomes an error text carrying its message. */
  lemma RaisedIsReported(message: string)
    ensures Report(Raised(message)) == ErrorPrefix + message
  {
  }

  /** `search_policies`: the report for the query's outcome; the loop formats
      one block per result and stops with an error at a missing record. */
  method SearchPolicies(outcome: QueryOutcome) returns (out: string)
    ensures out == Report(outcome)
  {
    if outcome.Raised? {
      return ErrorText(outcome.message);
    }
    if outcome.result.None? {
      return NoResults;
    }
    var r := outcome.result.value;
    if r.documents.None? || |r.documents.value| == 0 || |r.documents.value[0]| == 0 {
      return NoResults;
    }
    if r.metadatas.None? {
      return ErrorText(NotSubscriptable);
    }
    if |r.metadatas.value| == 0 {
      return ErrorText(IndexOutOfRange);
    }
    if r.scores.None? {
      return ErrorText(NotSubscriptable);
    }
    if |r.scores.value| == 0 {
      return ErrorText(IndexOutOfRange);
    }
    out := FormatResults(r.documents.value[0], r.metadatas.value[0], r.scores.value[0]);
  }

  /** The loop of `search_policies` over the zipped lists. */
  method FormatResults(docs: seq<string>, metas: seq<Metadata>, scores: seq<string>) returns (out: string)
    ensures out == Formatted(docs, metas, scores)
  {
    var k := Min3(|docs|, |metas|, |scores|);
    var parts: seq<string> := [];
    var i := 0;
    while i < k
      invariant 0 <= i <= k
      invariant AllPresent(metas, i)
      invariant parts == Entries(docs, metas, scores, i)
    {
      if metas[i].None? {
        return ErrorText(NoGet);
      }
      EntriesSnoc(docs, metas, scores, i);
      parts := parts + [EntryAt(docs, metas, scores, i)];
      i := i + 1;
    }
    out := Join(parts, Separator);
  }
}
