/** The summary backfill driver (scripts/backfill_summaries.py): documents
    whose `brief_summary` is null are fetched oldest first, in batches, and
    summarised one by one; each success writes the summary (unless in dry
    run), and progress counters record every attempt. The document table is
    a sequence of records kept in `created_at` order, a fetched document is
    its position in that sequence, and the summariser is a function from
    content to an optional summary. */
module Backfill {
  import opened Llm

  /** The fields of a `documents` row the driver reads or writes
      (the UUID key is abstracted to a number). */
  datatype Document = Document(
    id: nat,
    content: string,
    namespace: string,
    createdAt: int,
    briefSummary: Option<string>)

  /** Rows listed in `created_at` order, as `ORDER BY created_at ASC` returns them. */
  ghost predicate OldestFirst(docs: seq<Document>) {
    forall i, j :: 0 <= i < j < |docs| ==> docs[i].createdAt <= docs[j].createdAt
  }

  /** The filter of both queries: no summary yet, and the namespace matches
      when a non-empty namespace is given (an empty one filters nothing). */
  predicate NeedsSummary(doc: Document, namespace: Option<string>) {
    doc.briefSummary.None? &&
    (namespace.None? || namespace.value == [] || doc.namespace == namespace.value)
  }

  /** Positions of the rows the filter selects, in table order. */
  function MissingPositions(docs: seq<Document>, namespace: Option<string>): (r: seq<nat>)
    ensures forall k :: 0 <= k < |r| ==> r[k] < |docs| && NeedsSummary(docs[r[k]], namespace)
    ensures forall p :: 0 <= p < |docs| && NeedsSummary(docs[p], namespace) ==> p in r
    ensures forall k, l :: 0 <= k < l < |r| ==> r[k] < r[l]
  {
    if docs == [] then []
    else
      var n := |docs| - 1;
      var init := MissingPositions(docs[..n], namespace);
      assert forall k :: 0 <= k < |init| ==> docs[..n][init[k]] == docs[init[k]];
      init + (if NeedsSummary(docs[n], namespace) then [n] else [])
  }

  /** `count_documents_without_summary`: how many rows the filter selects. */
  function CountMissing(docs: seq<Document>, namespace: Option<string>): (r: nat)
    ensures r <= |docs|
  {
    if docs == [] then 0
    else
      var n := |docs| - 1;
      CountMissing(docs[..n], namespace) + (if NeedsSummary(docs[n], namespace) then 1 else 0)
  }

  /** The count is zero exactly when no row needs a summary. */
  lemma {:induction false} NoneMissing(docs: seq<Document>, namespace: Option<string>)
    ensures CountMissing(docs, namespace) == 0 <==> forall p :: 0 <= p < |docs| ==> !NeedsSummary(docs[p], namespace)
  {
    if docs != [] {
      var n := |docs| - 1;
      NoneMissing(docs[..n], namespace);
      assert forall p :: 0 <= p < n ==> docs[..n][p] == docs[p];
    }
  }

  /** The count and the fetch agree on which rows need a summary. */
  lemma {:induction false} CountIsMissingLength(docs: seq<Document>, namespace: Option<string>)
    ensures CountMissing(docs, namespace) == |MissingPositions(docs, namespace)|
  {
    if docs != [] {
      CountIsMissingLength(docs[..|docs| - 1], namespace);
    }
  }

  /** `fetch_documents_batch`: the first `batchSize` selected rows, oldest
      first; every selected row left out lies after every row fetched. */
  function FetchBatch(docs: seq<Document>, batchSize: nat, namespace: Option<string>): (r: seq<nat>)
    ensures |r| == if batchSize < CountMissing(docs, namespace) then batchSize else CountMissing(docs, namespace)
    ensures forall k :: 0 <= k < |r| ==> r[k] < |docs| && NeedsSummary(docs[r[k]], namespace)
    ensures forall k, l :: 0 <= k < l < |r| ==> r[k] < r[l]
    ensures forall p, k :: 0 <= p < |docs| && NeedsSummary(docs[p], namespace) && p !in r && 0 <= k < |r|
              ==> r[k] < p
  {
    var all := MissingPositions(docs, namespace);
    CountIsMissingLength(docs, namespace);
    if batchSize < |all| then
      PrefixComesFirst(all, batchSize);
      all[..batchSize]
    else all
  }

  /** In an increasing sequence, what a prefix leaves out lies after all of it. */
  lemma PrefixComesFirst(all: seq<nat>, b: nat)
    requires b <= |all|
    requires forall k, l :: 0 <= k < l < |all| ==> all[k] < all[l]
    ensures forall p, k :: p in all && p !in all[..b] && 0 <= k < b ==> all[..b][k] < p
  {
    assert forall j :: 0 <= j < b ==> all[j] == all[..b][j] && all[..b][j] in all[..b];
    forall p, k | p in all && p !in all[..b] && 0 <= k < b
      ensures all[..b][k] < p
    {
      var i :| 0 <= i < |all| && all[i] == p;
      assert b <= i;
    }
  }

  /** Oldest first: in a table kept in `created_at` order, the fetched rows
      come in `created_at` order and none of the selected rows left behind
      is older than a fetched one. */
  lemma FetchOldestFirst(docs: seq<Document>, batchSize: nat, namespace: Option<string>)
    requires OldestFirst(docs)
    ensures var r := FetchBatch(docs, batchSize, namespace);
      (forall k, l :: 0 <= k < l < |r| ==> docs[r[k]].createdAt <= docs[r[l]].createdAt) &&
      (forall p, k :: 0 <= p < |docs| && NeedsSummary(docs[p], namespace) && p !in r && 0 <= k < |r|
         ==> docs[r[k]].createdAt <= docs[p].createdAt)
  {
  }

  /** Filling in the summary of one selected row lowers the count by one. */
  lemma {:induction false} CountAfterFill(docs: seq<Document>, p: nat, summary: string, namespace: Option<string>)
    requires p < |docs| && NeedsSummary(docs[p], namespace)
    ensures CountMissing(docs[p := docs[p].(briefSummary := Some(summary))], namespace)
         == CountMissing(docs, namespace) - 1
  {
    var n := |docs| - 1;
    var filled := docs[p := docs[p].(briefSummary := Some(summary))];
    if p == n {
      assert filled[..n] == docs[..n];
    } else {
      assert filled[..n] == docs[..n][p := docs[p].(briefSummary := Some(summary))];
      CountAfterFill(docs[..n], p, summary, namespace);
    }
  }

  /** `docs` differs from `docs0` only in rows that needed a summary and
      got the usable one the summariser gives for their content. */
  ghost predicate OnlyFilled(docs0: seq<Document>, docs: seq<Document>, namespace: Option<string>,
                             summarize: string -> Option<string>) {
    |docs| == |docs0| &&
    forall p :: 0 <= p < |docs| ==>
      docs[p] == docs0[p] || (NeedsSummary(docs0[p], namespace) && WrittenBy(summarize, docs0[p], docs[p]))
  }

  /** Every position in `ps` is a row of `docs` that needs a summary. */
  ghost predicate AllNeedSummary(ps: seq<nat>, docs: seq<Document>, namespace: Option<string>) {
    forall k :: 0 <= k < |ps| ==> ps[k] < |docs| && NeedsSummary(docs[ps[k]], namespace)
  }

  lemma AllNeedSummaryConcat(a: seq<nat>, b: seq<nat>, docs: seq<Document>, namespace: Option<string>)
    requires AllNeedSummary(a, docs, namespace) && AllNeedSummary(b, docs, namespace)
    ensures AllNeedSummary(a + b, docs, namespace)
  {
  }

  /** Every position in `ps` is one of `batch`. */
  ghost predicate AllIn(ps: seq<nat>, batch: seq<nat>) {
    forall k :: 0 <= k < |ps| ==> ps[k] in batch
  }

  lemma AllInConcat(a: seq<nat>, b: seq<nat>, batch: seq<nat>)
    requires AllIn(a, batch) && b == batch
    ensures AllIn(a + b, batch)
  {
  }

  /** The document table; `SetSummary` is the assignment to
      `doc.brief_summary` followed by the commit. */
  class DocumentStore {
    var docs: seq<Document>

    ghost predicate Valid()
      reads this
    {
      OldestFirst(docs)
    }

    constructor (docs: seq<Document>)
      requires OldestFirst(docs)
      ensures Valid() && this.docs == docs
    {
      this.docs := docs;
    }

    method SetSummary(pos: nat, summary: string)
      requires Valid() && pos < |docs|
      modifies this
      ensures Valid()
      ensures docs == old(docs)[pos := old(docs)[pos].(briefSummary := Some(summary))]
    {
      docs := docs[pos := docs[pos].(briefSummary := Some(summary))];
    }
  }

  /** `BackfillProgress` without its clock. */
  class BackfillProgress {
    var totalDocuments: int
    var processed: int
    var succeeded: int
    var failed: int
    var skipped: int

    /** Every attempt is either a success or a failure; nothing is skipped. */
    ghost predicate Balanced()
      reads this
    {
      0 <= succeeded && 0 <= failed && processed == succeeded + failed && skipped == 0
    }

    constructor ()
      ensures Balanced()
      ensures totalDocuments == 0 && processed == 0 && succeeded == 0 && failed == 0 && skipped == 0
    {
      totalDocuments, processed, succeeded, failed, skipped := 0, 0, 0, 0, 0;
    }

    /** The counting after one document: `processed` and exactly one of
        `succeeded`/`failed` go up by one. */
    method Record(success: bool)
      requires Balanced()
      modifies this
      ensures Balanced()
      ensures processed == old(processed) + 1
      ensures succeeded == old(succeeded) + (if success then 1 else 0)
      ensures failed == old(failed) + (if success then 0 else 1)
      ensures totalDocuments == old(totalDocuments) && skipped == old(skipped)
    {
      processed := processed + 1;
      if success {
        succeeded := succeeded + 1;
      } else {
        failed := failed + 1;
      }
    }
  }

  /** A usable summary: Python's `if not summary` rejects None and "". */
  predicate Usable(summary: Option<string>) {
    summary.Some? && summary.value != []
  }

  /** `generate_summary_for_document`: success exactly when the summariser
      gives a usable summary; the row changes only on a success outside dry
      run, and then only its summary. */
  method GenerateSummaryForDocument(store: DocumentStore, pos: nat, summarize: string -> Option<string>, dryRun: bool)
    returns (success: bool)
    requires store.Valid() && pos < |store.docs|
    modifies store
    ensures store.Valid()
    ensures success <==> Usable(summarize(old(store.docs)[pos].content))
    ensures if success && !dryRun
            then store.docs == old(store.docs)[pos := old(store.docs)[pos].(briefSummary := summarize(old(store.docs)[pos].content))]
            else store.docs == old(store.docs)
    ensures store.docs == old(store.docs)[pos := Attempt(old(store.docs)[pos], summarize, dryRun)]
  {
    var summary := summarize(store.docs[pos].content);
    if !Usable(summary) {
      return false;
    }
    if dryRun {
      return true;
    }
    store.SetSummary(pos, summary.value);
    return true;
  }

  /** How many of the rows at `positions` the summariser gives a usable
      summary for: the successes of attempting them, dry run or not. */
  function CountUsable(docs: seq<Document>, positions: seq<nat>, summarize: string -> Option<string>): nat {
    if positions == [] then 0
    else
      var p := positions[|positions| - 1];
      CountUsable(docs, positions[..|positions| - 1], summarize)
      + (if p < |docs| && Usable(summarize(docs[p].content)) then 1 else 0)
  }

  /** The successes of two runs of attempts add up. */
  lemma {:induction false} CountUsableConcat(docs: seq<Document>, a: seq<nat>, b: seq<nat>,
                                             summarize: string -> Option<string>)
    ensures CountUsable(docs, a + b, summarize) == CountUsable(docs, a, summarize) + CountUsable(docs, b, summarize)
  {
    if b != [] {
      assert (a + b)[..|a + b| - 1] == a + b[..|b| - 1];
      CountUsableConcat(docs, a, b[..|b| - 1], summarize);
    } else {
      assert a + b == a;
    }
  }

  /** Only the rows at `positions` matter to the count. */
  lemma {:induction false} CountUsableAgree(d1: seq<Document>, d2: seq<Document>, positions: seq<nat>,
                                            summarize: string -> Option<string>)
    requires forall k :: 0 <= k < |positions| ==>
               positions[k] < |d1| && positions[k] < |d2| && d1[positions[k]] == d2[positions[k]]
    ensures CountUsable(d1, positions, summarize) == CountUsable(d2, positions, summarize)
  {
    if positions != [] {
      CountUsableAgree(d1, d2, positions[..|positions| - 1], summarize);
    }
  }

  /** `doc` is `doc0` with the usable summary the summariser gives for its
      content written in. */
  ghost predicate WrittenBy(summarize: string -> Option<string>, doc0: Document, doc: Document) {
    Usable(summarize(doc0.content)) && doc == doc0.(briefSummary := summarize(doc0.content))
  }

  /** A row after one attempt at it: the usable summary the summariser
      gives is written in outside dry run; otherwise the row is unchanged. */
  function Attempt(doc: Document, summarize: string -> Option<string>, dryRun: bool): Document {
    if !dryRun && Usable(summarize(doc.content)) then doc.(briefSummary := summarize(doc.content)) else doc
  }

  /** `docs` is `docs0` after an attempt at every row in `attempted`, and
      every other row is untouched. */
  ghost predicate RowsAfter(docs0: seq<Document>, docs: seq<Document>, attempted: seq<nat>,
                            summarize: string -> Option<string>, dryRun: bool) {
    |docs| == |docs0| &&
    forall p :: 0 <= p < |docs| ==>
      docs[p] == if p in attempted then Attempt(docs0[p], summarize, dryRun) else docs0[p]
  }

  /** A second batch composes with the rows attempted before it: a row
      fetched again still needs a summary, so earlier attempts left it as it
      was. */
  lemma RowsAfterBatch(docs0: seq<Document>, mid: seq<Document>, docs: seq<Document>,
                       attempted: seq<nat>, documents: seq<nat>, namespace: Option<string>,
                       summarize: string -> Option<string>, dryRun: bool)
    requires RowsAfter(docs0, mid, attempted, summarize, dryRun)
    requires RowsAfter(mid, docs, documents, summarize, dryRun)
    requires AllNeedSummary(documents, mid, namespace)
    ensures RowsAfter(docs0, docs, attempted + documents, summarize, dryRun)
    ensures AllNeedSummary(documents, docs0, namespace)
    ensures CountUsable(mid, documents, summarize) == CountUsable(docs0, documents, summarize)
  {
    forall k | 0 <= k < |documents|
      ensures documents[k] < |docs0| && NeedsSummary(docs0[documents[k]], namespace)
      ensures mid[documents[k]] == docs0[documents[k]]
    {
      assert mid[documents[k]] == docs0[documents[k]];
    }
    forall p | 0 <= p < |docs|
      ensures docs[p] == if p in attempted + documents then Attempt(docs0[p], summarize, dryRun) else docs0[p]
    {
      if p in documents {
        var k :| 0 <= k < |documents| && documents[k] == p;
        assert NeedsSummary(mid[p], namespace);
        assert mid[p] == docs0[p];
      }
    }
    CountUsableAgree(mid, docs0, documents, summarize);
  }

  /** Attempts at rows that needed a summary change them only by filling it in. */
  lemma RowsAfterOnlyFilled(docs0: seq<Document>, docs: seq<Document>, attempted: seq<nat>,
                            namespace: Option<string>, summarize: string -> Option<string>, dryRun: bool)
    requires RowsAfter(docs0, docs, attempted, summarize, dryRun)
    requires AllNeedSummary(attempted, docs0, namespace)
    ensures OnlyFilled(docs0, docs, namespace, summarize)
  {
    forall p | 0 <= p < |docs| && p in attempted
      ensures NeedsSummary(docs0[p], namespace)
    {
      var k :| 0 <= k < |attempted| && attempted[k] == p;
    }
  }

  /** The positions of successive batches, in the order they were attempted. */
  function Flatten(batches: seq<seq<nat>>): seq<nat> {
    if batches == [] then [] else Flatten(batches[..|batches| - 1]) + batches[|batches| - 1]
  }

  /** Batch i of the run: what `fetch_documents_batch` returned on the table
      as it stood before it (`states[i]`), non-empty, and its attempts turned
      `states[i]` into `states[i + 1]`. */
  ghost predicate BatchAt(batches: seq<seq<nat>>, states: seq<seq<Document>>, i: int, batchSize: int,
                          namespace: Option<string>, summarize: string -> Option<string>, dryRun: bool) {
    0 <= i < |batches| && i + 1 < |states| &&
    batches[i] != [] && batchSize >= 0 && batches[i] == FetchBatch(states[i], batchSize, namespace) &&
    RowsAfter(states[i], states[i + 1], batches[i], summarize, dryRun)
  }

  /** The run went batch by batch from `docs0` to `docs`. */
  ghost predicate InBatches(docs0: seq<Document>, docs: seq<Document>, batches: seq<seq<nat>>,
                            states: seq<seq<Document>>, batchSize: int, namespace: Option<string>,
                            summarize: string -> Option<string>, dryRun: bool) {
    |states| == |batches| + 1 && states[0] == docs0 && states[|batches|] == docs &&
    forall i {:trigger BatchAt(batches, states, i, batchSize, namespace, summarize, dryRun)} ::
      0 <= i < |batches| ==> BatchAt(batches, states, i, batchSize, namespace, summarize, dryRun)
  }

  /** A row that fails in one batch still needs a summary afterwards, so the
      next fetch takes it again unless that batch fills up with rows before
      it: no later row is fetched ahead of it. */
  lemma FailedRowFetchedAgain(docs0: seq<Document>, docs: seq<Document>, batches: seq<seq<nat>>,
                              states: seq<seq<Document>>, batchSize: int, namespace: Option<string>,
                              summarize: string -> Option<string>, dryRun: bool, i: nat, next: nat, p: nat)
    requires InBatches(docs0, docs, batches, states, batchSize, namespace, summarize, dryRun)
    requires next == i + 1 && next < |batches| && p in batches[i]
    requires p < |states[i]| && p < |states[next]|
    requires !Usable(summarize(states[i][p].content))
    ensures NeedsSummary(states[next][p], namespace)
    ensures p in batches[next] || forall k :: 0 <= k < |batches[next]| ==> batches[next][k] < p
  {
    assert BatchAt(batches, states, i, batchSize, namespace, summarize, dryRun);
    assert BatchAt(batches, states, next, batchSize, namespace, summarize, dryRun);
  }

  /** The delays: the k-th comes after the k-th batch, when `processed` is
      the number of rows in the first k + 1 batches. */
  ghost predicate SleptAfter(sleptAt: seq<int>, batches: seq<seq<nat>>) {
    |sleptAt| <= |batches| &&
    forall k {:trigger DelayAt(sleptAt, batches, k)} :: 0 <= k < |sleptAt| ==> DelayAt(sleptAt, batches, k)
  }

  /** The k-th delay comes when `processed` counts the rows of batches 0..k. */
  ghost predicate DelayAt(sleptAt: seq<int>, batches: seq<seq<nat>>, k: int) {
    0 <= k < |sleptAt| && k < |batches| && sleptAt[k] == |Flatten(batches[..k + 1])|
  }

  /** One more fetched and attempted batch extends the run. */
  lemma InBatchesSnoc(docs0: seq<Document>, mid: seq<Document>, docs: seq<Document>, batches: seq<seq<nat>>,
                      states: seq<seq<Document>>, batch: seq<nat>, batchSize: int, namespace: Option<string>,
                      summarize: string -> Option<string>, dryRun: bool)
    requires InBatches(docs0, mid, batches, states, batchSize, namespace, summarize, dryRun)
    requires batchSize >= 0 && batch != [] && batch == FetchBatch(mid, batchSize, namespace)
    requires RowsAfter(mid, docs, batch, summarize, dryRun)
    ensures InBatches(docs0, docs, batches + [batch], states + [docs], batchSize, namespace, summarize, dryRun)
    ensures Flatten(batches + [batch]) == Flatten(batches) + batch
  {
    assert (batches + [batch])[..|batches|] == batches;
    forall i | 0 <= i < |batches| + 1
      ensures BatchAt(batches + [batch], states + [docs], i, batchSize, namespace, summarize, dryRun)
    {
      if i < |batches| {
        assert BatchAt(batches, states, i, batchSize, namespace, summarize, dryRun);
        assert (states + [docs])[i + 1] == states[i + 1];
      }
    }
  }

  /** A further batch leaves the earlier delays where they were, and a delay
      after it comes when `processed` counts all the batches. */
  lemma SleptSnoc(sleptAt: seq<int>, batches: seq<seq<nat>>, batch: seq<nat>)
    requires SleptAfter(sleptAt, batches)
    ensures SleptAfter(sleptAt, batches + [batch])
    ensures |sleptAt| == |batches| ==>
              SleptAfter(sleptAt + [|Flatten(batches + [batch])|], batches + [batch])
  {
    forall k | 0 <= k < |sleptAt|
      ensures DelayAt(sleptAt, batches + [batch], k)
    {
      assert DelayAt(sleptAt, batches, k);
      assert (batches + [batch])[..k + 1] == batches[..k + 1];
    }
    if |sleptAt| == |batches| {
      var longer := sleptAt + [|Flatten(batches + [batch])|];
      forall k | 0 <= k < |longer|
        ensures DelayAt(longer, batches + [batch], k)
      {
        if k < |sleptAt| {
          assert DelayAt(sleptAt, batches + [batch], k);
        } else {
          assert (batches + [batch])[..k + 1] == batches + [batch];
        }
      }
    }
  }

  /** What `RunBatches` knows about the table and the counters after the
      batches so far: the batches came one after the other as fetched, each
      attempted row needed a summary at the start and ends as one attempt
      leaves it, `succeeded` counts the usable summaries, and the missing
      count falls by the successes outside dry run. */
  ghost predicate RunSoFar(docs0: seq<Document>, docs: seq<Document>, attempted: seq<nat>,
                           batches: seq<seq<nat>>, states: seq<seq<Document>>, succeeded: int, total: int,
                           batchSize: int, namespace: Option<string>, summarize: string -> Option<string>,
                           dryRun: bool) {
    InBatches(docs0, docs, batches, states, batchSize, namespace, summarize, dryRun) &&
    attempted == Flatten(batches) &&
    AllNeedSummary(attempted, docs0, namespace) &&
    RowsAfter(docs0, docs, attempted, summarize, dryRun) &&
    OnlyFilled(docs0, docs, namespace, summarize) &&
    succeeded == CountUsable(docs0, attempted, summarize) &&
    (dryRun ==> docs == docs0) &&
    (!dryRun ==> CountMissing(docs, namespace) + succeeded == total) &&
    (dryRun && batchSize >= 0 ==> AllIn(attempted, FetchBatch(docs0, batchSize, namespace)))
  }

  /** Before the first batch nothing has been attempted. */
  lemma RunSoFarStart(docs0: seq<Document>, total: int, batchSize: int, namespace: Option<string>,
                      summarize: string -> Option<string>, dryRun: bool)
    requires total == CountMissing(docs0, namespace)
    ensures RunSoFar(docs0, docs0, [], [], [docs0], 0, total, batchSize, namespace, summarize, dryRun)
  {
  }

  /** One more batch, fetched from the table as it stands and processed as
      `ProcessBatch` promises, keeps `RunSoFar`. */
  lemma RunSoFarStep(docs0: seq<Document>, mid: seq<Document>, docs: seq<Document>, attempted: seq<nat>,
                     batches: seq<seq<nat>>, states: seq<seq<Document>>, documents: seq<nat>,
                     succeededBefore: int, succeeded: int, total: int, batchSize: int,
                     namespace: Option<string>, summarize: string -> Option<string>, dryRun: bool)
    requires RunSoFar(docs0, mid, attempted, batches, states, succeededBefore, total,
                      batchSize, namespace, summarize, dryRun)
    requires batchSize >= 0 && documents != [] && documents == FetchBatch(mid, batchSize, namespace)
    requires RowsAfter(mid, docs, documents, summarize, dryRun)
    requires succeeded == succeededBefore + CountUsable(mid, documents, summarize)
    requires dryRun ==> docs == mid
    requires !dryRun ==> CountMissing(docs, namespace) + succeeded == CountMissing(mid, namespace) + succeededBefore
    ensures RunSoFar(docs0, docs, attempted + documents, batches + [documents], states + [docs], succeeded, total,
                     batchSize, namespace, summarize, dryRun)
  {
    RowsAfterBatch(docs0, mid, docs, attempted, documents, namespace, summarize, dryRun);
    AllNeedSummaryConcat(attempted, documents, docs0, namespace);
    CountUsableConcat(docs0, attempted, documents, summarize);
    if dryRun {
      AllInConcat(attempted, documents, documents);
    }
    InBatchesSnoc(docs0, mid, docs, batches, states, documents, batchSize, namespace, summarize, dryRun);
    RowsAfterOnlyFilled(docs0, docs, attempted + documents, namespace, summarize, dryRun);
  }

  /** The delays of the run: one after every batch that leaves `processed`
      below the total, each at the value `processed` had reached then. */
  ghost predicate DelaysBetween(sleptAt: seq<int>, batches: seq<seq<nat>>, processed: int, total: int) {
    SleptAfter(sleptAt, batches) &&
    (forall k :: 0 <= k < |sleptAt| ==> sleptAt[k] < total) &&
    |sleptAt| == if batches != [] && processed >= total then |batches| - 1 else |batches|
  }

  /** A batch that leaves `processed` below the total is followed by a delay. */
  lemma DelaysStep(sleptAt: seq<int>, batches: seq<seq<nat>>, batch: seq<nat>,
                    processedBefore: int, processed: int, total: int)
    requires DelaysBetween(sleptAt, batches, processedBefore, total) && processedBefore < total
    requires processedBefore == |Flatten(batches)| && processed == |Flatten(batches + [batch])|
    ensures DelaysBetween(if processed < total then sleptAt + [processed] else sleptAt,
                          batches + [batch], processed, total)
  {
    SleptSnoc(sleptAt, batches, batch);
  }

  /** How a run of `backfill_summaries` ends: no model configured, nothing
      to do, the loop finished, or the batch query raised (a negative
      LIMIT). */
  datatype Outcome = NotConfigured | NothingToDo | Completed | Failed

  /** `backfill_summaries`. Besides the outcome and the counters it returns
      the positions attempted, in order, and the value of `processed` at
      each inter-batch delay. */
  method Backfill(store: DocumentStore, model: string, batchSize: int, namespace: Option<string>,
                  dryRun: bool, summarize: string -> Option<string>)
    returns (outcome: Outcome, progress: BackfillProgress, attempted: seq<nat>, sleptAt: seq<int>,
             ghost batches: seq<seq<nat>>, ghost states: seq<seq<Document>>)
    requires store.Valid()
    modifies store
    ensures fresh(progress) && progress.Balanced() && store.Valid()
    ensures outcome == NotConfigured <==> model == []
    ensures model == [] ==> store.docs == old(store.docs) && attempted == []
    ensures model != [] ==> progress.totalDocuments == CountMissing(old(store.docs), namespace)
    ensures outcome == NothingToDo <==> model != [] && CountMissing(old(store.docs), namespace) == 0
    ensures outcome == NothingToDo ==> store.docs == old(store.docs) && attempted == []
    ensures outcome == Failed <==> model != [] && CountMissing(old(store.docs), namespace) > 0 && batchSize < 0
    ensures outcome == Failed ==> store.docs == old(store.docs) && attempted == []
    ensures outcome == Completed ==>
              batchSize >= 0 &&
              (progress.processed >= progress.totalDocuments || FetchBatch(store.docs, batchSize, namespace) == [])
    ensures progress.processed == |attempted|
    ensures AllNeedSummary(attempted, old(store.docs), namespace)
    ensures OnlyFilled(old(store.docs), store.docs, namespace, summarize)
    ensures RowsAfter(old(store.docs), store.docs, attempted, summarize, dryRun)
    ensures progress.succeeded == CountUsable(old(store.docs), attempted, summarize)
    ensures dryRun ==> store.docs == old(store.docs)
    ensures !dryRun ==> CountMissing(store.docs, namespace) + progress.succeeded == CountMissing(old(store.docs), namespace)
    ensures dryRun && batchSize >= 0 ==> AllIn(attempted, FetchBatch(old(store.docs), batchSize, namespace))
    ensures !dryRun && batchSize > 0 && outcome == Completed && progress.failed == 0 ==>
              CountMissing(store.docs, namespace) == 0
    ensures forall k :: 0 <= k < |sleptAt| ==> sleptAt[k] < progress.totalDocuments
    ensures InBatches(old(store.docs), store.docs, batches, states, batchSize, namespace, summarize, dryRun)
    ensures attempted == Flatten(batches)
    ensures SleptAfter(sleptAt, batches)
    ensures |sleptAt| == if batches != [] && progress.processed >= progress.totalDocuments then |batches| - 1 else |batches|
  {
    progress := new BackfillProgress();
    attempted, sleptAt := [], [];
    batches, states := [], [store.docs];
    if model == [] {
      return NotConfigured, progress, attempted, sleptAt, batches, states;
    }
    progress.totalDocuments := CountMissing(store.docs, namespace);
    if progress.totalDocuments == 0 {
      return NothingToDo, progress, attempted, sleptAt, batches, states;
    }
    outcome, attempted, sleptAt, batches, states := RunBatches(store, batchSize, namespace, dryRun, summarize, progress);
  }

  /** The `while progress.processed < progress.total_documents` loop. */
  method RunBatches(store: DocumentStore, batchSize: int, namespace: Option<string>,
                    dryRun: bool, summarize: string -> Option<string>, progress: BackfillProgress)
    returns (outcome: Outcome, attempted: seq<nat>, sleptAt: seq<int>,
             ghost batches: seq<seq<nat>>, ghost states: seq<seq<Document>>)
    requires store.Valid() && progress.Balanced() && progress.processed == 0
    requires progress.totalDocuments == CountMissing(store.docs, namespace) > 0
    modifies store, progress
    ensures progress.Balanced() && store.Valid()
    ensures progress.totalDocuments == old(progress.totalDocuments)
    ensures outcome != NotConfigured && outcome != NothingToDo
    ensures outcome == Failed <==> batchSize < 0
    ensures outcome == Failed ==> store.docs == old(store.docs) && attempted == []
    ensures outcome == Completed ==>
              batchSize >= 0 &&
              (progress.processed >= progress.totalDocuments || FetchBatch(store.docs, batchSize, namespace) == [])
    ensures progress.processed == |attempted|
    ensures RunSoFar(old(store.docs), store.docs, attempted, batches, states, progress.succeeded,
                     progress.totalDocuments, batchSize, namespace, summarize, dryRun)
    ensures DelaysBetween(sleptAt, batches, progress.processed, progress.totalDocuments)
  {
    attempted, sleptAt := [], [];
    ghost var docs0 := store.docs;
    batches, states := [], [docs0];
    RunSoFarStart(docs0, progress.totalDocuments, batchSize, namespace, summarize, dryRun);
    outcome := Completed;
    while progress.processed < progress.totalDocuments
      invariant progress.Balanced() && store.Valid()
      invariant progress.totalDocuments == old(progress.totalDocuments)
      invariant progress.processed == |attempted|
      invariant batchSize < 0 ==> progress.processed == 0 && store.docs == docs0
      invariant RunSoFar(docs0, store.docs, attempted, batches, states, progress.succeeded, progress.totalDocuments,
                         batchSize, namespace, summarize, dryRun)
      invariant DelaysBetween(sleptAt, batches, progress.processed, progress.totalDocuments)
      decreases progress.totalDocuments - progress.processed
    {
      if batchSize < 0 {
        return Failed, attempted, sleptAt, batches, states;
      }
      var documents := FetchBatch(store.docs, batchSize, namespace);
      if documents == [] {
        break;
      }
      ghost var mid, succeededBefore, processedBefore := store.docs, progress.succeeded, progress.processed;
      ProcessBatch(store, documents, namespace, dryRun, summarize, progress);
      RunSoFarStep(docs0, mid, store.docs, attempted, batches, states, documents, succeededBefore,
                   progress.succeeded, progress.totalDocuments, batchSize, namespace, summarize, dryRun);
      DelaysStep(sleptAt, batches, documents, processedBefore, progress.processed, progress.totalDocuments);
      attempted := attempted + documents;
      batches, states := batches + [documents], states + [store.docs];
      if progress.processed < progress.totalDocuments {
        sleptAt := sleptAt + [progress.processed];
      }
    }
  }

  /** The `for doc in documents` loop of one batch. */
  method ProcessBatch(store: DocumentStore, documents: seq<nat>, namespace: Option<string>, dryRun: bool,
                      summarize: string -> Option<string>, progress: BackfillProgress)
    requires store.Valid() && progress.Balanced()
    requires AllNeedSummary(documents, store.docs, namespace)
    requires forall k, l :: 0 <= k < l < |documents| ==> documents[k] < documents[l]
    modifies store, progress
    ensures store.Valid() && progress.Balanced()
    ensures progress.totalDocuments == old(progress.totalDocuments)
    ensures progress.processed == old(progress.processed) + |documents|
    ensures RowsAfter(old(store.docs), store.docs, documents, summarize, dryRun)
    ensures progress.succeeded == old(progress.succeeded) + CountUsable(old(store.docs), documents, summarize)
    ensures dryRun ==> store.docs == old(store.docs)
    ensures !dryRun ==>
              CountMissing(store.docs, namespace) + progress.succeeded
              == CountMissing(old(store.docs), namespace) + old(progress.succeeded)
  {
    ghost var before := store.docs;
    var j := 0;
    while j < |documents|
      invariant 0 <= j <= |documents|
      invariant store.Valid() && progress.Balanced()
      invariant progress.totalDocuments == old(progress.totalDocuments)
      invariant progress.processed == old(progress.processed) + j
      invariant |store.docs| == |before|
      invariant RowsAfter(before, store.docs, documents[..j], summarize, dryRun)
      invariant progress.succeeded == old(progress.succeeded) + CountUsable(before, documents[..j], summarize)
      invariant dryRun ==> store.docs == before
      invariant !dryRun ==>
                  CountMissing(store.docs, namespace) + progress.succeeded
                  == CountMissing(before, namespace) + old(progress.succeeded)
    {
      var pos := documents[j];
      ghost var current := store.docs;
      NotYetAttempted(before, current, documents, j, summarize, dryRun);
      var success := GenerateSummaryForDocument(store, pos, summarize, dryRun);
      assert success == Usable(summarize(before[pos].content));
      if success && !dryRun {
        CountAfterFill(current, pos, summarize(current[pos].content).value, namespace);
      }
      progress.Record(success);
      RowsAfterStep(before, current, store.docs, documents, j, summarize, dryRun);
      CountUsableStep(before, documents, j, summarize);
      j := j + 1;
    }
    assert documents[..j] == documents;
  }

  /** A row of the batch is untouched until its turn comes. */
  lemma NotYetAttempted(before: seq<Document>, current: seq<Document>, documents: seq<nat>, j: nat,
                        summarize: string -> Option<string>, dryRun: bool)
    requires j < |documents| && documents[j] < |current|
    requires forall k, l :: 0 <= k < l < |documents| ==> documents[k] < documents[l]
    requires RowsAfter(before, current, documents[..j], summarize, dryRun)
    ensures current[documents[j]] == before[documents[j]]
  {
    assert forall k :: 0 <= k < j ==> documents[..j][k] == documents[k] < documents[j];
  }

  /** The count over one more row of the batch. */
  lemma CountUsableStep(docs: seq<Document>, documents: seq<nat>, j: nat, summarize: string -> Option<string>)
    requires j < |documents| && documents[j] < |docs|
    ensures CountUsable(docs, documents[..j + 1], summarize)
            == CountUsable(docs, documents[..j], summarize)
               + (if Usable(summarize(docs[documents[j]].content)) then 1 else 0)
  {
    assert documents[..j + 1][..j] == documents[..j];
  }

  /** One more row of the batch attempted. */
  lemma RowsAfterStep(before: seq<Document>, current: seq<Document>, docs: seq<Document>,
                      documents: seq<nat>, j: nat, summarize: string -> Option<string>, dryRun: bool)
    requires j < |documents| && documents[j] < |current|
    requires forall k, l :: 0 <= k < l < |documents| ==> documents[k] < documents[l]
    requires RowsAfter(before, current, documents[..j], summarize, dryRun)
    requires current[documents[j]] == before[documents[j]]
    requires docs == current[documents[j] := Attempt(current[documents[j]], summarize, dryRun)]
    ensures RowsAfter(before, docs, documents[..j + 1], summarize, dryRun)
  {
    var pos := documents[j];
    assert documents[..j + 1] == documents[..j] + [pos];
    assert forall k :: 0 <= k < j ==> documents[..j][k] == documents[k] < pos;
  }
}
