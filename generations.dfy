/**
 * `addGeneration`: the countdown recursion that gives every fixture
 * document its revision history. Each step issues one bulk write,
 * decrements the counter, and either stops or builds the next batch from
 * the response of that write.
 */
module Generations {
  import opened Wrappers
  import opened RemoteDb

  /**
   * The next batch built from a response, `bulkDocsResponse.map(...)`: one
   * document per entry, in the same order, with `_id` from `id` and `_rev`
   * from `rev` (undefined when the entry reports a conflict).
   */
  function UpdatedDocs(response: seq<WriteResult>): (docs: seq<Doc>)
    ensures |docs| == |response|
    ensures forall j :: 0 <= j < |response| ==> docs[j].id == response[j].id
    ensures forall j :: 0 <= j < |response| ==>
      docs[j].rev == if response[j].Written? then Some(response[j].rev) else None
  {
    seq(|response|, j requires 0 <= j < |response| =>
      match response[j]
      case Written(id, rev) => Doc(id, Some(rev))
      case Conflict(id) => Doc(id, None))
  }

  /**
   * Runs `addGeneration(count, docs)` against `db`. Returns the final store
   * and every batch handed to `bulkDocs`, in the order they were written.
   */
  function AddGeneration(count: int, db: Store, docs: seq<Doc>): (r: (Store, seq<seq<Doc>>))
    ensures |r.1| == if count <= 1 then 1 else count
    ensures r.1[0] == docs
    decreases count
  {
    var (db1, response) := BulkDocs(db, docs);
    var remaining := count - 1;
    if remaining <= 0 then (db1, [docs])
    else
      var (db2, later) := AddGeneration(remaining, db1, UpdatedDocs(response));
      (db2, [docs] + later)
  }

  /** The batch built from the response to a ready batch is ready in the store that write produced. */
  lemma NextBatchReady(db: Store, docs: seq<Doc>)
    requires Ready(db, docs)
    ensures Ids(UpdatedDocs(BulkDocs(db, docs).1)) == Ids(docs)
    ensures forall j :: 0 <= j < |docs| ==> UpdatedDocs(BulkDocs(db, docs).1)[j].rev == Some(Rev(db, docs[j].id) + 1)
    ensures forall j :: 0 <= j < |docs| ==> Rev(BulkDocs(db, docs).0, docs[j].id) == Rev(db, docs[j].id) + 1
    ensures Ready(BulkDocs(db, docs).0, UpdatedDocs(BulkDocs(db, docs).1))
  {
    BulkDocsReady(db, docs);
    var (db1, response) := BulkDocs(db, docs);
    var next := UpdatedDocs(response);
    forall j | 0 <= j < |docs|
      ensures next[j] == Doc(docs[j].id, Some(Rev(db, docs[j].id) + 1))
      ensures Rev(db1, docs[j].id) == Rev(db, docs[j].id) + 1
    {
      assert docs[j].id == Ids(docs)[j];
    }
  }

  /**
   * From a ready batch, `count >= 1` generations leave every document of the
   * batch `count` revisions further on, add its ids to the store and change
   * no other document.
   */
  lemma {:induction false} AddGenerationStore(count: int, db: Store, docs: seq<Doc>)
    requires count >= 1 && Ready(db, docs)
    ensures var final := AddGeneration(count, db, docs).0;
      && (forall id :: Rev(final, id) == (if id in Ids(docs) then Rev(db, id) + count else Rev(db, id)))
      && final.Keys == db.Keys + set id | id in Ids(docs)
    decreases count
  {
    BulkDocsReady(db, docs);
    BulkDocsReadyKeys(db, docs);
    if count > 1 {
      var (db1, response) := BulkDocs(db, docs);
      var next := UpdatedDocs(response);
      NextBatchReady(db, docs);
      AddGenerationStore(count - 1, db1, next);
      var final := AddGeneration(count, db, docs).0;
      assert final == AddGeneration(count - 1, db1, next).0;
      assert Ids(next) == Ids(docs);
      forall id
        ensures Rev(final, id) == (if id in Ids(docs) then Rev(db, id) + count else Rev(db, id))
      {
      }
    }
  }

  /** Every batch has the ids of `docs`, in the same order. */
  predicate SameIds(batches: seq<seq<Doc>>, docs: seq<Doc>) {
    forall k :: 0 <= k < |batches| ==> |batches[k]| == |docs| && Ids(batches[k]) == Ids(docs)
  }

  /** Batch `k` after the first carries, for each document, revision `k` past its revision in `db`. */
  predicate CarriesRevisions(batches: seq<seq<Doc>>, db: Store, docs: seq<Doc>)
    requires SameIds(batches, docs)
  {
    forall k, j :: 1 <= k < |batches| && 0 <= j < |docs| ==>
      batches[k][j].rev == Some(Rev(db, docs[j].id) + k)
  }

  /** From a ready batch, every batch written has the ids of the first, in the same order. */
  lemma {:induction false} AddGenerationKeepsIds(count: int, db: Store, docs: seq<Doc>)
    requires count >= 1 && Ready(db, docs)
    ensures SameIds(AddGeneration(count, db, docs).1, docs)
    decreases count
  {
    if count > 1 {
      var (db1, response) := BulkDocs(db, docs);
      var next := UpdatedDocs(response);
      NextBatchReady(db, docs);
      AddGenerationKeepsIds(count - 1, db1, next);
      var batches: seq<seq<Doc>> := AddGeneration(count, db, docs).1;
      var later: seq<seq<Doc>> := AddGeneration(count - 1, db1, next).1;
      assert batches == [docs] + later;
      forall k | 0 <= k < |batches|
        ensures |batches[k]| == |docs| && Ids(batches[k]) == Ids(docs)
      {
        if k > 0 {
          assert batches[k] == later[k - 1];
        }
      }
    }
  }

  /** Prepending a batch to batches that carry revisions from the next store. */
  lemma PrependCarries(db: Store, docs: seq<Doc>, db1: Store, next: seq<Doc>, later: seq<seq<Doc>>)
    requires |next| == |docs|
    requires forall j :: 0 <= j < |docs| ==>
      && next[j].id == docs[j].id
      && next[j].rev == Some(Rev(db, docs[j].id) + 1)
      && Rev(db1, docs[j].id) == Rev(db, docs[j].id) + 1
    requires later != [] && later[0] == next
    requires SameIds(later, next) && CarriesRevisions(later, db1, next)
    ensures SameIds([docs] + later, docs)
    ensures CarriesRevisions([docs] + later, db, docs)
  {
  }

  /**
   * From a ready batch, each batch after the first carries the revisions the
   * previous write returned: batch `k` is `k` revisions past the store's
   * starting one.
   */
  lemma {:induction false} AddGenerationCarriesRevisions(count: int, db: Store, docs: seq<Doc>)
    requires count >= 1 && Ready(db, docs)
    ensures SameIds(AddGeneration(count, db, docs).1, docs)
    ensures CarriesRevisions(AddGeneration(count, db, docs).1, db, docs)
    decreases count
  {
    AddGenerationKeepsIds(count, db, docs);
    if count > 1 {
      var (db1, response) := BulkDocs(db, docs);
      var next := UpdatedDocs(response);
      NextBatchReady(db, docs);
      AddGenerationCarriesRevisions(count - 1, db1, next);
      forall j | 0 <= j < |docs|
        ensures next[j].id == docs[j].id
      {
        assert Ids(next)[j] == Ids(docs)[j];
      }
      PrependCarries(db, docs, db1, next, AddGeneration(count - 1, db1, next).1);
    }
  }
}
