/**
 * The remote database as the fixture builder sees it: how many revisions
 * each document id has, and a bulk write that adds one revision to each
 * document it is given and answers with one (id, rev) entry per document,
 * in the order of the request.
 */
module RemoteDb {
  import opened Wrappers

  /** Revision count per document id; an id that was never written is absent. */
  type Store = map<string, nat>

  /** A document in a bulk-write request: its `_id` and, for an update, its `_rev`. */
  datatype Doc = Doc(id: string, rev: Option<nat>)

  /** One entry of a bulk-write response. */
  datatype WriteResult = Written(id: string, rev: nat) | Conflict(id: string)

  /** The current revision of `id`, 0 when it does not exist. */
  function Rev(db: Store, id: string): nat {
    if id in db then db[id] else 0
  }

  /** A new document must come without `_rev`; an update must name the current revision. */
  predicate Accepts(current: nat, rev: Option<nat>) {
    match rev
    case None => current == 0
    case Some(r) => current > 0 && r == current
  }

  function Ids(docs: seq<Doc>): (ids: seq<string>)
    ensures |ids| == |docs|
  {
    seq(|docs|, j requires 0 <= j < |docs| => docs[j].id)
  }

  predicate DistinctIds(docs: seq<Doc>) {
    forall j, k :: 0 <= j < k < |docs| ==> docs[j].id != docs[k].id
  }

  /** Writes one document. */
  function Write(db: Store, d: Doc): (Store, WriteResult) {
    var current := Rev(db, d.id);
    if Accepts(current, d.rev)
    then (db[d.id := current + 1], Written(d.id, current + 1))
    else (db, Conflict(d.id))
  }

  /** `bulkDocs`: writes the documents in order; the response has one entry per document, in request order. */
  function BulkDocs(db: Store, docs: seq<Doc>): (r: (Store, seq<WriteResult>))
    ensures |r.1| == |docs|
    ensures forall j :: 0 <= j < |docs| ==> r.1[j].id == docs[j].id
    decreases |docs|
  {
    if docs == [] then (db, [])
    else
      var (db1, first) := Write(db, docs[0]);
      var (db2, rest) := BulkDocs(db1, docs[1..]);
      (db2, [first] + rest)
  }

  /** Every document of the batch will be accepted: ids are distinct and each carries the store's current revision. */
  predicate Ready(db: Store, docs: seq<Doc>) {
    && DistinctIds(docs)
    && forall j :: 0 <= j < |docs| ==> Accepts(Rev(db, docs[j].id), docs[j].rev)
  }

  lemma IdsCons(docs: seq<Doc>)
    requires docs != []
    ensures Ids(docs) == [docs[0].id] + Ids(docs[1..])
  {
  }

  /** Writing the first document of a ready batch succeeds and leaves the rest of the batch ready. */
  lemma FirstWriteOfReady(db: Store, docs: seq<Doc>)
    requires docs != [] && Ready(db, docs)
    ensures Write(db, docs[0]) == (db[docs[0].id := Rev(db, docs[0].id) + 1], Written(docs[0].id, Rev(db, docs[0].id) + 1))
    ensures docs[0].id !in Ids(docs[1..])
    ensures Ready(Write(db, docs[0]).0, docs[1..])
  {
  }

  /**
   * A ready batch is written without conflict: every document gets the
   * next revision, the response reports it, and no other document changes.
   */
  lemma {:induction false} BulkDocsReady(db: Store, docs: seq<Doc>)
    requires Ready(db, docs)
    ensures forall j :: 0 <= j < |docs| ==>
      BulkDocs(db, docs).1[j] == Written(docs[j].id, Rev(db, docs[j].id) + 1)
    ensures forall id :: Rev(BulkDocs(db, docs).0, id) == if id in Ids(docs) then Rev(db, id) + 1 else Rev(db, id)
    decreases |docs|
  {
    if docs != [] {
      var d, rest := docs[0], docs[1..];
      FirstWriteOfReady(db, docs);
      var db1 := Write(db, d).0;
      BulkDocsReady(db1, rest);
      IdsCons(docs);
      var r := BulkDocs(db, docs);
      assert r.1 == [Written(d.id, Rev(db, d.id) + 1)] + BulkDocs(db1, rest).1;
      forall j | 0 <= j < |docs|
        ensures r.1[j] == Written(docs[j].id, Rev(db, docs[j].id) + 1)
      {
        if j > 0 {
          assert r.1[j] == BulkDocs(db1, rest).1[j - 1];
          assert rest[j - 1] == docs[j];
          assert Rev(db1, docs[j].id) == Rev(db, docs[j].id) by {
            assert docs[j].id in Ids(rest) by { assert Ids(rest)[j - 1] == docs[j].id; }
          }
        }
      }
    } else {
      assert Ids(docs) == [];
    }
  }

  /** A ready batch adds exactly its ids to the keys of the store. */
  lemma {:induction false} BulkDocsReadyKeys(db: Store, docs: seq<Doc>)
    requires Ready(db, docs)
    ensures BulkDocs(db, docs).0.Keys == db.Keys + set id | id in Ids(docs)
    decreases |docs|
  {
    if docs != [] {
      FirstWriteOfReady(db, docs);
      BulkDocsReadyKeys(Write(db, docs[0]).0, docs[1..]);
      IdsCons(docs);
    } else {
      assert Ids(docs) == [];
    }
  }
}
