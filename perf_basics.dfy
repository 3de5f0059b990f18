/**
 * The pull-replication benchmark case `PullRequestTestObject`: its
 * configuration check, the record it hands to the benchmark runner, and
 * `setup`, which opens one local database per iteration and builds the
 * remote fixture of `numberDocs` documents with `generations` revisions each.
 */
module PerfBasics {
  import opened Wrappers
  import opened Decimal
  import opened DocIds
  import opened RemoteDb
  import opened Generations

  /** The configuration record a test case is built from. */
  datatype Config = Config(
    name: string,
    iterations: int,
    generations: int,
    numberDocs: int,
    batchSize: int,
    addedLatencyInMs: int,
    maxSockets: int)

  /** A local database, opened under a random name. */
  datatype LocalDb = LocalDb(name: string)

  /**
   * What the constructor returns to the benchmark runner. The `setup`,
   * `test` and `tearDown` closures all act on `harness`.
   */
  datatype TestCase = TestCase(name: string, assertions: nat, iterations: int, harness: PullRequestTestObject)

  const GenerationsError: string := "generations must be > 0"

  /** The ids of a fixture of `n` documents, in creation order. */
  function FixtureIds(n: int): (ids: seq<string>)
    ensures |ids| == if n < 0 then 0 else n
  {
    seq(if n < 0 then 0 else n, k requires 0 <= k => DocId(k))
  }

  /** The remote store after `setup`: every fixture document with `generations` revisions. */
  function FixtureStore(n: int, generations: nat): Store {
    map id | id in FixtureIds(n) :: generations
  }

  class PullRequestTestObject {
    const generations: int
    const numberDocs: int
    const batchSize: int
    const maxSockets: int
    const iterations: int
    const addedLatencyInMs: int
    var localPouches: seq<LocalDb>
    /** The remote database; it does not exist before `setup`. */
    var remoteDb: Option<Store>
    /** Every batch `setup` handed to the remote `bulkDocs`, in order. */
    ghost var bulkWrites: seq<seq<Doc>>

    /** The configuration check guarantees at least one generation. */
    predicate Valid() {
      generations > 0
    }

    constructor (config: Config)
      requires config.generations > 0
      ensures Valid()
      ensures generations == config.generations && numberDocs == config.numberDocs
      ensures batchSize == config.batchSize && maxSockets == config.maxSockets
      ensures iterations == config.iterations && addedLatencyInMs == config.addedLatencyInMs
      ensures localPouches == [] && remoteDb == None && bulkWrites == []
    {
      generations := config.generations;
      numberDocs := config.numberDocs;
      batchSize := config.batchSize;
      maxSockets := config.maxSockets;
      iterations := config.iterations;
      addedLatencyInMs := config.addedLatencyInMs;
      localPouches := [];
      remoteDb := None;
      bulkWrites := [];
    }

    /**
     * `setup`: opens local database `k` under `dbName(k)` for every iteration
     * `k`, creates a fresh remote database, and writes the fixture
     * `generations` times through `addGeneration`.
     */
    method Setup(dbName: nat -> string)
      requires Valid()
      modifies this
      ensures |localPouches| == if iterations <= |old(localPouches)| then |old(localPouches)| else iterations
      ensures forall k :: 0 <= k < iterations ==> localPouches[k] == LocalDb(dbName(k))
      ensures forall k :: 0 <= k < |old(localPouches)| && !(k < iterations) ==> localPouches[k] == old(localPouches)[k]
      ensures remoteDb == Some(FixtureStore(numberDocs, generations))
      ensures |bulkWrites| == generations
      ensures forall k :: 0 <= k < |bulkWrites| ==> Ids(bulkWrites[k]) == FixtureIds(numberDocs)
      ensures forall k, j :: 0 <= k < |bulkWrites| && 0 <= j < |bulkWrites[k]| ==>
        bulkWrites[k][j].rev == if k == 0 then None else Some(k)
    {
      var i := 0;
      while i < iterations
        invariant 0 <= i <= |localPouches|
        invariant i <= iterations || i == 0
        invariant |localPouches| == if i <= |old(localPouches)| then |old(localPouches)| else i
        invariant forall k :: 0 <= k < i ==> localPouches[k] == LocalDb(dbName(k))
        invariant forall k :: i <= k < |old(localPouches)| ==> localPouches[k] == old(localPouches)[k]
      {
        if i < |localPouches| {
          localPouches := localPouches[i := LocalDb(dbName(i))];
        } else {
          localPouches := localPouches + [LocalDb(dbName(i))];
        }
        i := i + 1;
      }

      var docs := BuildDocs(numberDocs);
      var (db, writes) := AddGeneration(generations, map[], docs);
      FixtureStoreAfterGenerations(generations, numberDocs, docs);
      FixtureBatchesAfterGenerations(generations, numberDocs, docs);
      remoteDb := Some(db);
      bulkWrites := writes;
    }
  }

  /**
   * Builds a test case from `config`: fails when `generations` is not
   * positive; otherwise one assertion, the configured iterations, and a
   * fresh harness holding the configuration.
   */
  method NewPullRequestTest(config: Config) returns (r: Result<TestCase, string>)
    ensures r.Failure? <==> config.generations <= 0
    ensures r.Failure? ==> r.error == GenerationsError
    ensures r.Success? ==>
      && r.value.name == config.name
      && r.value.assertions == 1
      && r.value.iterations == config.iterations
      && fresh(r.value.harness)
      && r.value.harness.Valid()
      && r.value.harness.generations == config.generations
      && r.value.harness.numberDocs == config.numberDocs
      && r.value.harness.batchSize == config.batchSize
      && r.value.harness.maxSockets == config.maxSockets
      && r.value.harness.iterations == config.iterations
      && r.value.harness.addedLatencyInMs == config.addedLatencyInMs
      && r.value.harness.localPouches == []
      && r.value.harness.remoteDb == None
  {
    if config.generations <= 0 {
      return Failure(GenerationsError);
    }
    var harness := new PullRequestTestObject(config);
    r := Success(TestCase(config.name, 1, harness.iterations, harness));
  }

  /** The documents loop of `setup`: document `k` gets id `createDocId(k)` and no revision. */
  method BuildDocs(numberDocs: int) returns (docs: seq<Doc>)
    ensures Ids(docs) == FixtureIds(numberDocs)
    ensures forall j :: 0 <= j < |docs| ==> docs[j].rev == None
  {
    docs := [];
    var i := 0;
    while i < numberDocs
      invariant 0 <= i && (i <= numberDocs || i == 0)
      invariant |docs| == i
      invariant forall j :: 0 <= j < i ==> docs[j] == Doc(DocId(j), None)
    {
      var id := CreateDocId(i);
      docs := docs + [Doc(id, None)];
      i := i + 1;
    }
  }

  /** No two fixture documents share an id. */
  lemma FixtureIdsDistinct(n: int)
    ensures forall j, k :: 0 <= j < k < |FixtureIds(n)| ==> FixtureIds(n)[j] != FixtureIds(n)[k]
  {
    forall j, k | 0 <= j < k < |FixtureIds(n)|
      ensures FixtureIds(n)[j] != FixtureIds(n)[k]
    {
      DocIdInjective(j, k);
    }
  }

  /** Up to `10^10` documents, the fixture ids come in ascending key order. */
  lemma FixtureIdsAscending(n: int)
    requires n <= Pow10(Width)
    ensures forall j, k :: 0 <= j < k < |FixtureIds(n)| ==> LexLess(FixtureIds(n)[j], FixtureIds(n)[k])
  {
    forall j, k | 0 <= j < k < |FixtureIds(n)|
      ensures LexLess(FixtureIds(n)[j], FixtureIds(n)[k])
    {
      DocIdOrder(j, k);
    }
  }

  /**
   * Writing a freshly built fixture `generations` times into an empty store
   * leaves every fixture document, and nothing else, with `generations`
   * revisions.
   */
  lemma FixtureStoreAfterGenerations(generations: int, n: int, docs: seq<Doc>)
    requires generations >= 1
    requires Ids(docs) == FixtureIds(n)
    requires forall j :: 0 <= j < |docs| ==> docs[j].rev == None
    ensures AddGeneration(generations, map[], docs).0 == FixtureStore(n, generations)
  {
    var empty: Store := map[];
    FixtureReady(docs, n);
    AddGenerationStore(generations, empty, docs);
    var db := AddGeneration(generations, empty, docs).0;
    forall id | id in db ensures id in FixtureIds(n) && db[id] == generations {
      assert Rev(db, id) == db[id];
    }
  }

  /**
   * Writing a freshly built fixture `generations` times into an empty store
   * takes `generations` bulk writes, each with the fixture ids in order, the
   * first without revisions and write `k` with revision `k`.
   */
  lemma FixtureBatchesAfterGenerations(generations: int, n: int, docs: seq<Doc>)
    requires generations >= 1
    requires Ids(docs) == FixtureIds(n)
    requires forall j :: 0 <= j < |docs| ==> docs[j].rev == None
    ensures |AddGeneration(generations, map[], docs).1| == generations
    ensures forall k :: 0 <= k < generations ==> Ids(AddGeneration(generations, map[], docs).1[k]) == FixtureIds(n)
    ensures forall k, j :: 0 <= k < generations && 0 <= j < |docs| ==>
      |AddGeneration(generations, map[], docs).1[k]| == |docs| &&
      AddGeneration(generations, map[], docs).1[k][j].rev == if k == 0 then None else Some(k)
  {
    var empty: Store := map[];
    FixtureReady(docs, n);
    AddGenerationCarriesRevisions(generations, empty, docs);
    var writes: seq<seq<Doc>> := AddGeneration(generations, empty, docs).1;
    forall k, j | 0 <= k < |writes| && 0 <= j < |docs|
      ensures writes[k][j].rev == if k == 0 then None else Some(k)
    {
      assert Rev(empty, docs[j].id) == 0;
    }
  }

  /** A freshly built fixture is ready to be written to an empty store. */
  lemma FixtureReady(docs: seq<Doc>, n: int)
    requires Ids(docs) == FixtureIds(n)
    requires forall j :: 0 <= j < |docs| ==> docs[j].rev == None
    ensures Ready(map[], docs)
  {
    FixtureIdsDistinct(n);
    forall j, k | 0 <= j < k < |docs|
      ensures docs[j].id != docs[k].id
    {
      assert docs[j].id == Ids(docs)[j] && docs[k].id == Ids(docs)[k];
    }
  }
}
