/**
 * The persistent state the service works on: the Dataset, Datasource and
 * DatasourceEvent tables. Each table is a sequence of records in storage order;
 * references between records are indices (datasources and datasets are never
 * deleted, so an index stays valid).
 */
module Store {
  import opened Wrappers
  import opened Api

  datatype DatasetStatus = Initializing | Ingesting | ReadyForProcessing | Processing | Idle | ProcessingError

  datatype DatasourceStatus =
    | Initializing | Ingesting | ReadyForProcessing | Processing | ReadyForNextProcessing | Idle | ProcessingError

  datatype EventStatus = Ingesting | ReadyForProcessing | Processed | ProcessingError

  /** A Dataset: the container of a domain's datasources. */
  datatype Dataset = Dataset(
    name: string,
    status: DatasetStatus,
    updatedAt: int,
    latestTxid: Txid,
    datasources: set<nat>)

  /** A Datasource: one repository branch of a domain, keyed by its purl. */
  datatype Datasource = Datasource(
    purl: string,
    domain: string,
    name: string,
    commitBranch: string,
    datasourceType: string,
    numberEventsReceived: int,
    numberEventProcessingErrors: int,
    firstEventReceivedAt: int,
    lastEventReceivedAt: int,
    lastEventReceivedStatus: string,
    status: DatasourceStatus,
    latestTxid: Txid,
    datasets: set<nat>)

  /** A DatasourceEvent: one submitted commit snapshot, keyed by the full event purl. */
  datatype Event = Event(
    purl: string,
    datasource: nat,
    txid: Txid,
    commitHash: string,
    commitBranch: string,
    commitDateTime: string,
    eventDateTime: int,
    status: EventStatus,
    payload: Option<seq<bv8>>)

  /** The three tables at one instant. */
  datatype Tables = Tables(datasets: seq<Dataset>, datasources: seq<Datasource>, events: seq<Event>)

  /** Every reference points at an existing record. */
  predicate ValidTables(t: Tables) {
    && (forall d, k :: d in t.datasets && k in d.datasources ==> k < |t.datasources|)
    && (forall s, j :: s in t.datasources && j in s.datasets ==> j < |t.datasets|)
    && (forall e :: e in t.events ==> e.datasource < |t.datasources|)
  }

  /** The unique-key constraints: dataset names, datasource purls and event purls. */
  predicate UniqueKeys(t: Tables) {
    && (forall i, j :: 0 <= i < j < |t.datasets| ==> t.datasets[i].name != t.datasets[j].name)
    && (forall i, j :: 0 <= i < j < |t.datasources| ==> t.datasources[i].purl != t.datasources[j].purl)
    && (forall i, j :: 0 <= i < j < |t.events| ==> t.events[i].purl != t.events[j].purl)
  }

  /**
   * A repository `findAllBy...` query: the positions of the records that satisfy `p`,
   * in storage order (so `r[0]`, the record `.get(0)` returns, is the first match).
   */
  function Positions<T>(s: seq<T>, p: T -> bool): (r: seq<nat>)
    ensures forall k: nat :: k in r <==> k < |s| && p(s[k])
    ensures forall a :: 0 <= a < |r| ==> r[a] < |s| && p(s[r[a]])
    ensures forall a, b :: 0 <= a < b < |r| ==> r[a] < r[b]
    ensures |r| > 0 ==> forall k :: 0 <= k < r[0] ==> !p(s[k])
    ensures |r| <= |s|
    decreases |s|
  {
    if s == [] then []
    else
      var n := |s| - 1;
      var before := Positions(s[..n], p);
      var r := if p(s[n]) then before + [n] else before;
      PositionsExtend(s, s[..n], p, before, r);
      r
  }

  /** The step of `Positions`: the positions in all but the last record, then the last one if it matches. */
  lemma PositionsExtend<T>(s: seq<T>, init: seq<T>, p: T -> bool, before: seq<nat>, r: seq<nat>)
    requires |s| > 0 && init == s[..|s| - 1]
    requires forall k: nat :: k in before <==> k < |init| && p(init[k])
    requires forall a :: 0 <= a < |before| ==> before[a] < |init| && p(init[before[a]])
    requires forall a, b :: 0 <= a < b < |before| ==> before[a] < before[b]
    requires |before| > 0 ==> forall k :: 0 <= k < before[0] ==> !p(init[k])
    requires |before| <= |init|
    requires r == if p(s[|s| - 1]) then before + [|s| - 1] else before
    ensures forall k: nat :: k in r <==> k < |s| && p(s[k])
    ensures forall a :: 0 <= a < |r| ==> r[a] < |s| && p(s[r[a]])
    ensures forall a, b :: 0 <= a < b < |r| ==> r[a] < r[b]
    ensures |r| > 0 ==> forall k :: 0 <= k < r[0] ==> !p(s[k])
    ensures |r| <= |s|
  {
    var n := |s| - 1;
    assert forall k: nat :: k < n ==> init[k] == s[k];
    if p(s[n]) {
      if |before| == 0 {
        forall k | 0 <= k < n ensures !p(s[k]) {
          assert k !in before;
          assert init[k] == s[k];
        }
      } else {
        assert r[0] == before[0];
      }
    }
  }

  /** A query nothing satisfies returns no record. */
  lemma {:induction false} PositionsOfNone<T>(s: seq<T>, p: T -> bool)
    requires forall k :: 0 <= k < |s| ==> !p(s[k])
    ensures Positions(s, p) == []
    decreases |s|
  {
    if s != [] {
      var n := |s| - 1;
      PositionsOfNone(s[..n], p);
    }
  }

  /** A query exactly one record satisfies returns that record alone. */
  lemma {:induction false} PositionsOfUnique<T>(s: seq<T>, p: T -> bool, i: nat)
    requires i < |s| && p(s[i])
    requires forall k :: 0 <= k < |s| && k != i ==> !p(s[k])
    ensures Positions(s, p) == [i]
    decreases |s|
  {
    var n := |s| - 1;
    if n == i {
      PositionsOfNone(s[..n], p);
    } else {
      PositionsOfUnique(s[..n], p, i);
    }
  }

  /** A query that at most one record can satisfy returns at most one position. */
  lemma {:induction false} PositionsAtMostOne<T>(s: seq<T>, p: T -> bool)
    requires forall i, j :: 0 <= i < j < |s| && p(s[i]) ==> !p(s[j])
    ensures |Positions(s, p)| <= 1
    decreases |s|
  {
    if s != [] {
      var n := |s| - 1;
      if p(s[n]) {
        PositionsOfNone(s[..n], p);
      } else {
        PositionsAtMostOne(s[..n], p);
      }
    }
  }

  /** The filters of the repository queries. */
  function DatasetNamed(name: string): Dataset -> bool {
    (d: Dataset) => d.name == name
  }

  function DatasourceWithPurl(purl: string): Datasource -> bool {
    (s: Datasource) => s.purl == purl
  }

  function EventWithPurl(purl: string): Event -> bool {
    (e: Event) => e.purl == purl
  }

  function EventWithTxid(txid: Txid): Event -> bool {
    (e: Event) => e.txid == txid
  }

  /** Under the unique-key constraints a lookup by key finds at most one record. */
  lemma UniqueKeysAtMostOne(t: Tables, name: string, purl: string)
    requires UniqueKeys(t)
    ensures |Positions(t.datasets, DatasetNamed(name))| <= 1
    ensures |Positions(t.datasources, DatasourceWithPurl(purl))| <= 1
    ensures |Positions(t.events, EventWithPurl(purl))| <= 1
  {
    PositionsAtMostOne(t.datasets, DatasetNamed(name));
    PositionsAtMostOne(t.datasources, DatasourceWithPurl(purl));
    PositionsAtMostOne(t.events, EventWithPurl(purl));
  }

  /** The tables, held in place; the repositories' saves and deletes assign them. */
  class Store {
    var datasets: seq<Dataset>
    var datasources: seq<Datasource>
    var events: seq<Event>

    function Snapshot(): Tables
      reads this
    {
      Tables(datasets, datasources, events)
    }

    constructor()
      ensures Snapshot() == Tables([], [], [])
    {
      datasets, datasources, events := [], [], [];
    }
  }
}
