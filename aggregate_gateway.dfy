/**
 * The aggregate helpers (`HibernateHelper`): create-or-fetch of a Dataset and of a
 * Datasource, and the three ways of recording a failed event against its Datasource.
 * Each operation is a function on the tables (its specification) and a method that
 * performs it on the store in place.
 */
module AggregateGateway {
  import opened Wrappers
  import opened Api
  import opened Store

  /** The exceptions the helpers throw. */
  datatype Failure = IllegalState | IllegalArgument

  /** The statuses a fetched Dataset keeps instead of moving to INGESTING. */
  predicate KeepsDatasetStatus(s: DatasetStatus) {
    s == DatasetStatus.Initializing || s == DatasetStatus.Processing
  }

  /** The statuses a fetched Datasource keeps instead of moving to INGESTING. */
  predicate KeepsDatasourceStatus(s: DatasourceStatus) {
    s == DatasourceStatus.Initializing || s == DatasourceStatus.Processing || s == DatasourceStatus.ReadyForNextProcessing
  }

  /**
   * `fetchOrMakeAndFetchDatasetRecord`: no dataset with the name creates an
   * INITIALIZING one with no datasources; several throw; one is refreshed (txid and
   * updatedAt always, status to INGESTING unless it is INITIALIZING or PROCESSING).
   */
  function UpsertDataset(t: Tables, name: string, at: int, txid: Txid): (r: (Tables, Result<nat, Failure>))
    ensures r.0.datasources == t.datasources && r.0.events == t.events
    ensures r.1.Err? <==> |Positions(t.datasets, DatasetNamed(name))| > 1
    ensures r.1.Err? ==> r.0 == t && r.1.error == IllegalState
    ensures r.1.Ok? ==>
      var i := r.1.value;
      && i < |r.0.datasets| && |r.0.datasets| == |t.datasets| + (if i < |t.datasets| then 0 else 1)
      && (forall k :: 0 <= k < |t.datasets| && k != i ==> r.0.datasets[k] == t.datasets[k])
      && r.0.datasets[i].name == name && r.0.datasets[i].updatedAt == at && r.0.datasets[i].latestTxid == txid
      && (if i < |t.datasets| then
            && t.datasets[i].name == name
            && r.0.datasets[i].datasources == t.datasets[i].datasources
            && r.0.datasets[i].status
               == (if KeepsDatasetStatus(t.datasets[i].status) then t.datasets[i].status else DatasetStatus.Ingesting)
          else
            && (forall k :: 0 <= k < |t.datasets| ==> t.datasets[k].name != name)
            && r.0.datasets[i].status == DatasetStatus.Initializing && r.0.datasets[i].datasources == {})
  {
    var found := Positions(t.datasets, DatasetNamed(name));
    if |found| == 0 then
      (t.(datasets := t.datasets + [Dataset(name, DatasetStatus.Initializing, at, txid, {})]), Ok(|t.datasets|))
    else if |found| > 1 then
      (t, Err(IllegalState))
    else
      var i := found[0];
      assert i in found;
      var d := t.datasets[i];
      var refreshed := d.(latestTxid := txid, updatedAt := at,
                          status := if KeepsDatasetStatus(d.status) then d.status else DatasetStatus.Ingesting);
      (t.(datasets := t.datasets[i := refreshed]), Ok(i))
  }

  /** A fresh Datasource record, as the helper builds it for a purl seen for the first time. */
  function NewDatasource(dataset: nat, purl: string, domain: string, packedName: string, datasourceType: string,
                         commitBranch: string, at: int, txid: Txid): Datasource
  {
    Datasource(purl, domain, packedName, commitBranch, datasourceType, 1, 0, at, at, AcceptedPhrase,
               DatasourceStatus.Initializing, txid, {dataset})
  }

  /**
   * `fetchOrMakeAndFetchDatasourceRecord`: no datasource with the purl creates one
   * (one event received, first and last event time `at`, INITIALIZING, "Accepted",
   * owned by `dataset`); otherwise the first match is refreshed: one more event, last
   * event time and txid updated, status phrase "Accepted", first event time kept, and
   * status to INGESTING unless it is INITIALIZING, PROCESSING or READY_FOR_NEXT_PROCESSING.
   */
  function UpsertDatasource(t: Tables, dataset: nat, purl: string, domain: string, packedName: string,
                            datasourceType: string, commitBranch: string, at: int, txid: Txid): (r: (Tables, nat))
    ensures r.0.datasets == t.datasets && r.0.events == t.events
    ensures
      var i := r.1;
      && i < |r.0.datasources| && |r.0.datasources| == |t.datasources| + (if i < |t.datasources| then 0 else 1)
      && (forall k :: 0 <= k < |t.datasources| && k != i ==> r.0.datasources[k] == t.datasources[k])
      && r.0.datasources[i].purl == purl
      && r.0.datasources[i].lastEventReceivedAt == at && r.0.datasources[i].latestTxid == txid
      && r.0.datasources[i].lastEventReceivedStatus == AcceptedPhrase
      && (if i < |t.datasources| then
            var old_ := t.datasources[i];
            && old_.purl == purl
            && (forall k :: 0 <= k < i ==> t.datasources[k].purl != purl)
            && r.0.datasources[i] == old_.(lastEventReceivedAt := at, lastEventReceivedStatus := AcceptedPhrase,
                 latestTxid := txid, numberEventsReceived := old_.numberEventsReceived + 1,
                 status := if KeepsDatasourceStatus(old_.status) then old_.status else DatasourceStatus.Ingesting)
          else
            && (forall k :: 0 <= k < |t.datasources| ==> t.datasources[k].purl != purl)
            && r.0.datasources[i] == NewDatasource(dataset, purl, domain, packedName, datasourceType, commitBranch, at, txid))
  {
    var found := Positions(t.datasources, DatasourceWithPurl(purl));
    if |found| == 0 then
      (t.(datasources := t.datasources + [NewDatasource(dataset, purl, domain, packedName, datasourceType, commitBranch, at, txid)]),
       |t.datasources|)
    else
      var i := found[0];
      assert i in found;
      assert forall k :: 0 <= k < i ==> !DatasourceWithPurl(purl)(t.datasources[k]);
      var s := t.datasources[i];
      var refreshed := s.(lastEventReceivedAt := at, lastEventReceivedStatus := AcceptedPhrase, latestTxid := txid,
                          status := if KeepsDatasourceStatus(s.status) then s.status else DatasourceStatus.Ingesting,
                          numberEventsReceived := s.numberEventsReceived + 1);
      (t.(datasources := t.datasources[i := refreshed]), i)
  }

  /**
   * The Datasource overload of `recordErrorAndGetApiResponse`: one more processing
   * error, the status phrase recorded, and PROCESSING_ERROR unless it is PROCESSING.
   */
  function WithError(s: Datasource, statusPhrase: string): (r: Datasource)
    ensures r.numberEventProcessingErrors == s.numberEventProcessingErrors + 1
    ensures r.lastEventReceivedStatus == statusPhrase
    ensures r.status == DatasourceStatus.Processing || r.status == DatasourceStatus.ProcessingError
    ensures r.status == DatasourceStatus.Processing <==> s.status == DatasourceStatus.Processing
    ensures r.(numberEventProcessingErrors := s.numberEventProcessingErrors, lastEventReceivedStatus := s.lastEventReceivedStatus,
               status := s.status) == s
  {
    s.(numberEventProcessingErrors := s.numberEventProcessingErrors + 1,
       lastEventReceivedStatus := statusPhrase,
       status := if s.status == DatasourceStatus.Processing then s.status else DatasourceStatus.ProcessingError)
  }

  /** The reply every error path returns. */
  function ErrorReply(txid: Txid, at: int): Reply {
    Reply(BadRequest400, None, txid, at)
  }

  function RecordDatasourceError(t: Tables, i: nat, statusPhrase: string): Tables
    requires i < |t.datasources|
  {
    t.(datasources := t.datasources[i := WithError(t.datasources[i], statusPhrase)])
  }

  /**
   * The DatasourceEvent overload: several stored events with the event's purl throw;
   * one means the stored record is used as it is; none means the event is marked
   * PROCESSING_ERROR and saved only if it has a payload. Then the error is recorded
   * against the (used) event's datasource.
   */
  function RecordEventError(t: Tables, ev: Event, statusPhrase: string, txid: Txid, at: int): (r: (Tables, Result<Reply, Failure>))
    requires ValidTables(t) && ev.datasource < |t.datasources|
    ensures r.1.Err? <==> |Positions(t.events, EventWithPurl(ev.purl))| > 1
    ensures r.1.Err? ==> r.0 == t && r.1.error == IllegalArgument
    ensures r.1.Ok? ==> r.1.value == ErrorReply(txid, at)
    ensures r.1.Ok? ==>
      var found := Positions(t.events, EventWithPurl(ev.purl));
      var u := if |found| == 1 then t.events[found[0]].datasource else ev.datasource;
      u < |t.datasources| && r.0.datasources == t.datasources[u := WithError(t.datasources[u], statusPhrase)]
    ensures r.0.datasets == t.datasets
  {
    var found := Positions(t.events, EventWithPurl(ev.purl));
    if |found| > 1 then (t, Err(IllegalArgument))
    else if |found| == 1 then
      assert found[0] in found;
      assert t.events[found[0]] in t.events;
      (RecordDatasourceError(t, t.events[found[0]].datasource, statusPhrase), Ok(ErrorReply(txid, at)))
    else
      var marked := ev.(status := EventStatus.ProcessingError);
      var saved := if marked.payload.Some? then t.(events := t.events + [marked]) else t;
      (RecordDatasourceError(saved, marked.datasource, statusPhrase), Ok(ErrorReply(txid, at)))
  }

  /**
   * The txid overload: exactly one stored event must carry the txid, its purl must
   * parse (`coordinatesOf`), and exactly one datasource must have those coordinates;
   * then the error is recorded against that datasource.
   */
  function RecordTxidError(t: Tables, statusPhrase: string, txid: Txid, at: int, coordinatesOf: string -> Option<string>)
    : (r: (Tables, Result<Reply, Failure>))
    ensures r.1.Ok? <==>
      && |Positions(t.events, EventWithTxid(txid))| == 1
      && coordinatesOf(t.events[Positions(t.events, EventWithTxid(txid))[0]].purl).Some?
      && |Positions(t.datasources, DatasourceWithPurl(
            coordinatesOf(t.events[Positions(t.events, EventWithTxid(txid))[0]].purl).value))| == 1
    ensures r.1.Ok? ==> r.1.value == ErrorReply(txid, at)
    ensures r.1.Err? ==> r.0 == t
  {
    var found := Positions(t.events, EventWithTxid(txid));
    if |found| != 1 then (t, Err(IllegalState))
    else
      assert found[0] in found;
      match coordinatesOf(t.events[found[0]].purl)
      case None => (t, Err(IllegalArgument))
      case Some(datasourcePurl) =>
        var sources := Positions(t.datasources, DatasourceWithPurl(datasourcePurl));
        if |sources| != 1 then (t, Err(IllegalState))
        else
          assert sources[0] in sources;
          (RecordDatasourceError(t, sources[0], statusPhrase), Ok(ErrorReply(txid, at)))
  }

  // ---------------------------------------------------------------------------
  // The helpers, performed on the store.

  method FetchOrMakeDataset(store: Store, name: string, at: int, txid: Txid) returns (r: Result<nat, Failure>)
    modifies store
    ensures (store.Snapshot(), r) == UpsertDataset(old(store.Snapshot()), name, at, txid)
  {
    var datasetRecords := Positions(store.datasets, DatasetNamed(name));
    if |datasetRecords| == 0 {
      var newDataset := Dataset(name, DatasetStatus.Initializing, at, txid, {});
      store.datasets := store.datasets + [newDataset];
      r := Ok(|store.datasets| - 1);
    } else if |datasetRecords| > 1 {
      r := Err(IllegalState);
    } else {
      var i := datasetRecords[0];
      assert i in datasetRecords;
      var dataset := store.datasets[i];
      dataset := dataset.(latestTxid := txid, updatedAt := at);
      if dataset.status != DatasetStatus.Initializing && dataset.status != DatasetStatus.Processing {
        dataset := dataset.(status := DatasetStatus.Ingesting);
      }
      store.datasets := store.datasets[i := dataset];
      r := Ok(i);
    }
  }

  method FetchOrMakeDatasource(store: Store, dataset: nat, purl: string, domain: string, packedName: string,
                               datasourceType: string, commitBranch: string, at: int, txid: Txid) returns (i: nat)
    modifies store
    ensures (store.Snapshot(), i)
         == UpsertDatasource(old(store.Snapshot()), dataset, purl, domain, packedName, datasourceType, commitBranch, at, txid)
  {
    var datasourceRecords := Positions(store.datasources, DatasourceWithPurl(purl));
    if |datasourceRecords| == 0 {
      var record := NewDatasource(dataset, purl, domain, packedName, datasourceType, commitBranch, at, txid);
      store.datasources := store.datasources + [record];
      i := |store.datasources| - 1;
    } else {
      i := datasourceRecords[0];
      assert i in datasourceRecords;
      var record := store.datasources[i];
      record := record.(lastEventReceivedAt := at, lastEventReceivedStatus := AcceptedPhrase, latestTxid := txid);
      if !KeepsDatasourceStatus(record.status) {
        record := record.(status := DatasourceStatus.Ingesting);
      }
      record := record.(numberEventsReceived := record.numberEventsReceived + 1);
      store.datasources := store.datasources[i := record];
    }
  }

  method RecordErrorForDatasource(store: Store, i: nat, statusPhrase: string, txid: Txid, at: int) returns (reply: Reply)
    requires i < |store.datasources|
    modifies store
    ensures store.Snapshot() == RecordDatasourceError(old(store.Snapshot()), i, statusPhrase)
    ensures reply == ErrorReply(txid, at)
  {
    var record := store.datasources[i];
    record := record.(numberEventProcessingErrors := record.numberEventProcessingErrors + 1);
    record := record.(lastEventReceivedStatus := statusPhrase);
    if record.status != DatasourceStatus.Processing {
      record := record.(status := DatasourceStatus.ProcessingError);
    }
    store.datasources := store.datasources[i := record];
    reply := Reply(BadRequest400, None, txid, at);
  }

  method RecordErrorForEvent(store: Store, ev: Event, statusPhrase: string, txid: Txid, at: int)
    returns (r: Result<Reply, Failure>)
    requires ValidTables(store.Snapshot()) && ev.datasource < |store.datasources|
    modifies store
    ensures (store.Snapshot(), r) == RecordEventError(old(store.Snapshot()), ev, statusPhrase, txid, at)
  {
    var datasourceEvents := Positions(store.events, EventWithPurl(ev.purl));
    var record := ev;
    if |datasourceEvents| > 1 {
      return Err(IllegalArgument);
    } else if |datasourceEvents| == 1 {
      assert datasourceEvents[0] in datasourceEvents;
      record := store.events[datasourceEvents[0]];
      assert record in store.events;
    } else {
      record := record.(status := EventStatus.ProcessingError);
      if record.payload.Some? {
        store.events := store.events + [record];
      }
    }
    var reply := RecordErrorForDatasource(store, record.datasource, statusPhrase, txid, at);
    r := Ok(reply);
  }

  method RecordErrorForTxid(store: Store, statusPhrase: string, txid: Txid, at: int, coordinatesOf: string -> Option<string>)
    returns (r: Result<Reply, Failure>)
    modifies store
    ensures (store.Snapshot(), r) == RecordTxidError(old(store.Snapshot()), statusPhrase, txid, at, coordinatesOf)
  {
    var datasourceEventRecords := Positions(store.events, EventWithTxid(txid));
    if |datasourceEventRecords| == 0 || |datasourceEventRecords| > 1 {
      return Err(IllegalState);
    }
    assert datasourceEventRecords[0] in datasourceEventRecords;
    var datasourceEvent := store.events[datasourceEventRecords[0]];
    var coordinates := coordinatesOf(datasourceEvent.purl);
    if coordinates.None? {
      return Err(IllegalArgument);
    }
    var datasourceRecords := Positions(store.datasources, DatasourceWithPurl(coordinates.value));
    if |datasourceRecords| == 0 || |datasourceRecords| > 1 {
      return Err(IllegalState);
    }
    assert datasourceRecords[0] in datasourceRecords;
    var reply := RecordErrorForDatasource(store, datasourceRecords[0], statusPhrase, txid, at);
    r := Ok(reply);
  }

  // ---------------------------------------------------------------------------
  // What the helpers preserve.

  /** With unique dataset names the dataset upsert never throws and always names the dataset it was asked for. */
  lemma UpsertDatasetTotalOnUniqueNames(t: Tables, name: string, at: int, txid: Txid)
    requires UniqueKeys(t)
    ensures UpsertDataset(t, name, at, txid).1.Ok?
  {
    UniqueKeysAtMostOne(t, name, "");
  }

  /** The dataset upsert keeps every reference valid and every key unique. */
  lemma UpsertDatasetPreservesInvariants(t: Tables, name: string, at: int, txid: Txid)
    requires ValidTables(t) && UniqueKeys(t)
    ensures ValidTables(UpsertDataset(t, name, at, txid).0) && UniqueKeys(UpsertDataset(t, name, at, txid).0)
  {
    var r := UpsertDataset(t, name, at, txid);
    UpsertDatasetTotalOnUniqueNames(t, name, at, txid);
    forall d, k | d in r.0.datasets && k in d.datasources ensures k < |r.0.datasources| {
      var j :| 0 <= j < |r.0.datasets| && r.0.datasets[j] == d;
      if j < |t.datasets| {
        assert t.datasets[j] in t.datasets;
      }
    }
  }

  /** The datasource upsert keeps every reference valid and every key unique, given an existing owning dataset. */
  lemma UpsertDatasourcePreservesInvariants(t: Tables, dataset: nat, purl: string, domain: string, packedName: string,
                                            datasourceType: string, commitBranch: string, at: int, txid: Txid)
    requires ValidTables(t) && UniqueKeys(t) && dataset < |t.datasets|
    ensures ValidTables(UpsertDatasource(t, dataset, purl, domain, packedName, datasourceType, commitBranch, at, txid).0)
    ensures UniqueKeys(UpsertDatasource(t, dataset, purl, domain, packedName, datasourceType, commitBranch, at, txid).0)
  {
    var r := UpsertDatasource(t, dataset, purl, domain, packedName, datasourceType, commitBranch, at, txid);
    forall d, k | d in r.0.datasets && k in d.datasources ensures k < |r.0.datasources| {
    }
    forall s, j | s in r.0.datasources && j in s.datasets ensures j < |r.0.datasets| {
      var k :| 0 <= k < |r.0.datasources| && r.0.datasources[k] == s;
      if k < |t.datasources| {
        assert t.datasources[k] in t.datasources;
      }
    }
    forall e | e in r.0.events ensures e.datasource < |r.0.datasources| {
    }
  }

  /** Recording a datasource error changes that datasource's error bookkeeping and nothing else. */
  lemma RecordDatasourceErrorPreservesInvariants(t: Tables, i: nat, statusPhrase: string)
    requires i < |t.datasources| && ValidTables(t) && UniqueKeys(t)
    ensures ValidTables(RecordDatasourceError(t, i, statusPhrase)) && UniqueKeys(RecordDatasourceError(t, i, statusPhrase))
  {
    var r := RecordDatasourceError(t, i, statusPhrase);
    forall s, j | s in r.datasources && j in s.datasets ensures j < |r.datasets| {
      var k :| 0 <= k < |r.datasources| && r.datasources[k] == s;
      assert t.datasources[k] in t.datasources;
    }
  }

  /**
   * The event overload never throws while event purls are unique, and it keeps them
   * unique: the event it saves carries a purl no stored event has.
   */
  lemma RecordEventErrorPreservesInvariants(t: Tables, ev: Event, statusPhrase: string, txid: Txid, at: int)
    requires ValidTables(t) && UniqueKeys(t) && ev.datasource < |t.datasources|
    ensures RecordEventError(t, ev, statusPhrase, txid, at).1.Ok?
    ensures ValidTables(RecordEventError(t, ev, statusPhrase, txid, at).0)
    ensures UniqueKeys(RecordEventError(t, ev, statusPhrase, txid, at).0)
  {
    UniqueKeysAtMostOne(t, "", ev.purl);
    var found := Positions(t.events, EventWithPurl(ev.purl));
    if |found| == 1 {
      assert found[0] in found;
      assert t.events[found[0]] in t.events;
      RecordDatasourceErrorPreservesInvariants(t, t.events[found[0]].datasource, statusPhrase);
    } else {
      var marked := ev.(status := EventStatus.ProcessingError);
      var saved := if marked.payload.Some? then t.(events := t.events + [marked]) else t;
      assert forall k :: 0 <= k < |t.events| ==> !EventWithPurl(ev.purl)(t.events[k]);
      assert ValidTables(saved) && UniqueKeys(saved);
      RecordDatasourceErrorPreservesInvariants(saved, marked.datasource, statusPhrase);
    }
  }

  /**
   * The event overload with no stored event of that purl stores the event, marked
   * PROCESSING_ERROR, exactly when it has a payload; with a stored one the events are
   * left as they were.
   */
  lemma RecordEventErrorSavesOnlyWithPayload(t: Tables, ev: Event, statusPhrase: string, txid: Txid, at: int)
    requires ValidTables(t) && ev.datasource < |t.datasources|
    ensures |Positions(t.events, EventWithPurl(ev.purl))| == 0 ==>
      RecordEventError(t, ev, statusPhrase, txid, at).0.events
        == t.events + (if ev.payload.Some? then [ev.(status := EventStatus.ProcessingError)] else [])
    ensures |Positions(t.events, EventWithPurl(ev.purl))| >= 1 ==>
      RecordEventError(t, ev, statusPhrase, txid, at).0.events == t.events
  {
    var found := Positions(t.events, EventWithPurl(ev.purl));
    if |found| == 1 {
      assert found[0] in found;
      assert t.events[found[0]] in t.events;
    }
  }

  /** With unique datasource purls the txid overload affects only the datasource whose purl the event's coordinates name. */
  lemma RecordTxidErrorTargetsItsDatasource(t: Tables, statusPhrase: string, txid: Txid, at: int,
                                            coordinatesOf: string -> Option<string>, e: nat, i: nat)
    requires ValidTables(t)
    requires e < |t.events| && t.events[e].txid == txid
    requires forall k :: 0 <= k < |t.events| && k != e ==> t.events[k].txid != txid
    requires i < |t.datasources| && coordinatesOf(t.events[e].purl) == Some(t.datasources[i].purl)
    requires forall k :: 0 <= k < |t.datasources| && k != i ==> t.datasources[k].purl != t.datasources[i].purl
    ensures RecordTxidError(t, statusPhrase, txid, at, coordinatesOf)
         == (RecordDatasourceError(t, i, statusPhrase), Ok(ErrorReply(txid, at)))
  {
    PositionsOfUnique(t.events, EventWithTxid(txid), e);
    PositionsOfUnique(t.datasources, DatasourceWithPurl(t.datasources[i].purl), i);
  }
}
