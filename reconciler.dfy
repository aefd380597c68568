/**
 * The status reconciler that runs once a minute: it releases datasources and datasets
 * from INITIALIZING once their uploads have settled, unsticks INGESTING ones, returns
 * dangling PROCESSING datasets to IDLE, and queues IDLE datasets that have work.
 * Each pass is a function on the tables (what it computes) and a method on the store
 * (how it computes it, loop by loop), and the method is proved to compute the function.
 */
module Reconciler {
  import opened Wrappers
  import opened Store

  /** The two-minute grace window of the INITIALIZING and INGESTING queries, in milliseconds. */
  const GraceMillis := 120000

  /** The six-hour window after which a PROCESSING dataset is examined for errors, in milliseconds. */
  const StuckProcessingMillis := 21600000

  // ---------------------------------------------------------------------------
  // Queries.

  /** `lastEventReceivedAt` lies strictly before `now` minus two minutes. */
  predicate Stale(s: Datasource, now: int) {
    s.lastEventReceivedAt < now - GraceMillis
  }

  predicate Settled(s: EventStatus) {
    s == EventStatus.ReadyForProcessing || s == EventStatus.Processed
  }

  /** Every event of datasource `i` is READY_FOR_PROCESSING or PROCESSED. */
  predicate EventsSettled(events: seq<Event>, i: nat) {
    forall k :: 0 <= k < |events| && events[k].datasource == i ==> Settled(events[k].status)
  }

  /** Some event of datasource `i` has the status. */
  predicate HasEventIn(events: seq<Event>, i: nat, status: EventStatus) {
    exists k :: 0 <= k < |events| && events[k].datasource == i && events[k].status == status
  }

  /** Some child of a dataset has a status satisfying `p`. */
  predicate ChildWith(sources: seq<Datasource>, children: set<nat>, p: DatasourceStatus -> bool) {
    exists k :: k in children && k < |sources| && p(sources[k].status)
  }

  predicate StillLoading(s: DatasourceStatus) {
    s == DatasourceStatus.Initializing || s == DatasourceStatus.Ingesting
  }

  predicate IsReady(s: DatasourceStatus) {
    s == DatasourceStatus.ReadyForProcessing
  }

  predicate StillBusy(s: DatasourceStatus) {
    || s == DatasourceStatus.Processing || s == DatasourceStatus.Ingesting
    || s == DatasourceStatus.Initializing || s == DatasourceStatus.ReadyForNextProcessing
  }

  predicate IsFailed(s: DatasourceStatus) {
    s == DatasourceStatus.ProcessingError
  }

  /** A child that checkIdle counts as work: READY_FOR_PROCESSING itself, or with a READY_FOR_PROCESSING event. */
  predicate ReadyChild(t: Tables, k: nat) {
    k < |t.datasources|
    && (t.datasources[k].status == DatasourceStatus.ReadyForProcessing
        || HasEventIn(t.events, k, EventStatus.ReadyForProcessing))
  }

  /** An IDLE dataset with a child that has work. */
  predicate WantsProcessing(t: Tables, d: Dataset) {
    d.status == DatasetStatus.Idle && exists k :: k in d.datasources && ReadyChild(t, k)
  }

  // ---------------------------------------------------------------------------
  // The passes, as functions on the tables.

  /** Only statuses (and a dataset's updatedAt) change; keys, links and events stay. */
  predicate SameShape(t: Tables, r: Tables) {
    && r.events == t.events
    && |r.datasets| == |t.datasets| && |r.datasources| == |t.datasources|
    && (forall j :: 0 <= j < |t.datasets| ==>
          r.datasets[j].(status := t.datasets[j].status, updatedAt := t.datasets[j].updatedAt) == t.datasets[j])
    && (forall i :: 0 <= i < |t.datasources| ==> r.datasources[i].(status := t.datasources[i].status) == t.datasources[i])
  }

  function InitializedSource(t: Tables, now: int, i: nat): Datasource
    requires i < |t.datasources|
  {
    var s := t.datasources[i];
    if s.status == DatasourceStatus.Initializing && Stale(s, now) && EventsSettled(t.events, i)
    then s.(status := DatasourceStatus.ReadyForProcessing)
    else s
  }

  /** The datasource half of checkDoneInitializing. */
  function InitializeSources(t: Tables, now: int): (r: Tables)
    ensures r.datasets == t.datasets && r.events == t.events && |r.datasources| == |t.datasources|
    ensures forall i :: 0 <= i < |t.datasources| ==> r.datasources[i] == InitializedSource(t, now, i)
  {
    t.(datasources := seq(|t.datasources|, i requires 0 <= i < |t.datasources| => InitializedSource(t, now, i)))
  }

  function InitializedDataset(sources: seq<Datasource>, d: Dataset): Dataset {
    if d.status == DatasetStatus.Initializing && !ChildWith(sources, d.datasources, StillLoading)
    then d.(status := DatasetStatus.ReadyForProcessing)
    else d
  }

  /** The dataset half of checkDoneInitializing, reading the datasources as the first half left them. */
  function InitializeDatasets(t: Tables): (r: Tables)
    ensures r.datasources == t.datasources && r.events == t.events && |r.datasets| == |t.datasets|
    ensures forall j :: 0 <= j < |t.datasets| ==> r.datasets[j] == InitializedDataset(t.datasources, t.datasets[j])
  {
    t.(datasets := seq(|t.datasets|, j requires 0 <= j < |t.datasets| => InitializedDataset(t.datasources, t.datasets[j])))
  }

  /**
   * checkDoneInitializing: an INITIALIZING datasource is released exactly when its last
   * event is over two minutes old and all its events are settled; an INITIALIZING
   * dataset exactly when, after that, none of its datasources is still loading.
   * Nothing else changes.
   */
  function DoneInitializing(t: Tables, now: int): (r: Tables)
    ensures SameShape(t, r)
    ensures forall i :: 0 <= i < |t.datasources| ==>
      if t.datasources[i].status == DatasourceStatus.Initializing
      then r.datasources[i].status == DatasourceStatus.ReadyForProcessing
           || r.datasources[i].status == DatasourceStatus.Initializing
      else r.datasources[i] == t.datasources[i]
    ensures forall i :: 0 <= i < |t.datasources| && t.datasources[i].status == DatasourceStatus.Initializing ==>
      (r.datasources[i].status == DatasourceStatus.ReadyForProcessing <==> Stale(t.datasources[i], now) && EventsSettled(t.events, i))
    ensures forall j :: 0 <= j < |t.datasets| ==>
      if t.datasets[j].status == DatasetStatus.Initializing
      then (r.datasets[j].status == DatasetStatus.ReadyForProcessing <==>
              !ChildWith(r.datasources, t.datasets[j].datasources, StillLoading))
           && (r.datasets[j].status == DatasetStatus.ReadyForProcessing || r.datasets[j] == t.datasets[j])
      else r.datasets[j] == t.datasets[j]
  {
    InitializeDatasets(InitializeSources(t, now))
  }

  function IngestedSource(t: Tables, now: int, i: nat): Datasource
    requires i < |t.datasources|
  {
    var s := t.datasources[i];
    if s.status == DatasourceStatus.Ingesting && Stale(s, now) then
      if HasEventIn(t.events, i, EventStatus.ReadyForProcessing) && !HasEventIn(t.events, i, EventStatus.Ingesting)
      then s.(status := DatasourceStatus.ReadyForProcessing)
      else s.(status := DatasourceStatus.Idle)
    else s
  }

  /** The datasource half of checkDoneIngesting. */
  function IngestSources(t: Tables, now: int): (r: Tables)
    ensures r.datasets == t.datasets && r.events == t.events && |r.datasources| == |t.datasources|
    ensures forall i :: 0 <= i < |t.datasources| ==> r.datasources[i] == IngestedSource(t, now, i)
  {
    t.(datasources := seq(|t.datasources|, i requires 0 <= i < |t.datasources| => IngestedSource(t, now, i)))
  }

  function IngestedDataset(sources: seq<Datasource>, d: Dataset): Dataset {
    if d.status == DatasetStatus.Ingesting then
      if ChildWith(sources, d.datasources, IsReady)
      then d.(status := DatasetStatus.ReadyForProcessing)
      else d.(status := DatasetStatus.Idle)
    else d
  }

  /** The dataset half of checkDoneIngesting. */
  function IngestDatasets(t: Tables): (r: Tables)
    ensures r.datasources == t.datasources && r.events == t.events && |r.datasets| == |t.datasets|
    ensures forall j :: 0 <= j < |t.datasets| ==> r.datasets[j] == IngestedDataset(t.datasources, t.datasets[j])
  {
    t.(datasets := seq(|t.datasets|, j requires 0 <= j < |t.datasets| => IngestedDataset(t.datasources, t.datasets[j])))
  }

  /**
   * checkDoneIngesting: afterwards no datasource is INGESTING with its last event over
   * two minutes old, and no dataset is INGESTING at all; a stale INGESTING datasource
   * becomes READY_FOR_PROCESSING exactly when it has a ready event and no ingesting one,
   * an INGESTING dataset exactly when one of its datasources is then ready.
   */
  function DoneIngesting(t: Tables, now: int): (r: Tables)
    ensures SameShape(t, r)
    ensures forall i :: 0 <= i < |r.datasources| ==>
      !(r.datasources[i].status == DatasourceStatus.Ingesting && Stale(r.datasources[i], now))
    ensures forall j :: 0 <= j < |r.datasets| ==> r.datasets[j].status != DatasetStatus.Ingesting
    ensures forall i :: 0 <= i < |t.datasources| ==>
      if t.datasources[i].status == DatasourceStatus.Ingesting && Stale(t.datasources[i], now)
      then (r.datasources[i].status == DatasourceStatus.ReadyForProcessing <==>
              HasEventIn(t.events, i, EventStatus.ReadyForProcessing) && !HasEventIn(t.events, i, EventStatus.Ingesting))
           && (r.datasources[i].status == DatasourceStatus.ReadyForProcessing || r.datasources[i].status == DatasourceStatus.Idle)
      else r.datasources[i] == t.datasources[i]
    ensures forall j :: 0 <= j < |t.datasets| ==>
      if t.datasets[j].status == DatasetStatus.Ingesting
      then (r.datasets[j].status == DatasetStatus.ReadyForProcessing <==> ChildWith(r.datasources, t.datasets[j].datasources, IsReady))
           && (r.datasets[j].status == DatasetStatus.ReadyForProcessing || r.datasets[j].status == DatasetStatus.Idle)
      else r.datasets[j] == t.datasets[j]
  {
    IngestDatasets(IngestSources(t, now))
  }

  function SettledDataset(sources: seq<Datasource>, d: Dataset): Dataset {
    if d.status == DatasetStatus.Processing && !ChildWith(sources, d.datasources, StillBusy)
    then d.(status := DatasetStatus.Idle)
    else d
  }

  /** The first loop of checkIdle: a PROCESSING dataset with no busy child is IDLE again. */
  function SettleProcessing(t: Tables): (r: Tables)
    ensures r.datasources == t.datasources && r.events == t.events && |r.datasets| == |t.datasets|
    ensures forall j :: 0 <= j < |t.datasets| ==> r.datasets[j] == SettledDataset(t.datasources, t.datasets[j])
  {
    t.(datasets := seq(|t.datasets|, j requires 0 <= j < |t.datasets| => SettledDataset(t.datasources, t.datasets[j])))
  }

  /** The second loop of checkIdle: the datasets to process, in storage order, among the first `n`. */
  function PickedUpTo(t: Tables, n: nat): (r: seq<nat>)
    requires n <= |t.datasets|
    ensures forall j: nat :: j in r <==> j < n && WantsProcessing(t, t.datasets[j])
  {
    if n == 0 then []
    else
      var prefix := PickedUpTo(t, n - 1);
      var r := prefix + (if WantsProcessing(t, t.datasets[n - 1]) then [n - 1] else []);
      assert forall j: nat :: j in r <==> j in prefix || (j == n - 1 && WantsProcessing(t, t.datasets[n - 1]));
      r
  }

  /** Datasource `k` is a child of one of the picked datasets. */
  predicate UnderAny(datasets: seq<Dataset>, picked: seq<nat>, k: nat) {
    exists q :: 0 <= q < |picked| && picked[q] < |datasets| && k in datasets[picked[q]].datasources
  }

  function Woken(d: Dataset, now: int): Dataset {
    d.(status := DatasetStatus.ReadyForProcessing, updatedAt := now)
  }

  function Roused(s: Datasource): Datasource {
    s.(status := DatasourceStatus.ReadyForProcessing)
  }

  /** The third loop of checkIdle: each picked dataset and all of its children are READY_FOR_PROCESSING. */
  function Wake(t: Tables, picked: seq<nat>, now: int): (r: Tables)
    ensures r.events == t.events && |r.datasets| == |t.datasets| && |r.datasources| == |t.datasources|
    ensures forall j :: 0 <= j < |t.datasets| ==> r.datasets[j] == if j in picked then Woken(t.datasets[j], now) else t.datasets[j]
    ensures forall k :: 0 <= k < |t.datasources| ==>
      r.datasources[k] == if UnderAny(t.datasets, picked, k) then Roused(t.datasources[k]) else t.datasources[k]
  {
    t.(datasets := seq(|t.datasets|, j requires 0 <= j < |t.datasets| =>
                         if j in picked then Woken(t.datasets[j], now) else t.datasets[j]),
       datasources := seq(|t.datasources|, k requires 0 <= k < |t.datasources| =>
                         if UnderAny(t.datasets, picked, k) then Roused(t.datasources[k]) else t.datasources[k]))
  }

  /** checkIdle: only statuses and the woken datasets' updatedAt change. */
  function CheckIdle(t: Tables, now: int): (r: Tables)
    ensures SameShape(t, r)
  {
    var settled := SettleProcessing(t);
    Wake(settled, PickedUpTo(settled, |settled.datasets|), now)
  }

  function ErroredDataset(sources: seq<Datasource>, d: Dataset, now: int): Dataset {
    if d.status == DatasetStatus.Processing && d.updatedAt < now - StuckProcessingMillis
       && ChildWith(sources, d.datasources, IsFailed)
    then d.(status := DatasetStatus.ProcessingError)
    else d
  }

  /** checkDatasetError: a dataset PROCESSING for over six hours with a failed child is PROCESSING_ERROR. */
  function DatasetError(t: Tables, now: int): (r: Tables)
    ensures r.datasources == t.datasources && r.events == t.events && |r.datasets| == |t.datasets|
    ensures forall j :: 0 <= j < |t.datasets| ==> r.datasets[j] == ErroredDataset(t.datasources, t.datasets[j], now)
    ensures SameShape(t, r)
    ensures forall j :: 0 <= j < |t.datasets| ==>
      (r.datasets[j].status != t.datasets[j].status <==>
         && t.datasets[j].status == DatasetStatus.Processing && t.datasets[j].updatedAt < now - StuckProcessingMillis
         && ChildWith(t.datasources, t.datasets[j].datasources, IsFailed))
    ensures forall j :: 0 <= j < |t.datasets| && r.datasets[j].status != t.datasets[j].status ==>
      r.datasets[j].status == DatasetStatus.ProcessingError
  {
    t.(datasets := seq(|t.datasets|, j requires 0 <= j < |t.datasets| => ErroredDataset(t.datasources, t.datasets[j], now)))
  }

  /** curateEventStatus: the three passes in order, each reading its own clock. */
  function Sweep(t: Tables, initNow: int, ingestNow: int, idleNow: int): Tables {
    CheckIdle(DoneIngesting(DoneInitializing(t, initNow), ingestNow), idleNow)
  }

  // ---------------------------------------------------------------------------
  // The passes on the store.

  /** The loop over a datasource's events in checkDoneInitializing, stopping at the first unsettled one. */
  method AllEventsSettled(store: Store, i: nat) returns (gtg: bool)
    ensures gtg == EventsSettled(store.events, i)
  {
    var k := 0;
    while k < |store.events|
      invariant k <= |store.events|
      invariant forall k' :: 0 <= k' < k && store.events[k'].datasource == i ==> Settled(store.events[k'].status)
    {
      var event := store.events[k];
      if event.datasource == i && !Settled(event.status) {
        return false;
      }
      k := k + 1;
    }
    return true;
  }

  /** `findAllByStatusAndDatasourcePurl(status, ...)` is non-empty. */
  method AnyEventWith(store: Store, i: nat, status: EventStatus) returns (found: bool)
    ensures found == HasEventIn(store.events, i, status)
  {
    var k := 0;
    while k < |store.events|
      invariant k <= |store.events|
      invariant forall k' :: 0 <= k' < k ==> !(store.events[k'].datasource == i && store.events[k'].status == status)
    {
      if store.events[k].datasource == i && store.events[k].status == status {
        return true;
      }
      k := k + 1;
    }
    return false;
  }

  /** The loop over a dataset's datasources, stopping at the first whose status satisfies `p`. */
  method AnyChildWith(store: Store, children: set<nat>, p: DatasourceStatus -> bool) returns (found: bool)
    ensures found == ChildWith(store.datasources, children, p)
  {
    var rest := children;
    while rest != {}
      invariant rest <= children
      invariant !ChildWith(store.datasources, children - rest, p)
      decreases |rest|
    {
      var k :| k in rest;
      if k < |store.datasources| && p(store.datasources[k].status) {
        return true;
      }
      rest := rest - {k};
    }
    assert children - rest == children;
    return false;
  }

  /** The loop over a dataset's datasources in checkIdle, stopping at the first with work. */
  method AnyChildReady(store: Store, children: set<nat>) returns (found: bool)
    ensures found == exists k :: k in children && ReadyChild(store.Snapshot(), k)
  {
    var rest := children;
    while rest != {}
      invariant rest <= children
      invariant forall k :: k in children - rest ==> !ReadyChild(store.Snapshot(), k)
      decreases |rest|
    {
      var k :| k in rest;
      if k < |store.datasources| {
        var datasourceReady := store.datasources[k].status == DatasourceStatus.ReadyForProcessing;
        var datasourceEventReady := AnyEventWith(store, k, EventStatus.ReadyForProcessing);
        if datasourceReady || datasourceEventReady {
          return true;
        }
      }
      rest := rest - {k};
    }
    assert children - rest == children;
    return false;
  }

  method InitializeSourcesInStore(store: Store, now: int)
    modifies store
    ensures store.Snapshot() == InitializeSources(old(store.Snapshot()), now)
  {
    ghost var t := store.Snapshot();
    var i := 0;
    while i < |store.datasources|
      invariant i <= |store.datasources| == |t.datasources|
      invariant store.datasets == t.datasets && store.events == t.events
      invariant forall k :: 0 <= k < i ==> store.datasources[k] == InitializedSource(t, now, k)
      invariant forall k :: i <= k < |t.datasources| ==> store.datasources[k] == t.datasources[k]
    {
      var datasource := store.datasources[i];
      if datasource.status == DatasourceStatus.Initializing && datasource.lastEventReceivedAt < now - GraceMillis {
        var gtg := AllEventsSettled(store, i);
        if gtg {
          store.datasources := store.datasources[i := datasource.(status := DatasourceStatus.ReadyForProcessing)];
        }
      }
      i := i + 1;
    }
    assert store.datasources == InitializeSources(t, now).datasources;
  }

  method InitializeDatasetsInStore(store: Store)
    modifies store
    ensures store.Snapshot() == InitializeDatasets(old(store.Snapshot()))
  {
    ghost var t := store.Snapshot();
    var j := 0;
    while j < |store.datasets|
      invariant j <= |store.datasets| == |t.datasets|
      invariant store.datasources == t.datasources && store.events == t.events
      invariant forall k :: 0 <= k < j ==> store.datasets[k] == InitializedDataset(t.datasources, t.datasets[k])
      invariant forall k :: j <= k < |t.datasets| ==> store.datasets[k] == t.datasets[k]
    {
      var dataset := store.datasets[j];
      if dataset.status == DatasetStatus.Initializing {
        var blocked := AnyChildWith(store, dataset.datasources, StillLoading);
        if !blocked {
          store.datasets := store.datasets[j := dataset.(status := DatasetStatus.ReadyForProcessing)];
        }
      }
      j := j + 1;
    }
    assert store.datasets == InitializeDatasets(t).datasets;
  }

  /** checkDoneInitializing. */
  method CheckDoneInitializing(store: Store, now: int)
    modifies store
    ensures store.Snapshot() == DoneInitializing(old(store.Snapshot()), now)
  {
    InitializeSourcesInStore(store, now);
    InitializeDatasetsInStore(store);
  }

  method IngestSourcesInStore(store: Store, now: int)
    modifies store
    ensures store.Snapshot() == IngestSources(old(store.Snapshot()), now)
  {
    ghost var t := store.Snapshot();
    var i := 0;
    while i < |store.datasources|
      invariant i <= |store.datasources| == |t.datasources|
      invariant store.datasets == t.datasets && store.events == t.events
      invariant forall k :: 0 <= k < i ==> store.datasources[k] == IngestedSource(t, now, k)
      invariant forall k :: i <= k < |t.datasources| ==> store.datasources[k] == t.datasources[k]
    {
      var datasource := store.datasources[i];
      if datasource.status == DatasourceStatus.Ingesting && datasource.lastEventReceivedAt < now - GraceMillis {
        var hasReadyForProcessingEvent := AnyEventWith(store, i, EventStatus.ReadyForProcessing);
        var hasIngestingEvent := AnyEventWith(store, i, EventStatus.Ingesting);
        if hasReadyForProcessingEvent && !hasIngestingEvent {
          datasource := datasource.(status := DatasourceStatus.ReadyForProcessing);
        } else {
          datasource := datasource.(status := DatasourceStatus.Idle);
        }
        store.datasources := store.datasources[i := datasource];
      }
      i := i + 1;
    }
    assert store.datasources == IngestSources(t, now).datasources;
  }

  method IngestDatasetsInStore(store: Store)
    modifies store
    ensures store.Snapshot() == IngestDatasets(old(store.Snapshot()))
  {
    ghost var t := store.Snapshot();
    var j := 0;
    while j < |store.datasets|
      invariant j <= |store.datasets| == |t.datasets|
      invariant store.datasources == t.datasources && store.events == t.events
      invariant forall k :: 0 <= k < j ==> store.datasets[k] == IngestedDataset(t.datasources, t.datasets[k])
      invariant forall k :: j <= k < |t.datasets| ==> store.datasets[k] == t.datasets[k]
    {
      var dataset := store.datasets[j];
      if dataset.status == DatasetStatus.Ingesting {
        var gtg := AnyChildWith(store, dataset.datasources, IsReady);
        if gtg {
          dataset := dataset.(status := DatasetStatus.ReadyForProcessing);
        } else {
          dataset := dataset.(status := DatasetStatus.Idle);
        }
        store.datasets := store.datasets[j := dataset];
      }
      j := j + 1;
    }
    assert store.datasets == IngestDatasets(t).datasets;
  }

  /** checkDoneIngesting. */
  method CheckDoneIngesting(store: Store, now: int)
    modifies store
    ensures store.Snapshot() == DoneIngesting(old(store.Snapshot()), now)
  {
    IngestSourcesInStore(store, now);
    IngestDatasetsInStore(store);
  }

  method SettleProcessingInStore(store: Store)
    modifies store
    ensures store.Snapshot() == SettleProcessing(old(store.Snapshot()))
  {
    ghost var t := store.Snapshot();
    var j := 0;
    while j < |store.datasets|
      invariant j <= |store.datasets| == |t.datasets|
      invariant store.datasources == t.datasources && store.events == t.events
      invariant forall k :: 0 <= k < j ==> store.datasets[k] == SettledDataset(t.datasources, t.datasets[k])
      invariant forall k :: j <= k < |t.datasets| ==> store.datasets[k] == t.datasets[k]
    {
      var dataset := store.datasets[j];
      if dataset.status == DatasetStatus.Processing {
        var busy := AnyChildWith(store, dataset.datasources, StillBusy);
        if !busy {
          store.datasets := store.datasets[j := dataset.(status := DatasetStatus.Idle)];
        }
      }
      j := j + 1;
    }
    assert store.datasets == SettleProcessing(t).datasets;
  }

  /** The `datasetsToProcess` list of checkIdle. */
  method PickIdleDatasets(store: Store) returns (datasetsToProcess: seq<nat>)
    ensures datasetsToProcess == PickedUpTo(store.Snapshot(), |store.datasets|)
  {
    datasetsToProcess := [];
    var j := 0;
    while j < |store.datasets|
      invariant j <= |store.datasets|
      invariant datasetsToProcess == PickedUpTo(store.Snapshot(), j)
    {
      var dataset := store.datasets[j];
      if dataset.status == DatasetStatus.Idle {
        var ready := AnyChildReady(store, dataset.datasources);
        if ready {
          datasetsToProcess := datasetsToProcess + [j];
        }
      }
      j := j + 1;
    }
  }

  /** The picked datasets after the first `p` wakened, the datasources after rousing. */
  lemma UnderAnyStep(datasets: seq<Dataset>, picked: seq<nat>, p: nat, k: nat)
    requires p < |picked|
    ensures UnderAny(datasets, picked[..p + 1], k)
            <==> UnderAny(datasets, picked[..p], k) || (picked[p] < |datasets| && k in datasets[picked[p]].datasources)
  {
    if UnderAny(datasets, picked[..p + 1], k) {
      var q :| 0 <= q < p + 1 && picked[..p + 1][q] < |datasets| && k in datasets[picked[..p + 1][q]].datasources;
      if q < p {
        assert picked[..p][q] == picked[q];
      }
    }
    if UnderAny(datasets, picked[..p], k) {
      var q :| 0 <= q < p && picked[..p][q] < |datasets| && k in datasets[picked[..p][q]].datasources;
      assert picked[..p + 1][q] == picked[q];
    }
    if picked[p] < |datasets| && k in datasets[picked[p]].datasources {
      assert picked[..p + 1][p] == picked[p];
    }
  }

  /** Rouses the children of one picked dataset. */
  method RouseChildren(store: Store, children: set<nat>)
    modifies store
    ensures store.datasets == old(store.datasets) && store.events == old(store.events)
    ensures |store.datasources| == old(|store.datasources|)
    ensures forall k :: 0 <= k < |store.datasources| ==>
      store.datasources[k] == if k in children then Roused(old(store.datasources[k])) else old(store.datasources[k])
  {
    ghost var before := store.datasources;
    var rest := children;
    while rest != {}
      invariant rest <= children
      invariant store.datasets == old(store.datasets) && store.events == old(store.events)
      invariant |store.datasources| == |before|
      invariant forall k :: 0 <= k < |before| ==>
        store.datasources[k] == if k in children - rest then Roused(before[k]) else before[k]
      decreases |rest|
    {
      var k :| k in rest;
      if k < |store.datasources| {
        store.datasources := store.datasources[k := Roused(store.datasources[k])];
      }
      rest := rest - {k};
    }
  }

  method WakeInStore(store: Store, datasetsToProcess: seq<nat>, now: int)
    modifies store
    ensures store.Snapshot() == Wake(old(store.Snapshot()), datasetsToProcess, now)
  {
    ghost var t := store.Snapshot();
    var p := 0;
    while p < |datasetsToProcess|
      invariant p <= |datasetsToProcess|
      invariant store.events == t.events && |store.datasets| == |t.datasets| && |store.datasources| == |t.datasources|
      invariant forall j :: 0 <= j < |t.datasets| ==>
        store.datasets[j] == if j in datasetsToProcess[..p] then Woken(t.datasets[j], now) else t.datasets[j]
      invariant forall k :: 0 <= k < |t.datasources| ==>
        store.datasources[k] == if UnderAny(t.datasets, datasetsToProcess[..p], k) then Roused(t.datasources[k]) else t.datasources[k]
    {
      var j := datasetsToProcess[p];
      if j < |store.datasets| {
        var dataset := store.datasets[j];
        store.datasets := store.datasets[j := dataset.(status := DatasetStatus.ReadyForProcessing, updatedAt := now)];
        RouseChildren(store, dataset.datasources);
      }
      forall k | 0 <= k < |t.datasources| {
        UnderAnyStep(t.datasets, datasetsToProcess, p, k);
      }
      assert datasetsToProcess[..p + 1] == datasetsToProcess[..p] + [j];
      p := p + 1;
    }
    assert datasetsToProcess[..p] == datasetsToProcess;
    assert store.datasets == Wake(t, datasetsToProcess, now).datasets;
    assert store.datasources == Wake(t, datasetsToProcess, now).datasources;
  }

  /** checkIdle. */
  method CheckIdleInStore(store: Store, now: int)
    modifies store
    ensures store.Snapshot() == CheckIdle(old(store.Snapshot()), now)
  {
    SettleProcessingInStore(store);
    var datasetsToProcess := PickIdleDatasets(store);
    WakeInStore(store, datasetsToProcess, now);
  }

  /** checkDatasetError (defined, but not part of the sweep). */
  method CheckDatasetError(store: Store, now: int)
    modifies store
    ensures store.Snapshot() == DatasetError(old(store.Snapshot()), now)
  {
    ghost var t := store.Snapshot();
    var j := 0;
    while j < |store.datasets|
      invariant j <= |store.datasets| == |t.datasets|
      invariant store.datasources == t.datasources && store.events == t.events
      invariant forall k :: 0 <= k < j ==> store.datasets[k] == ErroredDataset(t.datasources, t.datasets[k], now)
      invariant forall k :: j <= k < |t.datasets| ==> store.datasets[k] == t.datasets[k]
    {
      var dataset := store.datasets[j];
      if dataset.status == DatasetStatus.Processing && dataset.updatedAt < now - StuckProcessingMillis {
        var failed := AnyChildWith(store, dataset.datasources, IsFailed);
        if failed {
          store.datasets := store.datasets[j := dataset.(status := DatasetStatus.ProcessingError)];
        }
      }
      j := j + 1;
    }
    assert store.datasets == DatasetError(t, now).datasets;
  }

  /** curateEventStatus. */
  method CurateEventStatus(store: Store, initNow: int, ingestNow: int, idleNow: int)
    modifies store
    ensures store.Snapshot() == Sweep(old(store.Snapshot()), initNow, ingestNow, idleNow)
  {
    CheckDoneInitializing(store, initNow);
    CheckDoneIngesting(store, ingestNow);
    CheckIdleInStore(store, idleNow);
  }

  // ---------------------------------------------------------------------------
  // What the sweep promises.

  lemma {:induction false} SameShapeTransitive(a: Tables, b: Tables, c: Tables)
    requires SameShape(a, b) && SameShape(b, c)
    ensures SameShape(a, c)
  {
    forall j | 0 <= j < |a.datasets|
      ensures c.datasets[j].(status := a.datasets[j].status, updatedAt := a.datasets[j].updatedAt) == a.datasets[j]
    {
      assert c.datasets[j].(status := b.datasets[j].status, updatedAt := b.datasets[j].updatedAt) == b.datasets[j];
    }
    forall i | 0 <= i < |a.datasources|
      ensures c.datasources[i].(status := a.datasources[i].status) == a.datasources[i]
    {
      assert c.datasources[i].(status := b.datasources[i].status) == b.datasources[i];
    }
  }

  /** Changing only statuses keeps every reference valid and every key unique. */
  lemma SameShapePreservesInvariants(t: Tables, r: Tables)
    requires SameShape(t, r) && ValidTables(t) && UniqueKeys(t)
    ensures ValidTables(r) && UniqueKeys(r)
  {
    forall d, k | d in r.datasets && k in d.datasources ensures k < |r.datasources| {
      var j :| 0 <= j < |r.datasets| && r.datasets[j] == d;
      assert r.datasets[j].datasources == t.datasets[j].datasources;
      assert t.datasets[j] in t.datasets;
    }
    forall x, j | x in r.datasources && j in x.datasets ensures j < |r.datasets| {
      var i :| 0 <= i < |r.datasources| && r.datasources[i] == x;
      assert r.datasources[i].datasets == t.datasources[i].datasets;
      assert t.datasources[i] in t.datasources;
    }
    forall i, j | 0 <= i < j < |r.datasets| ensures r.datasets[i].name != r.datasets[j].name {
      assert r.datasets[i].name == t.datasets[i].name && r.datasets[j].name == t.datasets[j].name;
    }
    forall i, j | 0 <= i < j < |r.datasources| ensures r.datasources[i].purl != r.datasources[j].purl {
      assert r.datasources[i].purl == t.datasources[i].purl && r.datasources[j].purl == t.datasources[j].purl;
    }
  }

  /**
   * The sweep changes statuses (and a woken dataset's updatedAt) only: events, keys and
   * links are untouched, so a store with valid references and unique keys keeps both.
   */
  lemma SweepPreservesInvariants(t: Tables, initNow: int, ingestNow: int, idleNow: int)
    requires ValidTables(t) && UniqueKeys(t)
    ensures SameShape(t, Sweep(t, initNow, ingestNow, idleNow))
    ensures ValidTables(Sweep(t, initNow, ingestNow, idleNow)) && UniqueKeys(Sweep(t, initNow, ingestNow, idleNow))
  {
    var a := DoneInitializing(t, initNow);
    var b := DoneIngesting(a, ingestNow);
    var c := CheckIdle(b, idleNow);
    SameShapeTransitive(t, a, b);
    SameShapeTransitive(t, b, c);
    SameShapePreservesInvariants(t, c);
  }

  /** The dataset statuses one sweep can move between. */
  predicate DatasetTransition(before: DatasetStatus, after: DatasetStatus) {
    match before
    case Initializing => after == DatasetStatus.Initializing || after == DatasetStatus.ReadyForProcessing
    case Ingesting => after == DatasetStatus.ReadyForProcessing || after == DatasetStatus.Idle
    case ReadyForProcessing => after == DatasetStatus.ReadyForProcessing
    case Processing => after == DatasetStatus.Processing || after == DatasetStatus.Idle || after == DatasetStatus.ReadyForProcessing
    case Idle => after == DatasetStatus.Idle || after == DatasetStatus.ReadyForProcessing
    case ProcessingError => after == DatasetStatus.ProcessingError
  }

  /** The wake-up of checkIdle only ever sets READY_FOR_PROCESSING, on datasets that were IDLE. */
  lemma CheckIdleDatasetSteps(t: Tables, now: int, j: nat)
    requires j < |t.datasets|
    ensures var r := CheckIdle(t, now);
      && (r.datasets[j] == t.datasets[j]
          || (t.datasets[j].status == DatasetStatus.Processing && r.datasets[j] == t.datasets[j].(status := DatasetStatus.Idle))
          || ((t.datasets[j].status == DatasetStatus.Idle || t.datasets[j].status == DatasetStatus.Processing)
              && r.datasets[j] == Woken(t.datasets[j], now)))
  {
    var settled := SettleProcessing(t);
    var picked := PickedUpTo(settled, |settled.datasets|);
    if j in picked {
      assert WantsProcessing(settled, settled.datasets[j]);
    }
  }

  /**
   * Over one sweep a dataset moves only along DatasetTransition: none is INGESTING
   * afterwards, READY_FOR_PROCESSING and PROCESSING_ERROR datasets are left exactly as
   * they were, and updatedAt changes only on a dataset checkIdle queued.
   */
  lemma SweepDatasetTransitions(t: Tables, initNow: int, ingestNow: int, idleNow: int, j: nat)
    requires j < |t.datasets|
    ensures var r := Sweep(t, initNow, ingestNow, idleNow);
      && DatasetTransition(t.datasets[j].status, r.datasets[j].status)
      && r.datasets[j].status != DatasetStatus.Ingesting
      && (t.datasets[j].status == DatasetStatus.ReadyForProcessing || t.datasets[j].status == DatasetStatus.ProcessingError
          ==> r.datasets[j] == t.datasets[j])
      && (r.datasets[j].updatedAt != t.datasets[j].updatedAt
          ==> r.datasets[j].status == DatasetStatus.ReadyForProcessing && r.datasets[j].updatedAt == idleNow)
  {
    var a := DoneInitializing(t, initNow);
    var b := DoneIngesting(a, ingestNow);
    CheckIdleDatasetSteps(b, idleNow, j);
  }

  /** The datasource statuses one sweep can move to: READY_FOR_PROCESSING, or IDLE from INGESTING. */
  lemma SweepDatasourceTransitions(t: Tables, initNow: int, ingestNow: int, idleNow: int, i: nat)
    requires i < |t.datasources|
    ensures var r := Sweep(t, initNow, ingestNow, idleNow);
      || r.datasources[i] == t.datasources[i]
      || r.datasources[i].status == DatasourceStatus.ReadyForProcessing
      || (t.datasources[i].status == DatasourceStatus.Ingesting && r.datasources[i].status == DatasourceStatus.Idle)
  {
    var a := DoneInitializing(t, initNow);
    var b := DoneIngesting(a, ingestNow);
    var settled := SettleProcessing(b);
    var c := Wake(settled, PickedUpTo(settled, |settled.datasets|), idleNow);
    assert c.datasources[i] == b.datasources[i] || c.datasources[i] == Roused(b.datasources[i]);
  }

  /**
   * After a sweep no datasource is still INGESTING with its last event older than the
   * grace window of checkDoneIngesting: the INGESTING flag cannot stay stuck.
   */
  lemma SweepLeavesNoStuckIngesting(t: Tables, initNow: int, ingestNow: int, idleNow: int, i: nat)
    requires i < |t.datasources|
    ensures var r := Sweep(t, initNow, ingestNow, idleNow);
      !(r.datasources[i].status == DatasourceStatus.Ingesting && Stale(r.datasources[i], ingestNow))
  {
    var a := DoneInitializing(t, initNow);
    var b := DoneIngesting(a, ingestNow);
    var settled := SettleProcessing(b);
    var c := Wake(settled, PickedUpTo(settled, |settled.datasets|), idleNow);
    assert c.datasources[i] == b.datasources[i] || c.datasources[i] == Roused(b.datasources[i]);
  }

  /**
   * checkIdle queues every IDLE dataset with work (after the PROCESSING ones that have
   * settled turned IDLE): the dataset becomes READY_FOR_PROCESSING, stamped `now`, and
   * every one of its datasources becomes READY_FOR_PROCESSING.
   */
  lemma CheckIdleQueuesWork(t: Tables, now: int, j: nat)
    requires j < |t.datasets|
    requires WantsProcessing(t, SettledDataset(t.datasources, t.datasets[j]))
    ensures var r := CheckIdle(t, now);
      && r.datasets[j] == Woken(SettledDataset(t.datasources, t.datasets[j]), now)
      && forall k :: k in t.datasets[j].datasources && k < |t.datasources| ==>
           r.datasources[k].status == DatasourceStatus.ReadyForProcessing
  {
    var settled := SettleProcessing(t);
    var picked := PickedUpTo(settled, |settled.datasets|);
    assert j in picked;
    var q :| 0 <= q < |picked| && picked[q] == j;
    forall k | k in t.datasets[j].datasources && k < |t.datasources|
      ensures UnderAny(settled.datasets, picked, k)
    {
      assert picked[q] < |settled.datasets| && k in settled.datasets[picked[q]].datasources;
    }
  }

  /**
   * After checkIdle, no IDLE dataset is left with work: none of its datasources has a
   * READY_FOR_PROCESSING event, and each of its READY_FOR_PROCESSING datasources was
   * queued as the child of a dataset that is now READY_FOR_PROCESSING.
   */
  lemma CheckIdleLeavesNoIdleWork(t: Tables, now: int, j: nat, k: nat)
    requires j < |t.datasets|
    requires CheckIdle(t, now).datasets[j].status == DatasetStatus.Idle
    requires k in t.datasets[j].datasources && k < |t.datasources|
    ensures !HasEventIn(t.events, k, EventStatus.ReadyForProcessing)
    ensures CheckIdle(t, now).datasources[k].status == DatasourceStatus.ReadyForProcessing ==>
      exists j' :: 0 <= j' < |t.datasets| && k in t.datasets[j'].datasources
                   && CheckIdle(t, now).datasets[j'].status == DatasetStatus.ReadyForProcessing
  {
    var settled := SettleProcessing(t);
    var picked := PickedUpTo(settled, |settled.datasets|);
    var r := CheckIdle(t, now);
    assert j !in picked;
    assert settled.datasets[j].status == DatasetStatus.Idle;
    assert !ReadyChild(settled, k);
    if r.datasources[k].status == DatasourceStatus.ReadyForProcessing {
      assert UnderAny(settled.datasets, picked, k);
      var q :| 0 <= q < |picked| && picked[q] < |settled.datasets| && k in settled.datasets[picked[q]].datasources;
      assert picked[q] in picked;
      assert r.datasets[picked[q]].status == DatasetStatus.ReadyForProcessing;
    }
  }

  /**
   * An INITIALIZING dataset whose only datasource is a stale INGESTING one holding one
   * READY_FOR_PROCESSING event.
   */
  function StuckIngestingExample(): Tables {
    Tables(
      [Dataset("domain", DatasetStatus.Initializing, 0, 0, {0})],
      [Datasource("pkg:generic/domain/repo", "domain", "repo", "main", "git", 1, 0, 0, 0, "Accepted",
                  DatasourceStatus.Ingesting, 0, {0})],
      [Event("pkg:generic/domain/repo@abc", 0, 0, "abc", "main", "2024-01-01T00:00:00Z", 0,
             EventStatus.ReadyForProcessing, None)])
  }

  /**
   * The sweep is not idempotent: on the example, the first sweep releases the datasource
   * only in checkDoneIngesting, after checkDoneInitializing has already kept the dataset
   * INITIALIZING; the second sweep then releases the dataset.
   */
  lemma SweepNotIdempotent()
    ensures var once := Sweep(StuckIngestingExample(), 1000000, 1000000, 1000000);
      && once.datasets[0].status == DatasetStatus.Initializing
      && Sweep(once, 1000000, 1000000, 1000000).datasets[0].status == DatasetStatus.ReadyForProcessing
      && Sweep(once, 1000000, 1000000, 1000000) != once
  {
    var t := StuckIngestingExample();
    var now := 1000000;
    var a := DoneInitializing(t, now);
    assert a.datasources[0] == t.datasources[0];
    assert ChildWith(a.datasources, a.datasets[0].datasources, StillLoading);
    assert a.datasets[0].status == DatasetStatus.Initializing;
    assert a.events == t.events && a.events[0].datasource == 0 && a.events[0].status == EventStatus.ReadyForProcessing;
    assert HasEventIn(a.events, 0, EventStatus.ReadyForProcessing);
    assert !HasEventIn(a.events, 0, EventStatus.Ingesting);
    var b := DoneIngesting(a, now);
    assert b.datasources[0].status == DatasourceStatus.ReadyForProcessing;
    var once := CheckIdle(b, now);
    CheckIdleDatasetSteps(b, now, 0);
    assert once.datasets[0].status == DatasetStatus.Initializing;
    SweepDatasourceTransitions(t, now, now, now, 0);
    assert once.datasources[0].status == DatasourceStatus.ReadyForProcessing;
    var a2 := DoneInitializing(once, now);
    assert a2.datasources[0] == once.datasources[0];
    assert !ChildWith(a2.datasources, once.datasets[0].datasources, StillLoading);
    assert a2.datasets[0].status == DatasetStatus.ReadyForProcessing;
    var b2 := DoneIngesting(a2, now);
    assert b2.datasets[0] == a2.datasets[0];
    CheckIdleDatasetSteps(b2, now, 0);
  }

  /** With nothing INITIALIZING or INGESTING, the first two passes of the sweep change nothing. */
  lemma QuietPasses(t: Tables, initNow: int, ingestNow: int)
    requires forall j :: 0 <= j < |t.datasets| ==>
      t.datasets[j].status != DatasetStatus.Initializing && t.datasets[j].status != DatasetStatus.Ingesting
    requires forall i :: 0 <= i < |t.datasources| ==>
      t.datasources[i].status != DatasourceStatus.Initializing && t.datasources[i].status != DatasourceStatus.Ingesting
    ensures DoneIngesting(DoneInitializing(t, initNow), ingestNow) == t
  {
    var a := DoneInitializing(t, initNow);
    assert a.datasets == t.datasets && a.datasources == t.datasources;
    var b := DoneIngesting(a, ingestNow);
    assert b.datasets == t.datasets && b.datasources == t.datasources;
  }

  /**
   * checkIdle picks every dataset before it wakes any: when an IDLE dataset with work
   * shares a datasource with an IDLE dataset without work, the shared datasource is made
   * READY_FOR_PROCESSING but the second dataset stays IDLE, and only the next checkIdle
   * queues it.
   */
  lemma SharedChildWaitsOneSweep(t: Tables, now: int, later: int, a: nat, b: nat, k: nat)
    requires a < |t.datasets| && b < |t.datasets|
    requires t.datasets[a].status == DatasetStatus.Idle && t.datasets[b].status == DatasetStatus.Idle
    requires WantsProcessing(t, t.datasets[a]) && !WantsProcessing(t, t.datasets[b])
    requires k in t.datasets[a].datasources && k in t.datasets[b].datasources && k < |t.datasources|
    ensures var once := CheckIdle(t, now);
      && once.datasets[b] == t.datasets[b]
      && once.datasources[k].status == DatasourceStatus.ReadyForProcessing
      && CheckIdle(once, later).datasets[b] == Woken(t.datasets[b], later)
  {
    assert SettledDataset(t.datasources, t.datasets[a]) == t.datasets[a];
    CheckIdleQueuesWork(t, now, a);
    IdleWithoutWorkUntouched(t, now, b);
    var once := CheckIdle(t, now);
    IdleWithReadyChildQueued(once, later, b, k);
  }

  /** An IDLE dataset none of whose datasources has work is left as it is by checkIdle. */
  lemma IdleWithoutWorkUntouched(t: Tables, now: int, b: nat)
    requires b < |t.datasets| && t.datasets[b].status == DatasetStatus.Idle
    requires !WantsProcessing(t, t.datasets[b])
    ensures CheckIdle(t, now).datasets[b] == t.datasets[b]
  {
    var settled := SettleProcessing(t);
    assert settled.datasets[b] == t.datasets[b];
    assert settled.datasources == t.datasources && settled.events == t.events;
    assert !WantsProcessing(settled, settled.datasets[b]) by {
      forall k' | k' in t.datasets[b].datasources ensures !ReadyChild(settled, k') {
        assert !ReadyChild(t, k');
      }
    }
    var picked := PickedUpTo(settled, |settled.datasets|);
    assert b !in picked;
    assert Wake(settled, picked, now).datasets[b] == settled.datasets[b];
  }

  /** An IDLE dataset with a READY_FOR_PROCESSING datasource is queued by checkIdle. */
  lemma IdleWithReadyChildQueued(t: Tables, now: int, b: nat, k: nat)
    requires b < |t.datasets| && t.datasets[b].status == DatasetStatus.Idle
    requires k in t.datasets[b].datasources && k < |t.datasources|
    requires t.datasources[k].status == DatasourceStatus.ReadyForProcessing
    ensures CheckIdle(t, now).datasets[b] == Woken(t.datasets[b], now)
  {
    assert ReadyChild(t, k);
    assert SettledDataset(t.datasources, t.datasets[b]) == t.datasets[b];
    CheckIdleQueuesWork(t, now, b);
  }
}
