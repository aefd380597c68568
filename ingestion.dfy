/**
 * The ingestion service (`InputService.handleGitEvent` and `setToSqlArrayString`)
 * and the endpoint that delegates to it once validation passes. The upload is
 * unpacked and bundled (module Bundler), its root graph chosen (module
 * GraphBuilder), and the event recorded against its Datasource and Dataset (module
 * AggregateGateway).
 */
module Ingestion {
  import opened Wrappers
  import opened JavaStrings
  import opened Api
  import opened Store
  import opened AggregateGateway
  import PurlValidator
  import Bundler
  import GraphBuilder

  // ---------------------------------------------------------------------------
  // setToSqlArrayString

  /** `Long.toString` of each id, in the set's iteration order. */
  function SqlArrayElements(ids: seq<int>): (r: seq<string>)
    ensures |r| == |ids| && forall i :: 0 <= i < |ids| ==> r[i] == LongToString(ids[i])
  {
    seq(|ids|, i requires 0 <= i < |ids| => LongToString(ids[i]))
  }

  /** `setToSqlArrayString`: the set's `toString()` ("[a, b]") with every '[', ']' and ' ' removed. */
  function SetToSqlArrayString(ids: seq<int>): string {
    var rendered := "[" + Join(SqlArrayElements(ids), ", ") + "]";
    RemoveChar(RemoveChar(RemoveChar(rendered, '['), ']'), ' ')
  }

  /** No decimal form holds a character other than '-' and the digits. */
  lemma ElementsFreeOf(ids: seq<int>, c: char)
    requires c != '-' && !('0' <= c <= '9')
    ensures forall k, i :: 0 <= k < |SqlArrayElements(ids)| && 0 <= i < |SqlArrayElements(ids)[k]|
              ==> SqlArrayElements(ids)[k][i] != c
  {
    var parts := SqlArrayElements(ids);
    forall k, i | 0 <= k < |parts| && 0 <= i < |parts[k]| ensures parts[k][i] != c {
      assert parts[k] == LongToString(ids[k]);
    }
  }

  /** The result is the ids' decimal forms joined by ",". */
  lemma SqlArrayStringIsCommaJoin(ids: seq<int>)
    ensures SetToSqlArrayString(ids) == Join(SqlArrayElements(ids), ",")
  {
    var parts := SqlArrayElements(ids);
    var joined := Join(parts, ", ");
    SeparatorStrips();
    ElementsFreeOf(ids, '[');
    RemoveCharJoin(parts, ", ", '[');
    ElementsFreeOf(ids, ']');
    RemoveCharJoin(parts, ", ", ']');
    StripBrackets(joined);
    ElementsFreeOf(ids, ' ');
    RemoveCharJoin(parts, ", ", ' ');
  }

  lemma SeparatorStrips()
    ensures RemoveChar(", ", '[') == ", " && RemoveChar(", ", ']') == ", " && RemoveChar(", ", ' ') == ","
  {
    assert ", "[1..] == " ";
  }

  /** Removing the brackets from "[x]" leaves x, when x holds neither bracket. */
  lemma StripBrackets(x: string)
    requires RemoveChar(x, '[') == x && RemoveChar(x, ']') == x
    ensures RemoveChar(RemoveChar("[" + x + "]", '['), ']') == x
  {
    RemoveCharConcat("[" + x, "]", '[');
    RemoveCharConcat("[", x, '[');
    assert RemoveChar("]", '[') == "]";
    assert RemoveChar("[", '[') == "";
    assert RemoveChar("[" + x + "]", '[') == x + "]";
    RemoveCharConcat(x, "]", ']');
    assert RemoveChar("]", ']') == "";
  }

  /**
   * Splitting the result on the "," delimiter the stored procedure is given yields
   * the ids' decimal forms back, one per id, when there is at least one id.
   */
  lemma SqlArrayStringRoundTrip(ids: seq<int>)
    requires |ids| >= 1
    ensures Split(SetToSqlArrayString(ids), ",") == SqlArrayElements(ids)
  {
    SqlArrayStringIsCommaJoin(ids);
    var parts := SqlArrayElements(ids);
    ElementsFreeOf(ids, ',');
    forall k | 0 <= k < |parts| ensures !Contains(parts[k], ",") {
      forall i: nat | i + 1 <= |parts[k]| ensures !OccursAt(parts[k], ",", i) {
        assert parts[k][i..i + 1][0] == parts[k][i];
      }
    }
    SplitOfJoin(parts, ",");
  }

  /** The single-dataset call the ingestion path makes passes that dataset's id alone. */
  lemma SingleIdSqlArrayString(id: int)
    ensures SetToSqlArrayString([id]) == LongToString(id)
  {
    SqlArrayStringIsCommaJoin([id]);
  }

  // ---------------------------------------------------------------------------
  // Processing the upload

  /**
   * The stored upload: the listing of the unpacked archive (`None` when unpacking
   * failed), the temp directory and file separator, and the foreign steps applied to
   * it: a file's processing, the SBOM tree builder, payload serialisation (`None`
   * when it throws), and whether an SBOM's dependency tree has no packages.
   */
  datatype Upload = Upload(
    listing: Option<seq<Bundler.Entry>>,
    tempDir: string,
    separator: string,
    process: Bundler.DataFile -> GraphBuilder.FileOutcome,
    sbomTree: GraphBuilder.PackageData -> Option<GraphBuilder.PackageWrapper>,
    serialize: GraphBuilder.PackageWrapper -> Option<seq<bv8>>,
    sbomHasNoPackages: GraphBuilder.PackageData -> bool)

  predicate WellFormedUpload(u: Upload) {
    |u.tempDir| > 0 && |u.separator| > 0
  }

  /**
   * How processing the upload ended: a root graph with its serialised payload, its
   * purl and whether its SBOM is empty; or an exception, of the kinds reported as
   * "Bad Request" (`badRequest`) or as "Internal Server Error".
   */
  datatype UploadOutcome =
    | Parsed(payload: seq<bv8>, rootPurl: string, sbomEmpty: bool)
    | Threw(badRequest: bool)

  /**
   * The chosen bundle, filed under the repository name: its root graph (none gives an
   * index error), serialised (may throw), and its first SBOM (none gives an error).
   */
  function BundleOutcome(files: seq<Bundler.DataFile>, repository: string, u: Upload): UploadOutcome {
    var outcomes := seq(|files|, i requires 0 <= i < |files| => u.process(files[i]));
    var roots := GraphBuilder.ParseSpec([repository], map[repository := outcomes], u.sbomTree);
    if |roots| == 0 then Threw(false)
    else
      var p := roots[0];
      match u.serialize(p)
      case None => Threw(false)
      case Some(bytes) =>
        match GraphBuilder.FirstSbom(p.dependencyData)
        case None => Threw(false)
        case Some(sbom) => Parsed(bytes, p.purl, u.sbomHasNoPackages(sbom))
  }

  /**
   * The outcomes processing may have: a failed unpack is a bad request; no bundle
   * makes `findAny().get()` throw; otherwise any one bundle of the map is used.
   */
  predicate PossibleOutcome(o: UploadOutcome, u: Upload, repository: string)
    requires WellFormedUpload(u)
  {
    match u.listing
    case None => o == Threw(true)
    case Some(entries) =>
      var projects := Bundler.Bundle(entries, u.tempDir, u.separator);
      if projects == map[] then o == Threw(false)
      else exists key :: key in projects && o == BundleOutcome(projects[key], repository, u)
  }

  /** The processing steps of the `try` block in `handleGitEvent`, up to the SBOM check. */
  method ProcessUpload(u: Upload, repository: string) returns (o: UploadOutcome)
    requires WellFormedUpload(u)
    ensures PossibleOutcome(o, u, repository)
  {
    if u.listing.None? {
      return Threw(true);
    }
    var projectsMap := Bundler.ProcessZipFile(u.listing.value, u.tempDir, u.separator);
    if projectsMap == map[] {
      return Threw(false);
    }
    var key :| key in projectsMap;
    var files := projectsMap[key];
    var outcomes := seq(|files|, i requires 0 <= i < |files| => u.process(files[i]));
    var roots := GraphBuilder.ParseProjectsMap(map[repository := outcomes], [repository], u.sbomTree);
    if |roots| == 0 {
      return Threw(false);
    }
    var p := roots[0];
    var bytes := u.serialize(p);
    if bytes.None? {
      return Threw(false);
    }
    var sbom := GraphBuilder.FirstSbom(p.dependencyData);
    if sbom.None? {
      return Threw(false);
    }
    o := Parsed(bytes.value, p.purl, u.sbomHasNoPackages(sbom.value));
  }

  /**
   * An archive holding one complete project (its other entries being directories or
   * unmatched paths, which are skipped) leaves no choice: its bundle is the one processed.
   */
  lemma SingleProjectUpload(u: Upload, entries: seq<Bundler.Entry>, project: string, repository: string, o: UploadOutcome)
    requires WellFormedUpload(u) && u.listing == Some(entries) && project != ""
    requires forall i :: 0 <= i < |entries| ==>
      || Bundler.ProjectOf(entries[i], u.tempDir, u.separator) == None
      || Bundler.ProjectOf(entries[i], u.tempDir, u.separator) == Some(project)
    requires Bundler.CompleteBundle(Bundler.TypesOf(Bundler.RecognisedFiles(entries, u.tempDir, u.separator, project)))
    ensures PossibleOutcome(o, u, repository)
        <==> o == BundleOutcome(Bundler.RecognisedFiles(entries, u.tempDir, u.separator, project), repository, u)
  {
    Bundler.SingleProjectArchive(entries, u.tempDir, u.separator, project);
    var files := Bundler.RecognisedFiles(entries, u.tempDir, u.separator, project);
    var projects := Bundler.Bundle(entries, u.tempDir, u.separator);
    assert projects == map[project := files];
    assert project in projects;
    if PossibleOutcome(o, u, repository) {
      var key :| key in projects && o == BundleOutcome(projects[key], repository, u);
      assert key == project;
    }
  }

  /** Processing always has at least one possible outcome. */
  lemma SomeOutcomePossible(u: Upload, repository: string)
    requires WellFormedUpload(u)
    ensures exists o :: PossibleOutcome(o, u, repository)
  {
    match u.listing
    case None =>
      assert PossibleOutcome(Threw(true), u, repository);
    case Some(entries) =>
      var projects := Bundler.Bundle(entries, u.tempDir, u.separator);
      if projects == map[] {
        assert PossibleOutcome(Threw(false), u, repository);
      } else {
        var key :| key in projects;
        assert PossibleOutcome(BundleOutcome(projects[key], repository, u), u, repository);
      }
  }

  // ---------------------------------------------------------------------------
  // Recording the event

  /** A validated event as the service receives it: its fields, its coordinates and its full purl. */
  datatype GitEvent = GitEvent(fields: PurlValidator.ValidEvent, datasourcePurl: string, eventPurl: string)

  function EmptySbomMessage(purl: string): string {
    "event " + purl + " has an empty SBOM - rejecting event"
  }

  function AlreadyExistsMessage(purl: string): string {
    "event " + purl + " already exists and has been previously processed."
  }

  function AcceptedReply(txid: Txid, at: int): Reply {
    Reply(Accepted202, None, txid, at)
  }

  /**
   * The dataset's datasource set gains the datasource unless one of its datasources is
   * named `repository` (the comparison is against the stored name); then the
   * dataset's updatedAt is set.
   */
  function LinkDatasource(t: Tables, d: nat, s: nat, repository: string, at: int): (r: Tables)
    requires d < |t.datasets|
    ensures r.datasources == t.datasources && r.events == t.events && |r.datasets| == |t.datasets|
    ensures forall k :: 0 <= k < |t.datasets| && k != d ==> r.datasets[k] == t.datasets[k]
    ensures r.datasets[d].updatedAt == at
    ensures s in r.datasets[d].datasources <==>
      s in t.datasets[d].datasources
      || !exists k :: k in t.datasets[d].datasources && k < |t.datasources| && t.datasources[k].name == repository
    ensures t.datasets[d].datasources <= r.datasets[d].datasources <= t.datasets[d].datasources + {s}
    ensures r.datasets[d].(updatedAt := t.datasets[d].updatedAt, datasources := t.datasets[d].datasources) == t.datasets[d]
  {
    var dataset := t.datasets[d];
    var matched := exists k :: k in dataset.datasources && k < |t.datasources| && t.datasources[k].name == repository;
    var linked := if matched then dataset else dataset.(datasources := dataset.datasources + {s});
    t.(datasets := t.datasets[d := linked.(updatedAt := at)])
  }

  /** READY_FOR_PROCESSING for the datasource and the dataset, except where their status is one that is kept. */
  function Promote(t: Tables, d: nat, s: nat): Tables
    requires d < |t.datasets| && s < |t.datasources|
  {
    var source := t.datasources[s];
    var dataset := t.datasets[d];
    t.(datasources := t.datasources[s := if KeepsDatasourceStatus(source.status) then source
                                         else source.(status := DatasourceStatus.ReadyForProcessing)],
       datasets := t.datasets[d := if KeepsDatasetStatus(dataset.status) then dataset
                                   else dataset.(status := DatasetStatus.ReadyForProcessing)])
  }

  function RemoveAt(events: seq<Event>, j: nat): seq<Event>
    requires j < |events|
  {
    events[..j] + events[j + 1..]
  }

  /**
   * Saving the event, and the duplicate handling around it: a save that would repeat
   * a stored event purl fails; the stored event is then looked up by the root graph's
   * purl (none found is an index error, reported as "Internal Server Error"); if that
   * event is PROCESSING_ERROR it is deleted and the save retried (a second failure is
   * reported as "Bad Request"), otherwise the submission is rejected with 400 and the
   * store is left alone. A saved event promotes its datasource and dataset and
   * yields 202.
   */
  function StoreEvent(t: Tables, d: nat, s: nat, record: Event, rootPurl: string, txid: Txid, at: int): (r: (Tables, Reply))
    requires d < |t.datasets| && s < |t.datasources|
  {
    if |Positions(t.events, EventWithPurl(record.purl))| == 0 then
      (Promote(t.(events := t.events + [record]), d, s), AcceptedReply(txid, at))
    else
      var existing := Positions(t.events, EventWithPurl(rootPurl));
      if |existing| == 0 then
        (RecordDatasourceError(t, s, InternalServerErrorPhrase), ErrorReply(txid, at))
      else
        var j := existing[0];
        if t.events[j].status == EventStatus.ProcessingError then
          var remaining := RemoveAt(t.events, j);
          if |Positions(remaining, EventWithPurl(record.purl))| == 0 then
            (Promote(t.(events := remaining + [record]), d, s), AcceptedReply(txid, at))
          else
            (RecordDatasourceError(t.(events := remaining), s, BadRequestPhrase), ErrorReply(txid, at))
        else
          (t, Reply(BadRequest400, Some(AlreadyExistsMessage(rootPurl)), txid, at))
  }

  /** The event record the service builds, once processing has produced a payload. */
  function EventRecord(ev: GitEvent, s: nat, txid: Txid, at: int, payload: seq<bv8>): Event {
    Event(ev.eventPurl, s, txid, ev.fields.commitHash, ev.fields.branch, ev.fields.commitDatetime, at,
          EventStatus.ReadyForProcessing, Some(payload))
  }

  /**
   * `handleGitEvent` on the tables: upsert the dataset (several with the name throw,
   * out of the handler) and the datasource, link and touch the dataset, then: a
   * failed upload write or a processing exception records the error against the
   * datasource; an empty SBOM is rejected with 400 and no event; otherwise the event
   * is stored as `StoreEvent` says.
   */
  function HandleSpec(t: Tables, txid: Txid, at: int, ev: GitEvent, serialized: bool, outcome: UploadOutcome)
    : (r: (Tables, Result<Reply, Failure>))
  {
    var f := ev.fields;
    var withDataset := UpsertDataset(t, f.domain, at, txid);
    if withDataset.1.Err? then (withDataset.0, Err(withDataset.1.error))
    else
      var d := withDataset.1.value;
      var withSource := UpsertDatasource(withDataset.0, d, ev.datasourcePurl, f.domain, f.packedName,
                                         f.datasourceType, f.branch, at, txid);
      var s := withSource.1;
      var linked := LinkDatasource(withSource.0, d, s, f.repository, at);
      if !serialized then
        (RecordDatasourceError(linked, s, BadRequestPhrase), Ok(ErrorReply(txid, at)))
      else
        OutcomeSpec(linked, d, s, ev, txid, at, outcome)
  }

  /** What `handleGitEvent` does with the processing outcome, once the upload is written. */
  function OutcomeSpec(t: Tables, d: nat, s: nat, ev: GitEvent, txid: Txid, at: int, outcome: UploadOutcome)
    : (r: (Tables, Result<Reply, Failure>))
    requires d < |t.datasets| && s < |t.datasources|
  {
    match outcome
    case Threw(badRequest) =>
      (RecordDatasourceError(t, s, if badRequest then BadRequestPhrase else InternalServerErrorPhrase),
       Ok(ErrorReply(txid, at)))
    case Parsed(payload, rootPurl, sbomEmpty) =>
      if sbomEmpty then
        (t, Ok(Reply(BadRequest400, Some(EmptySbomMessage(ev.eventPurl)), txid, at)))
      else
        var stored := StoreEvent(t, d, s, EventRecord(ev, s, txid, at, payload), rootPurl, txid, at);
        (stored.0, Ok(stored.1))
  }

  /** The save, the duplicate handling and the promotions of `handleGitEvent`, on the store. */
  method SaveEvent(store: Store, d: nat, s: nat, record: Event, rootPurl: string, txid: Txid, at: int)
    returns (reply: Reply)
    requires d < |store.datasets| && s < |store.datasources|
    modifies store
    ensures (store.Snapshot(), reply) == StoreEvent(old(store.Snapshot()), d, s, record, rootPurl, txid, at)
  {
    var conflicting := Positions(store.events, EventWithPurl(record.purl));
    if |conflicting| == 0 {
      store.events := store.events + [record];
    } else {
      var existing := Positions(store.events, EventWithPurl(rootPurl));
      if |existing| == 0 {
        reply := RecordErrorForDatasource(store, s, InternalServerErrorPhrase, txid, at);
        return;
      }
      var j := existing[0];
      assert j in existing;
      if store.events[j].status == EventStatus.ProcessingError {
        store.events := store.events[..j] + store.events[j + 1..];
        var again := Positions(store.events, EventWithPurl(record.purl));
        if |again| > 0 {
          reply := RecordErrorForDatasource(store, s, BadRequestPhrase, txid, at);
          return;
        }
        store.events := store.events + [record];
      } else {
        reply := Reply(BadRequest400, Some(AlreadyExistsMessage(rootPurl)), txid, at);
        return;
      }
    }
    var datasource := store.datasources[s];
    if datasource.status != DatasourceStatus.Initializing
       && datasource.status != DatasourceStatus.Processing
       && datasource.status != DatasourceStatus.ReadyForNextProcessing
    {
      datasource := datasource.(status := DatasourceStatus.ReadyForProcessing);
    }
    store.datasources := store.datasources[s := datasource];
    var dataset := store.datasets[d];
    if dataset.status != DatasetStatus.Initializing && dataset.status != DatasetStatus.Processing {
      dataset := dataset.(status := DatasetStatus.ReadyForProcessing);
    }
    store.datasets := store.datasets[d := dataset];
    reply := AcceptedReply(txid, at);
  }

  /** The name filter, the link and the dataset's updatedAt, on the store. */
  method LinkAndTouch(store: Store, d: nat, s: nat, repository: string, at: int)
    requires d < |store.datasets|
    modifies store
    ensures store.Snapshot() == LinkDatasource(old(store.Snapshot()), d, s, repository, at)
  {
    var dataset := store.datasets[d];
    var matched := exists k :: k in dataset.datasources && k < |store.datasources| && store.datasources[k].name == repository;
    if !matched {
      dataset := dataset.(datasources := dataset.datasources + {s});
      store.datasets := store.datasets[d := dataset];
    }
    dataset := dataset.(updatedAt := at);
    store.datasets := store.datasets[d := dataset];
  }

  /**
   * `handleGitEvent`: `serialized` says whether writing the upload to the temp
   * directory succeeded; the processing outcome is one of the possible ones.
   * `Err` is an exception that leaves the handler.
   */
  method HandleGitEvent(store: Store, txid: Txid, at: int, ev: GitEvent, serialized: bool, upload: Upload)
    returns (r: Result<Reply, Failure>)
    requires WellFormedUpload(upload)
    modifies store
    ensures exists o :: (serialized ==> PossibleOutcome(o, upload, ev.fields.repository))
                        && (store.Snapshot(), r) == HandleSpec(old(store.Snapshot()), txid, at, ev, serialized, o)
  {
    ghost var t0 := store.Snapshot();
    var f := ev.fields;
    var datasetRecord := FetchOrMakeDataset(store, f.domain, at, txid);
    if datasetRecord.Err? {
      r := Err(datasetRecord.error);
      SomeOutcomePossible(upload, f.repository);
      ghost var o :| PossibleOutcome(o, upload, f.repository);
      assert (store.Snapshot(), r) == HandleSpec(t0, txid, at, ev, serialized, o);
      return;
    }
    var d := datasetRecord.value;
    var s := FetchOrMakeDatasource(store, d, ev.datasourcePurl, f.domain, f.packedName, f.datasourceType, f.branch, at, txid);
    LinkAndTouch(store, d, s, f.repository, at);
    if !serialized {
      var reply := RecordErrorForDatasource(store, s, BadRequestPhrase, txid, at);
      r := Ok(reply);
      assert (store.Snapshot(), r) == HandleSpec(t0, txid, at, ev, serialized, Threw(true));
      return;
    }
    var outcome := ProcessUpload(upload, f.repository);
    r := RecordOutcome(store, d, s, ev, txid, at, outcome);
  }

  /** The rest of the `try` block and its `catch`: the empty-SBOM check, the save, or the error recording. */
  method RecordOutcome(store: Store, d: nat, s: nat, ev: GitEvent, txid: Txid, at: int, outcome: UploadOutcome)
    returns (r: Result<Reply, Failure>)
    requires d < |store.datasets| && s < |store.datasources|
    modifies store
    ensures (store.Snapshot(), r) == OutcomeSpec(old(store.Snapshot()), d, s, ev, txid, at, outcome)
  {
    match outcome {
      case Threw(badRequest) =>
        var lastEventReceivedStatus := if badRequest then BadRequestPhrase else InternalServerErrorPhrase;
        var reply := RecordErrorForDatasource(store, s, lastEventReceivedStatus, txid, at);
        r := Ok(reply);
      case Parsed(payload, rootPurl, sbomEmpty) =>
        var record := EventRecord(ev, s, txid, at, payload);
        if sbomEmpty {
          r := Ok(Reply(BadRequest400, Some(EmptySbomMessage(record.purl)), txid, at));
        } else {
          var reply := SaveEvent(store, d, s, record, rootPurl, txid, at);
          r := Ok(reply);
        }
    }
  }

  /**
   * The git-input endpoint: a purl the validation chain rejects gets 400 with the
   * chain's message and the store is not touched; an accepted one is handed to
   * `handleGitEvent`, whose reply is the response.
   */
  method SubmitGitEvent(store: Store, p: PurlValidator.Purl, expectedDomain: string, datetimeParses: string -> bool,
                        txid: Txid, at: int, datasourcePurl: string, eventPurl: string,
                        serialized: bool, upload: Upload)
    returns (r: Result<Reply, Failure>)
    requires WellFormedUpload(upload)
    modifies store
    ensures PurlValidator.Validate(p, expectedDomain, datetimeParses).Rejected? ==>
      && store.Snapshot() == old(store.Snapshot())
      && r == Ok(Reply(BadRequest400, Some(PurlValidator.Validate(p, expectedDomain, datetimeParses).message), txid, at))
    ensures PurlValidator.Validate(p, expectedDomain, datetimeParses).Accepted? ==>
      var ev := GitEvent(PurlValidator.Validate(p, expectedDomain, datetimeParses).event, datasourcePurl, eventPurl);
      exists o :: (serialized ==> PossibleOutcome(o, upload, ev.fields.repository))
                  && (store.Snapshot(), r) == HandleSpec(old(store.Snapshot()), txid, at, ev, serialized, o)
  {
    var verdict := PurlValidator.Validate(p, expectedDomain, datetimeParses);
    match verdict {
      case Rejected(message) =>
        r := Ok(Reply(BadRequest400, Some(message), txid, at));
      case Accepted(fields) =>
        r := HandleGitEvent(store, txid, at, GitEvent(fields, datasourcePurl, eventPurl), serialized, upload);
    }
  }

  // ---------------------------------------------------------------------------
  // What handling a git event promises.

  /** Removing one event keeps the others, in order. */
  lemma RemoveAtFacts(events: seq<Event>, j: nat)
    requires j < |events|
    ensures |RemoveAt(events, j)| == |events| - 1
    ensures forall k :: 0 <= k < |events| - 1 ==> RemoveAt(events, j)[k] == events[if k < j then k else k + 1]
    ensures multiset(RemoveAt(events, j)) + multiset{events[j]} == multiset(events)
  {
    assert events == events[..j] + [events[j]] + events[j + 1..];
  }

  /** Appending an event whose purl no stored event has keeps event purls unique and references valid. */
  lemma AppendFreshEvent(t: Tables, record: Event)
    requires ValidTables(t) && UniqueKeys(t) && record.datasource < |t.datasources|
    requires |Positions(t.events, EventWithPurl(record.purl))| == 0
    ensures ValidTables(t.(events := t.events + [record])) && UniqueKeys(t.(events := t.events + [record]))
  {
    var events := t.events + [record];
    forall i, j | 0 <= i < j < |events| ensures events[i].purl != events[j].purl {
      if j == |t.events| {
        assert i !in Positions(t.events, EventWithPurl(record.purl));
      }
    }
  }

  /** Dropping one event keeps references valid and keys unique. */
  lemma DropEvent(t: Tables, j: nat)
    requires ValidTables(t) && UniqueKeys(t) && j < |t.events|
    ensures ValidTables(t.(events := RemoveAt(t.events, j))) && UniqueKeys(t.(events := RemoveAt(t.events, j)))
  {
    RemoveAtFacts(t.events, j);
    var events := RemoveAt(t.events, j);
    forall e | e in events ensures e.datasource < |t.datasources| {
      assert e in multiset(t.events);
    }
  }

  /** Promotion changes statuses only. */
  lemma PromotePreservesInvariants(t: Tables, d: nat, s: nat)
    requires ValidTables(t) && UniqueKeys(t) && d < |t.datasets| && s < |t.datasources|
    ensures ValidTables(Promote(t, d, s)) && UniqueKeys(Promote(t, d, s))
  {
    var r := Promote(t, d, s);
    forall x, k | x in r.datasets && k in x.datasources ensures k < |r.datasources| {
      var i :| 0 <= i < |r.datasets| && r.datasets[i] == x;
      assert t.datasets[i] in t.datasets;
    }
    forall x, j | x in r.datasources && j in x.datasets ensures j < |r.datasets| {
      var i :| 0 <= i < |r.datasources| && r.datasources[i] == x;
      assert t.datasources[i] in t.datasources;
    }
  }

  /** Linking a datasource to a dataset keeps references valid and keys unique. */
  lemma LinkDatasourcePreservesInvariants(t: Tables, d: nat, s: nat, repository: string, at: int)
    requires ValidTables(t) && UniqueKeys(t) && d < |t.datasets| && s < |t.datasources|
    ensures ValidTables(LinkDatasource(t, d, s, repository, at)) && UniqueKeys(LinkDatasource(t, d, s, repository, at))
  {
    var r := LinkDatasource(t, d, s, repository, at);
    forall x, k | x in r.datasets && k in x.datasources ensures k < |r.datasources| {
      var i :| 0 <= i < |r.datasets| && r.datasets[i] == x;
      assert t.datasets[i] in t.datasets;
    }
    forall x, j | x in r.datasources && j in x.datasets ensures j < |r.datasets| {
      assert x in t.datasources;
    }
  }

  /**
   * The save keeps references valid and event purls unique: an event is only ever
   * appended when no stored event carries its purl.
   */
  lemma StoreEventPreservesInvariants(t: Tables, d: nat, s: nat, record: Event, rootPurl: string, txid: Txid, at: int)
    requires ValidTables(t) && UniqueKeys(t) && d < |t.datasets| && s < |t.datasources| && record.datasource < |t.datasources|
    ensures ValidTables(StoreEvent(t, d, s, record, rootPurl, txid, at).0)
    ensures UniqueKeys(StoreEvent(t, d, s, record, rootPurl, txid, at).0)
  {
    if |Positions(t.events, EventWithPurl(record.purl))| == 0 {
      AppendFreshEvent(t, record);
      PromotePreservesInvariants(t.(events := t.events + [record]), d, s);
    } else {
      var existing := Positions(t.events, EventWithPurl(rootPurl));
      if |existing| == 0 {
        RecordDatasourceErrorPreservesInvariants(t, s, InternalServerErrorPhrase);
      } else {
        var j := existing[0];
        if t.events[j].status == EventStatus.ProcessingError {
          var dropped := t.(events := RemoveAt(t.events, j));
          DropEvent(t, j);
          if |Positions(dropped.events, EventWithPurl(record.purl))| == 0 {
            AppendFreshEvent(dropped, record);
            PromotePreservesInvariants(dropped.(events := dropped.events + [record]), d, s);
          } else {
            RecordDatasourceErrorPreservesInvariants(dropped, s, BadRequestPhrase);
          }
        }
      }
    }
  }

  /**
   * The save answers 202 or 400. A 202 means the record is now the last event and no
   * other event shares its purl; a 400 means no event was added (at most the errored
   * one was deleted). The events before the record are always stored events.
   */
  lemma StoreEventReplies(t: Tables, d: nat, s: nat, record: Event, rootPurl: string, txid: Txid, at: int)
    requires d < |t.datasets| && s < |t.datasources|
    ensures var r := StoreEvent(t, d, s, record, rootPurl, txid, at);
      && r.1.txid == txid && r.1.requestReceivedAt == at
      && (r.1.code == Accepted202 || r.1.code == BadRequest400)
      && (r.1.code == Accepted202 ==>
            && |r.0.events| > 0 && r.0.events[|r.0.events| - 1] == record
            && multiset(r.0.events[..|r.0.events| - 1]) <= multiset(t.events)
            && forall k :: 0 <= k < |r.0.events| - 1 ==> r.0.events[k].purl != record.purl)
      && (r.1.code == BadRequest400 ==> multiset(r.0.events) <= multiset(t.events))
  {
    var r := StoreEvent(t, d, s, record, rootPurl, txid, at);
    var unseen := Positions(t.events, EventWithPurl(record.purl));
    if |unseen| == 0 {
      assert r == (Promote(t.(events := t.events + [record]), d, s), AcceptedReply(txid, at));
      assert forall k :: 0 <= k < |t.events| ==> !EventWithPurl(record.purl)(t.events[k]);
      AcceptedSave(t, d, s, t.events, record);
    } else {
      var existing := Positions(t.events, EventWithPurl(rootPurl));
      if |existing| == 0 {
        assert r == (RecordDatasourceError(t, s, InternalServerErrorPhrase), ErrorReply(txid, at));
      } else {
        var j := existing[0];
        if t.events[j].status == EventStatus.ProcessingError {
          var remaining := RemoveAt(t.events, j);
          RemoveAtFacts(t.events, j);
          if |Positions(remaining, EventWithPurl(record.purl))| == 0 {
            assert r == (Promote(t.(events := remaining + [record]), d, s), AcceptedReply(txid, at));
            assert forall k :: 0 <= k < |remaining| ==> !EventWithPurl(record.purl)(remaining[k]);
            AcceptedSave(t, d, s, remaining, record);
          } else {
            assert r == (RecordDatasourceError(t.(events := remaining), s, BadRequestPhrase), ErrorReply(txid, at));
          }
        } else {
          assert r == (t, Reply(BadRequest400, Some(AlreadyExistsMessage(rootPurl)), txid, at));
        }
      }
    }
  }

  /** A save that appends the record after stored events none of which shares its purl. */
  lemma AcceptedSave(t: Tables, d: nat, s: nat, rest: seq<Event>, record: Event)
    requires d < |t.datasets| && s < |t.datasources|
    requires multiset(rest) <= multiset(t.events)
    requires forall k :: 0 <= k < |rest| ==> rest[k].purl != record.purl
    ensures var u := Promote(t.(events := rest + [record]), d, s);
      && |u.events| > 0 && u.events[|u.events| - 1] == record
      && multiset(u.events[..|u.events| - 1]) <= multiset(t.events)
      && forall k :: 0 <= k < |u.events| - 1 ==> u.events[k].purl != record.purl
  {
    var u := Promote(t.(events := rest + [record]), d, s);
    assert u.events == rest + [record];
    assert u.events[..|u.events| - 1] == rest;
  }

  /**
   * An event whose purl is not stored is saved: it is appended, 202 is returned, the
   * datasource moves to READY_FOR_PROCESSING unless it is INITIALIZING, PROCESSING or
   * READY_FOR_NEXT_PROCESSING, the dataset does so unless it is INITIALIZING or
   * PROCESSING, and every other row is left as it was.
   */
  lemma FreshEventAccepted(t: Tables, d: nat, s: nat, record: Event, rootPurl: string, txid: Txid, at: int)
    requires d < |t.datasets| && s < |t.datasources|
    requires forall k :: 0 <= k < |t.events| ==> t.events[k].purl != record.purl
    ensures var (r, reply) := StoreEvent(t, d, s, record, rootPurl, txid, at);
      && reply == AcceptedReply(txid, at)
      && r.events == t.events + [record]
      && |r.datasources| == |t.datasources| && |r.datasets| == |t.datasets|
      && r.datasources[s] == (if KeepsDatasourceStatus(t.datasources[s].status) then t.datasources[s]
                              else t.datasources[s].(status := DatasourceStatus.ReadyForProcessing))
      && r.datasets[d] == (if KeepsDatasetStatus(t.datasets[d].status) then t.datasets[d]
                           else t.datasets[d].(status := DatasetStatus.ReadyForProcessing))
      && (forall k :: 0 <= k < |t.datasources| && k != s ==> r.datasources[k] == t.datasources[k])
      && (forall k :: 0 <= k < |t.datasets| && k != d ==> r.datasets[k] == t.datasets[k])
  {
    PositionsOfNone(t.events, EventWithPurl(record.purl));
  }

  /**
   * A second event for a purl already stored in any status other than
   * PROCESSING_ERROR is refused as already existing, and nothing changes.
   */
  lemma LiveDuplicateRefused(t: Tables, d: nat, s: nat, record: Event, txid: Txid, at: int, j: nat)
    requires UniqueKeys(t) && d < |t.datasets| && s < |t.datasources| && j < |t.events|
    requires t.events[j].purl == record.purl && t.events[j].status != EventStatus.ProcessingError
    ensures StoreEvent(t, d, s, record, record.purl, txid, at)
            == (t, Reply(BadRequest400, Some(AlreadyExistsMessage(record.purl)), txid, at))
  {
    var found := Positions(t.events, EventWithPurl(record.purl));
    assert j in found;
    UniqueKeysAtMostOne(t, "", record.purl);
    assert found[0] in found;
  }

  /**
   * An event for a purl whose stored event failed processing replaces it: the failed
   * event is deleted, the new one appended, the owners promoted, and 202 returned.
   */
  lemma ReprocessAfterError(t: Tables, d: nat, s: nat, record: Event, txid: Txid, at: int, j: nat)
    requires UniqueKeys(t) && d < |t.datasets| && s < |t.datasources| && j < |t.events|
    requires t.events[j].purl == record.purl && t.events[j].status == EventStatus.ProcessingError
    ensures StoreEvent(t, d, s, record, record.purl, txid, at)
            == (Promote(t.(events := RemoveAt(t.events, j) + [record]), d, s), AcceptedReply(txid, at))
  {
    var found := Positions(t.events, EventWithPurl(record.purl));
    assert j in found;
    UniqueKeysAtMostOne(t, "", record.purl);
    assert found[0] in found;
    var remaining := RemoveAt(t.events, j);
    RemoveAtFacts(t.events, j);
    forall k | 0 <= k < |remaining| ensures !EventWithPurl(record.purl)(remaining[k]) {
      var i := if k < j then k else k + 1;
      assert remaining[k] == t.events[i] && i != j;
      assert i !in found;
    }
    PositionsOfNone(remaining, EventWithPurl(record.purl));
  }

  /**
   * When the root graph's purl differs from the event's and names no stored event, a
   * resubmitted event is neither refused as already existing nor reprocessed: the
   * lookup finds nothing and the error is recorded as an Internal Server Error.
   */
  lemma UnmatchedRootPurlRecordsError(t: Tables, d: nat, s: nat, record: Event, rootPurl: string, txid: Txid, at: int, j: nat)
    requires d < |t.datasets| && s < |t.datasources| && j < |t.events|
    requires t.events[j].purl == record.purl
    requires forall k :: 0 <= k < |t.events| ==> t.events[k].purl != rootPurl
    ensures StoreEvent(t, d, s, record, rootPurl, txid, at)
            == (RecordDatasourceError(t, s, InternalServerErrorPhrase), ErrorReply(txid, at))
  {
    assert j in Positions(t.events, EventWithPurl(record.purl));
    PositionsOfNone(t.events, EventWithPurl(rootPurl));
  }

  /**
   * When the root graph's purl names another stored event, one that failed
   * processing, that other event is the one deleted; the retried save still meets the
   * stored event with the submitted purl, so the error is recorded as a Bad Request
   * against the store without the other event.
   */
  lemma RootPurlOfOtherFailedEventDeletesIt(t: Tables, d: nat, s: nat, record: Event, rootPurl: string,
                                            txid: Txid, at: int, j: nat, m: nat)
    requires UniqueKeys(t) && d < |t.datasets| && s < |t.datasources| && j < |t.events| && m < |t.events|
    requires t.events[j].purl == record.purl && t.events[m].purl == rootPurl && rootPurl != record.purl
    requires t.events[m].status == EventStatus.ProcessingError
    ensures StoreEvent(t, d, s, record, rootPurl, txid, at)
            == (RecordDatasourceError(t.(events := RemoveAt(t.events, m)), s, BadRequestPhrase), ErrorReply(txid, at))
  {
    assert j in Positions(t.events, EventWithPurl(record.purl));
    var existing := Positions(t.events, EventWithPurl(rootPurl));
    assert m in existing;
    UniqueKeysAtMostOne(t, "", rootPurl);
    assert existing[0] in existing;
    assert existing[0] == m;
    StillStoredAfterRemoval(t.events, j, m, record.purl);
  }

  /** Removing one event keeps every other stored purl findable. */
  lemma StillStoredAfterRemoval(events: seq<Event>, j: nat, m: nat, purl: string)
    requires j < |events| && m < |events| && j != m && events[j].purl == purl
    ensures |Positions(RemoveAt(events, m), EventWithPurl(purl))| > 0
  {
    var remaining := RemoveAt(events, m);
    RemoveAtFacts(events, m);
    var i := if j < m then j else j - 1;
    assert remaining[i] == events[j];
    assert i in Positions(remaining, EventWithPurl(purl));
  }

  /** The dataset and datasource the handler works on, once both upserts succeed. */
  lemma PreparedIndices(t: Tables, at: int, txid: Txid, ev: GitEvent)
    requires ValidTables(t) && UniqueKeys(t)
    ensures var withDataset := UpsertDataset(t, ev.fields.domain, at, txid);
      && withDataset.1.Ok?
      && ValidTables(withDataset.0) && UniqueKeys(withDataset.0)
      && var withSource := UpsertDatasource(withDataset.0, withDataset.1.value, ev.datasourcePurl, ev.fields.domain,
                                            ev.fields.packedName, ev.fields.datasourceType, ev.fields.branch, at, txid);
         && ValidTables(withSource.0) && UniqueKeys(withSource.0)
         && ValidTables(LinkDatasource(withSource.0, withDataset.1.value, withSource.1, ev.fields.repository, at))
         && UniqueKeys(LinkDatasource(withSource.0, withDataset.1.value, withSource.1, ev.fields.repository, at))
  {
    var f := ev.fields;
    UpsertDatasetTotalOnUniqueNames(t, f.domain, at, txid);
    UpsertDatasetPreservesInvariants(t, f.domain, at, txid);
    var withDataset := UpsertDataset(t, f.domain, at, txid);
    var d := withDataset.1.value;
    UpsertDatasourcePreservesInvariants(withDataset.0, d, ev.datasourcePurl, f.domain, f.packedName, f.datasourceType,
                                        f.branch, at, txid);
    var withSource := UpsertDatasource(withDataset.0, d, ev.datasourcePurl, f.domain, f.packedName, f.datasourceType,
                                       f.branch, at, txid);
    LinkDatasourcePreservesInvariants(withSource.0, d, withSource.1, f.repository, at);
  }

  /**
   * On a store whose references are valid and keys unique, handling a git event never
   * throws, and the store stays valid with unique keys whatever the upload yields.
   */
  lemma HandleSpecPreservesInvariants(t: Tables, txid: Txid, at: int, ev: GitEvent, serialized: bool, outcome: UploadOutcome)
    requires ValidTables(t) && UniqueKeys(t)
    ensures HandleSpec(t, txid, at, ev, serialized, outcome).1.Ok?
    ensures ValidTables(HandleSpec(t, txid, at, ev, serialized, outcome).0)
    ensures UniqueKeys(HandleSpec(t, txid, at, ev, serialized, outcome).0)
  {
    PreparedIndices(t, at, txid, ev);
    var f := ev.fields;
    var withDataset := UpsertDataset(t, f.domain, at, txid);
    var d := withDataset.1.value;
    var withSource := UpsertDatasource(withDataset.0, d, ev.datasourcePurl, f.domain, f.packedName, f.datasourceType,
                                       f.branch, at, txid);
    var s := withSource.1;
    var linked := LinkDatasource(withSource.0, d, s, f.repository, at);
    if !serialized {
      RecordDatasourceErrorPreservesInvariants(linked, s, BadRequestPhrase);
    } else {
      match outcome
      case Threw(badRequest) =>
        RecordDatasourceErrorPreservesInvariants(linked, s, if badRequest then BadRequestPhrase else InternalServerErrorPhrase);
      case Parsed(payload, rootPurl, sbomEmpty) =>
        if !sbomEmpty {
          StoreEventPreservesInvariants(linked, d, s, EventRecord(ev, s, txid, at, payload), rootPurl, txid, at);
        }
    }
  }

  /**
   * An upload whose SBOM lists no packages is refused with the empty-SBOM message,
   * and no event is stored.
   */
  lemma EmptySbomStoresNothing(t: Tables, txid: Txid, at: int, ev: GitEvent, payload: seq<bv8>, rootPurl: string)
    requires UniqueKeys(t)
    ensures var r := HandleSpec(t, txid, at, ev, true, Parsed(payload, rootPurl, true));
      && r.0.events == t.events
      && r.1 == Ok(Reply(BadRequest400, Some(EmptySbomMessage(ev.eventPurl)), txid, at))
  {
    UpsertDatasetTotalOnUniqueNames(t, ev.fields.domain, at, txid);
  }

  /**
   * A failed upload (no archive, no project, or an exception while parsing) stores no
   * event, answers 400, and leaves the event's datasource in an error status carrying
   * the failure's phrase.
   */
  lemma FailedUploadRecorded(t: Tables, txid: Txid, at: int, ev: GitEvent, badRequest: bool)
    requires UniqueKeys(t)
    ensures var r := HandleSpec(t, txid, at, ev, true, Threw(badRequest));
      && r.0.events == t.events
      && r.1 == Ok(ErrorReply(txid, at))
      && exists i :: 0 <= i < |r.0.datasources| && r.0.datasources[i].purl == ev.datasourcePurl
                     && r.0.datasources[i].lastEventReceivedStatus
                        == (if badRequest then BadRequestPhrase else InternalServerErrorPhrase)
                     && (r.0.datasources[i].status == DatasourceStatus.Processing
                         || r.0.datasources[i].status == DatasourceStatus.ProcessingError)
  {
    UpsertDatasetTotalOnUniqueNames(t, ev.fields.domain, at, txid);
    var f := ev.fields;
    var withDataset := UpsertDataset(t, f.domain, at, txid);
    var d := withDataset.1.value;
    var withSource := UpsertDatasource(withDataset.0, d, ev.datasourcePurl, f.domain, f.packedName, f.datasourceType,
                                       f.branch, at, txid);
    var s := withSource.1;
    var r := HandleSpec(t, txid, at, ev, true, Threw(badRequest));
    assert r.0.datasources[s].purl == ev.datasourcePurl;
  }

  /**
   * An event that cannot be serialized is refused with 400 and no event is stored; its
   * datasource records "Bad Request".
   */
  lemma UnserializableEventRefused(t: Tables, txid: Txid, at: int, ev: GitEvent, outcome: UploadOutcome)
    requires UniqueKeys(t)
    ensures var r := HandleSpec(t, txid, at, ev, false, outcome);
      && r.0.events == t.events && r.1 == Ok(ErrorReply(txid, at))
  {
    UpsertDatasetTotalOnUniqueNames(t, ev.fields.domain, at, txid);
  }
}
