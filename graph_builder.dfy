/**
 * Root-graph selection (`InputService.parseProjectsMap`): for each project bundle the
 * files are processed in order; the last file that yields a dependency-graph root
 * becomes the root, otherwise the first SBOM data item builds one, otherwise the
 * project contributes nothing.
 */
module GraphBuilder {
  import opened Wrappers

  datatype PackageDataType = Sbom | OtherDataType(name: string)

  /** Auxiliary data a file yields (`PackageData`); `content` stands for its parsed payload. */
  datatype PackageData = PackageData(dataType: PackageDataType, content: string)

  /**
   * A package graph root (`PackageWrapper`): its own purl, the dependency data
   * attached to it, and the isRoot mark.
   */
  datatype PackageWrapper = PackageWrapper(purl: string, dependencyData: seq<PackageData>, isRoot: bool)

  /**
   * What `dataFile.process()` gave for one file of a bundle: a graph root, a data item,
   * a result of an unrecognised class, or one of the caught exceptions.
   */
  datatype FileOutcome =
    | RootOutcome(node: PackageWrapper)
    | DataOutcome(data: PackageData)
    | Unrecognised
    | Threw

  /** The root the file loop ends with: the last file that yielded one. */
  function LastRoot(outcomes: seq<FileOutcome>): (r: Option<PackageWrapper>)
    ensures r.None? <==> forall i :: 0 <= i < |outcomes| ==> !outcomes[i].RootOutcome?
    ensures r.Some? ==> exists i :: 0 <= i < |outcomes| && outcomes[i] == RootOutcome(r.value)
                          && forall j :: i < j < |outcomes| ==> !outcomes[j].RootOutcome?
    decreases |outcomes|
  {
    if outcomes == [] then None
    else
      var n := |outcomes| - 1;
      if outcomes[n].RootOutcome? then Some(outcomes[n].node)
      else
        var r := LastRoot(outcomes[..n]);
        LastRootStep(outcomes, outcomes[..n], r);
        r
  }

  /** The step of `LastRoot` over a last file that is not a root. */
  lemma LastRootStep(outcomes: seq<FileOutcome>, init: seq<FileOutcome>, r: Option<PackageWrapper>)
    requires |outcomes| > 0 && init == outcomes[..|outcomes| - 1] && !outcomes[|outcomes| - 1].RootOutcome?
    requires r.None? <==> forall i :: 0 <= i < |init| ==> !init[i].RootOutcome?
    requires r.Some? ==> exists i :: 0 <= i < |init| && init[i] == RootOutcome(r.value)
                           && forall j :: i < j < |init| ==> !init[j].RootOutcome?
    ensures r.None? <==> forall i :: 0 <= i < |outcomes| ==> !outcomes[i].RootOutcome?
    ensures r.Some? ==> exists i :: 0 <= i < |outcomes| && outcomes[i] == RootOutcome(r.value)
                          && forall j :: i < j < |outcomes| ==> !outcomes[j].RootOutcome?
  {
    var n := |outcomes| - 1;
    assert forall i :: 0 <= i < n ==> init[i] == outcomes[i];
    if r.Some? {
      var i :| 0 <= i < n && init[i] == RootOutcome(r.value) && forall j :: i < j < n ==> !init[j].RootOutcome?;
      assert outcomes[i] == RootOutcome(r.value);
    }
  }

  /** The `dependencyDataList` the file loop builds: every data item, in file order. */
  function DataItems(outcomes: seq<FileOutcome>): (r: seq<PackageData>)
    ensures forall d :: d in r <==> DataOutcome(d) in outcomes
    ensures |r| <= |outcomes|
    decreases |outcomes|
  {
    if outcomes == [] then []
    else
      var n := |outcomes| - 1;
      var before := DataItems(outcomes[..n]);
      assert outcomes == outcomes[..n] + [outcomes[n]];
      if outcomes[n].DataOutcome? then before + [outcomes[n].data] else before
  }

  /** The first SBOM item of the data list. */
  function FirstSbom(data: seq<PackageData>): (r: Option<PackageData>)
    ensures r.None? <==> forall i :: 0 <= i < |data| ==> data[i].dataType != Sbom
    ensures r.Some? ==> exists i :: 0 <= i < |data| && data[i] == r.value && r.value.dataType == Sbom
                          && forall j :: 0 <= j < i ==> data[j].dataType != Sbom
    decreases |data|
  {
    if data == [] then None
    else if data[0].dataType == Sbom then Some(data[0])
    else
      var r := FirstSbom(data[1..]);
      assert r.Some? ==> exists i :: 0 <= i < |data| && data[i] == r.value && r.value.dataType == Sbom
                          && forall j :: 0 <= j < i ==> data[j].dataType != Sbom by {
        if r.Some? {
          var i :| 0 <= i < |data[1..]| && data[1..][i] == r.value && r.value.dataType == Sbom
                   && forall j :: 0 <= j < i ==> data[1..][j].dataType != Sbom;
          assert data[i + 1] == r.value;
          assert forall j :: 0 <= j < i + 1 ==> data[j].dataType != Sbom by {
            forall j | 0 <= j < i + 1 ensures data[j].dataType != Sbom {
              if j > 0 { assert data[j] == data[1..][j - 1]; }
            }
          }
        }
      }
      r
  }

  /**
   * The root a project contributes, given its file outcomes and the SBOM tree builder
   * (`getDependencyTree`, `None` when it throws): the last graph root with every data
   * item attached; failing that, the tree built from the first SBOM item, with every
   * data item attached and marked isRoot; failing that, nothing.
   */
  function ProjectRoot(outcomes: seq<FileOutcome>, sbomTree: PackageData -> Option<PackageWrapper>): Option<PackageWrapper> {
    var items := DataItems(outcomes);
    match LastRoot(outcomes)
    case Some(node) => Some(node.(dependencyData := node.dependencyData + items))
    case None =>
      match FirstSbom(items)
      case None => None
      case Some(sbom) =>
        match sbomTree(sbom)
        case None => None
        case Some(tree) => Some(tree.(dependencyData := tree.dependencyData + items, isRoot := true))
  }

  /** `order` is an iteration order of the map's key set: every key exactly once. */
  predicate KeyOrder(order: seq<string>, projects: map<string, seq<FileOutcome>>) {
    && (forall k :: k in projects ==> k in order)
    && (forall k :: k in order ==> k in projects)
    && (forall i, j :: 0 <= i < j < |order| ==> order[i] != order[j])
  }

  /** The list `parseProjectsMap` returns, with `order` the map's key iteration order. */
  function ParseSpec(order: seq<string>, projects: map<string, seq<FileOutcome>>,
                     sbomTree: PackageData -> Option<PackageWrapper>): seq<PackageWrapper>
    requires forall k :: k in order ==> k in projects
    decreases |order|
  {
    if order == [] then []
    else
      var n := |order| - 1;
      var previous := ParseSpec(order[..n], projects, sbomTree);
      match ProjectRoot(projects[order[n]], sbomTree)
      case None => previous
      case Some(root) => previous + [root]
  }

  /** The inner file loop of `parseProjectsMap` for one project, followed by the root choice. */
  method SelectRoot(outcomes: seq<FileOutcome>, sbomTree: PackageData -> Option<PackageWrapper>)
    returns (root: Option<PackageWrapper>)
    ensures root == ProjectRoot(outcomes, sbomTree)
  {
    var rootNode: Option<PackageWrapper> := None;
    var dependencyDataList: seq<PackageData> := [];
    for k := 0 to |outcomes|
      invariant rootNode == LastRoot(outcomes[..k])
      invariant dependencyDataList == DataItems(outcomes[..k])
    {
      assert outcomes[..k + 1][..k] == outcomes[..k];
      match outcomes[k]
      case RootOutcome(node) => rootNode := Some(node);
      case DataOutcome(data) => dependencyDataList := dependencyDataList + [data];
      case Unrecognised =>
      case Threw =>
    }
    assert outcomes[..|outcomes|] == outcomes;
    var sbomDataOptional := FirstSbom(dependencyDataList);
    root := None;
    if rootNode.Some? {
      root := Some(rootNode.value.(dependencyData := rootNode.value.dependencyData + dependencyDataList));
    }
    if rootNode.None? && sbomDataOptional.Some? {
      var tree := sbomTree(sbomDataOptional.value);
      if tree.Some? {
        root := Some(tree.value.(dependencyData := tree.value.dependencyData + dependencyDataList, isRoot := true));
      }
    }
  }

  /** `parseProjectsMap`: one root per project that yields one, in key order. */
  method ParseProjectsMap(projects: map<string, seq<FileOutcome>>, order: seq<string>,
                          sbomTree: PackageData -> Option<PackageWrapper>)
    returns (rv: seq<PackageWrapper>)
    requires KeyOrder(order, projects)
    ensures rv == ParseSpec(order, projects, sbomTree)
  {
    rv := [];
    for k := 0 to |order|
      invariant rv == ParseSpec(order[..k], projects, sbomTree)
    {
      ParseSpecPrefix(order, projects, sbomTree, k);
      var root := SelectRoot(projects[order[k]], sbomTree);
      if root.Some? {
        rv := rv + [root.value];
      }
    }
    assert order[..|order|] == order;
  }

  /** One more key of the order adds that key's root, if any, at the end. */
  lemma ParseSpecPrefix(order: seq<string>, projects: map<string, seq<FileOutcome>>,
                        sbomTree: PackageData -> Option<PackageWrapper>, k: nat)
    requires (forall x :: x in order ==> x in projects) && k < |order|
    ensures order[k] in projects
    ensures ParseSpec(order[..k + 1], projects, sbomTree)
         == ParseSpec(order[..k], projects, sbomTree)
          + (if ProjectRoot(projects[order[k]], sbomTree).Some? then [ProjectRoot(projects[order[k]], sbomTree).value] else [])
  {
    assert order[..k + 1][..k] == order[..k];
  }

  lemma {:induction false} LastRootConcat(a: seq<FileOutcome>, b: seq<FileOutcome>)
    ensures LastRoot(a + b) == if LastRoot(b).Some? then LastRoot(b) else LastRoot(a)
    decreases |b|
  {
    if b == [] {
      assert a + b == a;
    } else {
      var n := |b| - 1;
      assert (a + b)[..|a + b| - 1] == a + b[..n];
      assert (a + b)[|a + b| - 1] == b[n];
      LastRootConcat(a, b[..n]);
    }
  }

  lemma {:induction false} DataItemsConcat(a: seq<FileOutcome>, b: seq<FileOutcome>)
    ensures DataItems(a + b) == DataItems(a) + DataItems(b)
    decreases |b|
  {
    if b == [] {
      assert a + b == a;
    } else {
      var n := |b| - 1;
      assert (a + b)[..|a + b| - 1] == a + b[..n];
      assert (a + b)[|a + b| - 1] == b[n];
      DataItemsConcat(a, b[..n]);
    }
  }

  /** A file that threw, or yielded an unrecognised class, has no effect on the project's root. */
  lemma FailedFileIgnored(a: seq<FileOutcome>, b: seq<FileOutcome>, failed: FileOutcome,
                          sbomTree: PackageData -> Option<PackageWrapper>)
    requires failed == Threw || failed == Unrecognised
    ensures ProjectRoot(a + [failed] + b, sbomTree) == ProjectRoot(a + b, sbomTree)
  {
    LastRootConcat(a + [failed], b);
    LastRootConcat(a, [failed]);
    LastRootConcat(a, b);
    DataItemsConcat(a + [failed], b);
    DataItemsConcat(a, [failed]);
    DataItemsConcat(a, b);
    assert DataItems([failed]) == [] by {
      assert [failed][..0] == [];
    }
  }

  /** A later graph root replaces an earlier one: only the last file with a root counts. */
  lemma LaterRootWins(a: seq<FileOutcome>, node: PackageWrapper, b: seq<FileOutcome>,
                      sbomTree: PackageData -> Option<PackageWrapper>)
    requires forall i :: 0 <= i < |b| ==> !b[i].RootOutcome?
    ensures ProjectRoot(a + [RootOutcome(node)] + b, sbomTree)
         == Some(node.(dependencyData := node.dependencyData + DataItems(a + b)))
  {
    LastRootConcat(a + [RootOutcome(node)], b);
    LastRootConcat(a, [RootOutcome(node)]);
    DataItemsConcat(a + [RootOutcome(node)], b);
    DataItemsConcat(a, [RootOutcome(node)]);
    DataItemsConcat(a, b);
    assert DataItems([RootOutcome(node)]) == [] by {
      assert [RootOutcome(node)][..0] == [];
    }
  }

  /** A root built from an SBOM is always marked isRoot; a project with neither a graph root nor an SBOM adds nothing. */
  lemma SbomFallback(outcomes: seq<FileOutcome>, sbomTree: PackageData -> Option<PackageWrapper>)
    requires forall i :: 0 <= i < |outcomes| ==> !outcomes[i].RootOutcome?
    ensures ProjectRoot(outcomes, sbomTree).Some? ==> ProjectRoot(outcomes, sbomTree).value.isRoot
    ensures (forall d :: DataOutcome(d) in outcomes ==> d.dataType != Sbom) ==> ProjectRoot(outcomes, sbomTree).None?
  {
    var items := DataItems(outcomes);
    if forall d :: DataOutcome(d) in outcomes ==> d.dataType != Sbom {
      forall i | 0 <= i < |items| ensures items[i].dataType != Sbom {
        assert items[i] in items;
      }
    }
  }

  /** The result holds at most one root per key, each the root of some listed project, and nothing more. */
  lemma {:induction false} ParseSpecShape(order: seq<string>, projects: map<string, seq<FileOutcome>>,
                                          sbomTree: PackageData -> Option<PackageWrapper>)
    requires forall k :: k in order ==> k in projects
    ensures |ParseSpec(order, projects, sbomTree)| <= |order|
    ensures forall r :: r in ParseSpec(order, projects, sbomTree) ==>
              exists k :: k in order && ProjectRoot(projects[k], sbomTree) == Some(r)
    decreases |order|
  {
    if order != [] {
      var n := |order| - 1;
      assert forall k :: k in order[..n] ==> k in order;
      ParseSpecShape(order[..n], projects, sbomTree);
    }
  }

  /**
   * With `order` the key set's iteration order, each key contributes exactly its own
   * root at its own place, when it has one, and nothing otherwise; every other entry
   * of the result is the root of a different key.
   */
  lemma ParseSpecPerKey(order: seq<string>, projects: map<string, seq<FileOutcome>>,
                        sbomTree: PackageData -> Option<PackageWrapper>, i: nat)
    requires KeyOrder(order, projects) && i < |order|
    ensures ParseSpec(order, projects, sbomTree)
         == ParseSpec(order[..i], projects, sbomTree)
          + (if ProjectRoot(projects[order[i]], sbomTree).Some? then [ProjectRoot(projects[order[i]], sbomTree).value] else [])
          + ParseSpec(order[i + 1..], projects, sbomTree)
    ensures forall r :: r in ParseSpec(order[..i], projects, sbomTree) + ParseSpec(order[i + 1..], projects, sbomTree) ==>
              exists k :: k in projects && k != order[i] && ProjectRoot(projects[k], sbomTree) == Some(r)
    ensures ProjectRoot(projects[order[i]], sbomTree).Some? ==>
              ProjectRoot(projects[order[i]], sbomTree).value in ParseSpec(order, projects, sbomTree)
  {
    ParseSpecAround(order, projects, sbomTree, i);
    ParseSpecShape(order[..i], projects, sbomTree);
    ParseSpecShape(order[i + 1..], projects, sbomTree);
    OtherKeys(order, projects, i);
  }

  /** The list splits around any position of the order. */
  lemma ParseSpecAround(order: seq<string>, projects: map<string, seq<FileOutcome>>,
                        sbomTree: PackageData -> Option<PackageWrapper>, i: nat)
    requires (forall k :: k in order ==> k in projects) && i < |order|
    ensures forall k :: k in order[..i] ==> k in projects
    ensures forall k :: k in order[i + 1..] ==> k in projects
    ensures ParseSpec(order, projects, sbomTree)
         == ParseSpec(order[..i], projects, sbomTree)
          + (if ProjectRoot(projects[order[i]], sbomTree).Some? then [ProjectRoot(projects[order[i]], sbomTree).value] else [])
          + ParseSpec(order[i + 1..], projects, sbomTree)
  {
    var before, after := order[..i], order[i + 1..];
    assert order == before + [order[i]] + after;
    ParseSpecConcat(before + [order[i]], after, projects, sbomTree);
    ParseSpecConcat(before, [order[i]], projects, sbomTree);
    assert [order[i]][..0] == [];
  }

  /** In a key order without repeats, the keys before and after a position differ from the key there. */
  lemma OtherKeys(order: seq<string>, projects: map<string, seq<FileOutcome>>, i: nat)
    requires KeyOrder(order, projects) && i < |order|
    ensures forall k :: k in order[..i] || k in order[i + 1..] ==> k != order[i] && k in projects
  {
    forall k | k in order[..i] || k in order[i + 1..] ensures k != order[i] && k in projects {
      if k in order[..i] {
        var j :| 0 <= j < i && order[..i][j] == k;
        assert order[j] == k;
      } else {
        var j :| 0 <= j < |order| - i - 1 && order[i + 1..][j] == k;
        assert order[i + 1 + j] == k;
      }
    }
  }

  /** The list for one order followed by another is the two lists one after the other. */
  lemma {:induction false} ParseSpecConcat(a: seq<string>, b: seq<string>, projects: map<string, seq<FileOutcome>>,
                                           sbomTree: PackageData -> Option<PackageWrapper>)
    requires (forall k :: k in a ==> k in projects) && (forall k :: k in b ==> k in projects)
    ensures forall k :: k in a + b ==> k in projects
    ensures ParseSpec(a + b, projects, sbomTree) == ParseSpec(a, projects, sbomTree) + ParseSpec(b, projects, sbomTree)
    decreases |b|
  {
    if b == [] {
      assert a + b == a;
    } else {
      var n := |b| - 1;
      var init := b[..n];
      assert forall k :: k in init ==> k in b;
      ParseSpecConcat(a, init, projects, sbomTree);
      var ab := a + b;
      assert ab[..|ab| - 1] == a + init;
      assert ab[|ab| - 1] == b[n];
    }
  }

}
