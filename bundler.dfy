/**
 * The archive bundler (`InputService.processZipFile` and
 * `checkAndClearDiscoveredFileBuffers`): walks the listing of an extracted archive,
 * derives each file's project from its path, buffers the recognised files of the
 * current project, and on every change of project (and once at the end) stores the
 * buffer in the result map when it is a complete bundle, discarding it otherwise.
 */
module Bundler {
  import opened Wrappers
  import opened JavaStrings

  /** `DataFile.DataFileTypeEnum`: the three types a bundle needs, and every other recognised type. */
  datatype FileType = BuildFileGitBlame | SyftSbom | EtlBuildMetadata | OtherType(name: string)

  /** A classified file: its path, its type and the project it is filed under. */
  datatype DataFile = DataFile(path: string, fileType: FileType, projectName: string)

  /**
   * One item of the extracted archive's listing, in traversal order: whether it is a
   * directory, its absolute path, and the file-type classifier's verdict on it.
   */
  datatype Entry = Entry(isDirectory: bool, absolutePath: string, recognised: Option<FileType>)

  const NecessaryFiles: seq<FileType> := [BuildFileGitBlame, SyftSbom, EtlBuildMetadata]
  const ExpectedNumberOfFiles := 3

  /** `types.containsAll(necessary)`. */
  predicate ContainsAll(types: seq<FileType>, necessary: seq<FileType>) {
    forall t :: t in necessary ==> t in types
  }

  /** The test `checkAndClearDiscoveredFileBuffers` applies to the type buffer. */
  predicate CompleteBundle(types: seq<FileType>) {
    ContainsAll(types, NecessaryFiles) && |types| >= ExpectedNumberOfFiles
  }

  function TypesOf(files: seq<DataFile>): (r: seq<FileType>)
    ensures |r| == |files| && forall i :: 0 <= i < |files| ==> r[i] == files[i].fileType
  {
    seq(|files|, i requires 0 <= i < |files| => files[i].fileType)
  }

  /** The files with every project name set to `key`. */
  function Retagged(files: seq<DataFile>, key: string): (r: seq<DataFile>)
    ensures |r| == |files|
    ensures forall i :: 0 <= i < |r| ==> r[i] == files[i].(projectName := key)
  {
    seq(|files|, i requires 0 <= i < |files| => files[i].(projectName := key))
  }

  lemma {:induction false} DistinctElementsBound<T>(s: seq<T>)
    ensures |set x | x in s| <= |s|
  {
    if |s| > 0 {
      DistinctElementsBound(s[1..]);
      assert (set x | x in s) == {s[0]} + (set x | x in s[1..]);
    }
  }

  /** The three necessary types are distinct, so containing them already means at least three entries. */
  lemma {:induction false} NecessaryTypesImplyMinimumSize(types: seq<FileType>)
    requires ContainsAll(types, NecessaryFiles)
    ensures |types| >= ExpectedNumberOfFiles
  {
    assert BuildFileGitBlame in NecessaryFiles && SyftSbom in NecessaryFiles && EtlBuildMetadata in NecessaryFiles;
    var needed := {BuildFileGitBlame, SyftSbom, EtlBuildMetadata};
    assert needed <= set x | x in types;
    assert |needed| == 3;
    DistinctElementsBound(types);
    var present := set x | x in types;
    assert present == needed + (present - needed);
  }

  /**
   * The project an entry belongs to, or `None` when the entry is skipped: directories,
   * and paths that do not split into exactly two pieces around the temp directory.
   * Otherwise the project is segment 2 of the part after the temp directory
   * (`/{uuid}/{project}/...`) when there are more than three segments, and "" when not.
   */
  function ProjectOf(e: Entry, tempDir: string, separator: string): Option<string>
    requires |tempDir| > 0 && |separator| > 0
  {
    if e.isDirectory then None
    else
      var tempDirSplit := Split(e.absolutePath, tempDir);
      if |tempDirSplit| != 2 then None
      else
        var segments := Split(tempDirSplit[1], separator);
        Some(if |segments| > 3 then segments[2] else "")
  }

  /** The loop's state: both buffers, the result map and the last-project-name cursor. */
  datatype BundlerState = BundlerState(
    files: seq<DataFile>,
    types: seq<FileType>,
    projects: map<string, seq<DataFile>>,
    lastProjectName: string)

  const Initial := BundlerState([], [], map[], "")

  /**
   * A flush under the cursor's name: a complete buffer is stored, retagged with the
   * key; either way both buffers end up empty.
   */
  function Flush(st: BundlerState): BundlerState {
    if CompleteBundle(st.types) then
      BundlerState([], [], st.projects[st.lastProjectName := Retagged(st.files, st.lastProjectName)], st.lastProjectName)
    else
      st.(files := [], types := [])
  }

  /** One iteration of the loop over the listing. */
  function Step(st: BundlerState, e: Entry, tempDir: string, separator: string): BundlerState
    requires |tempDir| > 0 && |separator| > 0
  {
    match ProjectOf(e, tempDir, separator)
    case None => st
    case Some(p) =>
      var moved :=
        if st.lastProjectName == "" then st.(lastProjectName := p)
        else if st.lastProjectName != p then Flush(st).(lastProjectName := p)
        else st;
      match e.recognised
      case None => moved
      case Some(t) => moved.(files := moved.files + [DataFile(e.absolutePath, t, p)], types := moved.types + [t])
  }

  /** The state after the loop has seen `entries`. */
  function Run(entries: seq<Entry>, tempDir: string, separator: string): BundlerState
    requires |tempDir| > 0 && |separator| > 0
    decreases |entries|
  {
    if entries == [] then Initial
    else Step(Run(entries[..|entries| - 1], tempDir, separator), entries[|entries| - 1], tempDir, separator)
  }

  /** The map `processZipFile` returns: the loop, then a last flush if the buffer is non-empty. */
  function Bundle(entries: seq<Entry>, tempDir: string, separator: string): map<string, seq<DataFile>>
    requires |tempDir| > 0 && |separator| > 0
  {
    var st := Run(entries, tempDir, separator);
    if |st.types| > 0 then Flush(st).projects else st.projects
  }

  /** The two buffers and the result map, which the Java code shares by reference and mutates in place. */
  class FileBuffers {
    var files: seq<DataFile>
    var types: seq<FileType>
    var projects: map<string, seq<DataFile>>

    /** The buffers are appended and cleared together: `types[i]` is the type of `files[i]`. */
    ghost predicate Valid()
      reads this
    {
      |files| == |types| && forall i :: 0 <= i < |files| ==> types[i] == files[i].fileType
    }

    constructor()
      ensures Valid()
      ensures files == [] && types == [] && projects == map[]
    {
      files, types, projects := [], [], map[];
    }

    method Append(f: DataFile)
      requires Valid()
      modifies this
      ensures Valid()
      ensures files == old(files) + [f] && types == old(types) + [f.fileType] && projects == old(projects)
    {
      files := files + [f];
      types := types + [f.fileType];
    }

    method Clear()
      requires Valid()
      modifies this
      ensures Valid()
      ensures files == [] && types == [] && projects == old(projects)
    {
      files := [];
      types := [];
    }

    /**
     * `checkAndClearDiscoveredFileBuffers`: a complete buffer is stored under `key`,
     * every file retagged with `key`, and both buffers are cleared; an incomplete one
     * leaves buffers and map as they were.
     */
    method CheckAndClear(key: string) returns (stored: bool)
      requires Valid()
      modifies this
      ensures Valid()
      ensures stored == CompleteBundle(old(types))
      ensures stored ==> files == [] && types == [] && projects == old(projects)[key := Retagged(old(files), key)]
      ensures !stored ==> files == old(files) && types == old(types) && projects == old(projects)
    {
      stored := false;
      if ContainsAll(types, NecessaryFiles) && |types| >= ExpectedNumberOfFiles {
        var tagged := RetagAll(files, key);
        assert tagged == Retagged(files, key);
        projects := projects[key := tagged];
        files := [];
        types := [];
        stored := true;
      }
    }
  }

  /** `files.forEach(df -> df.setProjectName(key))`, on values. */
  method RetagAll(files: seq<DataFile>, key: string) returns (tagged: seq<DataFile>)
    ensures |tagged| == |files|
    ensures forall i :: 0 <= i < |files| ==> tagged[i] == files[i].(projectName := key)
  {
    tagged := [];
    for k := 0 to |files|
      invariant |tagged| == k
      invariant forall i :: 0 <= i < k ==> tagged[i] == files[i].(projectName := key)
    {
      tagged := tagged + [files[k].(projectName := key)];
    }
  }

  /**
   * `processZipFile` after extraction: `entries` is the listing of the extracted tree
   * (the archive itself excluded), `tempDir` the system temp path and `separator` the
   * file separator.
   */
  method ProcessZipFile(entries: seq<Entry>, tempDir: string, separator: string)
    returns (projects: map<string, seq<DataFile>>)
    requires |tempDir| > 0 && |separator| > 0
    ensures projects == Bundle(entries, tempDir, separator)
  {
    var buffers := new FileBuffers();
    var lastProjectName := "";
    for k := 0 to |entries|
      invariant buffers.Valid()
      invariant BundlerState(buffers.files, buffers.types, buffers.projects, lastProjectName)
             == Run(entries[..k], tempDir, separator)
    {
      assert entries[..k + 1][..k] == entries[..k];
      var e := entries[k];
      if e.isDirectory {
        continue;
      }
      var tempDirSplit := Split(e.absolutePath, tempDir);
      if |tempDirSplit| != 2 {
        continue;
      }
      var segments := Split(tempDirSplit[1], separator);
      var projectName := "";
      if |segments| > 3 {
        projectName := segments[2];
      }
      if lastProjectName == "" {
        lastProjectName := projectName;
      } else if lastProjectName != projectName {
        var stored := buffers.CheckAndClear(lastProjectName);
        if !stored {
          buffers.Clear();
        }
        lastProjectName := projectName;
      }
      if e.recognised.Some? {
        buffers.Append(DataFile(e.absolutePath, e.recognised.value, projectName));
      }
    }
    assert entries[..|entries|] == entries;
    if |buffers.types| > 0 {
      var stored := buffers.CheckAndClear(lastProjectName);
      if !stored {
        buffers.Clear();
      }
    }
    projects := buffers.projects;
  }

  /** The file came from a non-directory entry of the listing that the classifier recognised with that type. */
  ghost predicate FromListing(f: DataFile, entries: seq<Entry>) {
    exists i :: 0 <= i < |entries| && !entries[i].isDirectory
      && entries[i].absolutePath == f.path && entries[i].recognised == Some(f.fileType)
  }

  /** Every stored bundle is complete, tagged with its key, and made of files from the listing. */
  ghost predicate SoundProjects(projects: map<string, seq<DataFile>>, entries: seq<Entry>) {
    forall key :: key in projects ==>
      && CompleteBundle(TypesOf(projects[key]))
      && forall f :: f in projects[key] ==> f.projectName == key && FromListing(f, entries)
  }

  ghost predicate SoundState(st: BundlerState, entries: seq<Entry>) {
    && |st.files| == |st.types|
    && (forall i :: 0 <= i < |st.files| ==> st.types[i] == st.files[i].fileType)
    && (forall f :: f in st.files ==> FromListing(f, entries))
    && SoundProjects(st.projects, entries)
  }

  lemma FlushSound(st: BundlerState, entries: seq<Entry>)
    requires SoundState(st, entries)
    ensures SoundState(Flush(st), entries)
  {
    if CompleteBundle(st.types) {
      var key := st.lastProjectName;
      var tagged := Retagged(st.files, key);
      assert TypesOf(tagged) == st.types;
      forall f | f in tagged
        ensures f.projectName == key && FromListing(f, entries)
      {
        var i :| 0 <= i < |tagged| && tagged[i] == f;
        assert st.files[i] in st.files;
      }
    }
  }

  lemma {:induction false} FromListingGrows(f: DataFile, entries: seq<Entry>, more: seq<Entry>)
    requires FromListing(f, entries)
    ensures FromListing(f, entries + more)
  {
    var i :| 0 <= i < |entries| && !entries[i].isDirectory
      && entries[i].absolutePath == f.path && entries[i].recognised == Some(f.fileType);
    assert (entries + more)[i] == entries[i];
  }

  lemma {:induction false} RunSound(entries: seq<Entry>, tempDir: string, separator: string)
    requires |tempDir| > 0 && |separator| > 0
    ensures SoundState(Run(entries, tempDir, separator), entries)
    decreases |entries|
  {
    if entries != [] {
      var n := |entries| - 1;
      var prefix := entries[..n];
      var e := entries[n];
      assert entries == prefix + [e];
      RunSound(prefix, tempDir, separator);
      var st := Run(prefix, tempDir, separator);
      forall f | FromListing(f, prefix) ensures FromListing(f, entries) {
        FromListingGrows(f, prefix, [e]);
      }
      assert SoundState(st, entries);
      FlushSound(st, entries);
      match ProjectOf(e, tempDir, separator)
      case None =>
      case Some(p) =>
        var moved :=
          if st.lastProjectName == "" then st.(lastProjectName := p)
          else if st.lastProjectName != p then Flush(st).(lastProjectName := p)
          else st;
        assert SoundState(moved, entries);
        if e.recognised.Some? {
          var f := DataFile(e.absolutePath, e.recognised.value, p);
          assert FromListing(f, entries) by {
            assert entries[n] == e;
          }
        }
    }
  }

  /**
   * What `processZipFile` returns is sound: a bundle appears only if it holds the three
   * necessary types (so a rejected buffer never reaches the map), each of its files is
   * tagged with its key, and each came from a recognised file of the listing.
   */
  lemma BundleSound(entries: seq<Entry>, tempDir: string, separator: string)
    requires |tempDir| > 0 && |separator| > 0
    ensures SoundProjects(Bundle(entries, tempDir, separator), entries)
  {
    RunSound(entries, tempDir, separator);
    FlushSound(Run(entries, tempDir, separator), entries);
  }

  /** An entry that is skipped leaves buffers, map and cursor untouched. */
  lemma SkippedEntryChangesNothing(st: BundlerState, e: Entry, tempDir: string, separator: string)
    requires |tempDir| > 0 && |separator| > 0
    requires e.isDirectory || |Split(e.absolutePath, tempDir)| != 2
    ensures Step(st, e, tempDir, separator) == st
  {
  }

  /**
   * The recognised files of a listing that the loop does not skip, tagged with
   * project `p`.
   */
  function RecognisedFiles(entries: seq<Entry>, tempDir: string, separator: string, p: string): (r: seq<DataFile>)
    requires |tempDir| > 0 && |separator| > 0
    decreases |entries|
  {
    if entries == [] then []
    else
      var e := entries[|entries| - 1];
      RecognisedFiles(entries[..|entries| - 1], tempDir, separator, p)
        + (if ProjectOf(e, tempDir, separator).Some? && e.recognised.Some?
           then [DataFile(e.absolutePath, e.recognised.value, p)] else [])
  }

  /**
   * A listing whose kept entries all belong to project `p` only fills the buffers:
   * nothing is stored, the buffers hold its recognised files, and the cursor is `p`
   * once a kept entry has been seen (before that, no file has been buffered).
   */
  lemma {:induction false} RunSingleProject(entries: seq<Entry>, tempDir: string, separator: string, p: string)
    requires |tempDir| > 0 && |separator| > 0 && p != ""
    requires forall i :: 0 <= i < |entries| ==>
      ProjectOf(entries[i], tempDir, separator) == None || ProjectOf(entries[i], tempDir, separator) == Some(p)
    ensures Run(entries, tempDir, separator).files == RecognisedFiles(entries, tempDir, separator, p)
    ensures Run(entries, tempDir, separator).types == TypesOf(RecognisedFiles(entries, tempDir, separator, p))
    ensures Run(entries, tempDir, separator).projects == map[]
    ensures Run(entries, tempDir, separator).lastProjectName in {"", p}
    ensures Run(entries, tempDir, separator).lastProjectName == "" ==> RecognisedFiles(entries, tempDir, separator, p) == []
    decreases |entries|
  {
    if entries != [] {
      var n := |entries| - 1;
      var prefix := entries[..n];
      assert forall i :: 0 <= i < |prefix| ==> prefix[i] == entries[i];
      RunSingleProject(prefix, tempDir, separator, p);
      RunLast(entries, tempDir, separator);
      SingleProjectStep(Run(prefix, tempDir, separator), entries[n], tempDir, separator, p,
                        RecognisedFiles(prefix, tempDir, separator, p));
    }
  }

  /** One step of `RunSingleProject`: a kept entry of `p` extends the buffers, a skipped one changes nothing. */
  lemma SingleProjectStep(st: BundlerState, e: Entry, tempDir: string, separator: string, p: string, before: seq<DataFile>)
    requires |tempDir| > 0 && |separator| > 0 && p != ""
    requires ProjectOf(e, tempDir, separator) == None || ProjectOf(e, tempDir, separator) == Some(p)
    requires st.files == before && st.types == TypesOf(before) && st.projects == map[]
    requires st.lastProjectName in {"", p} && (st.lastProjectName == "" ==> before == [])
    ensures
      var added := if ProjectOf(e, tempDir, separator).Some? && e.recognised.Some?
                   then [DataFile(e.absolutePath, e.recognised.value, p)] else [];
      var next := Step(st, e, tempDir, separator);
      && next.files == before + added && next.types == TypesOf(before + added) && next.projects == map[]
      && next.lastProjectName in {"", p} && (next.lastProjectName == "" ==> before + added == [])
  {
    var added := if ProjectOf(e, tempDir, separator).Some? && e.recognised.Some?
                 then [DataFile(e.absolutePath, e.recognised.value, p)] else [];
    TypesOfConcat(before, added);
    if ProjectOf(e, tempDir, separator).Some? {
      StepSameProject(st, e, tempDir, separator, p);
    }
  }

  /** An entry of the cursor's own project (or the first one seen) only extends the buffers. */
  lemma StepSameProject(st: BundlerState, e: Entry, tempDir: string, separator: string, p: string)
    requires |tempDir| > 0 && |separator| > 0
    requires ProjectOf(e, tempDir, separator) == Some(p)
    requires st.lastProjectName == "" || st.lastProjectName == p
    ensures Step(st, e, tempDir, separator)
         == if e.recognised.Some?
            then st.(lastProjectName := p, files := st.files + [DataFile(e.absolutePath, e.recognised.value, p)],
                     types := st.types + [e.recognised.value])
            else st.(lastProjectName := p)
  {
  }

  lemma RunLast(entries: seq<Entry>, tempDir: string, separator: string)
    requires |tempDir| > 0 && |separator| > 0 && entries != []
    ensures Run(entries, tempDir, separator)
         == Step(Run(entries[..|entries| - 1], tempDir, separator), entries[|entries| - 1], tempDir, separator)
  {
  }

  lemma TypesOfConcat(a: seq<DataFile>, b: seq<DataFile>)
    ensures TypesOf(a + b) == TypesOf(a) + TypesOf(b)
  {
  }

  /**
   * An archive holding one project's files (every file under `{tmp}/{uuid}/p/`, next to
   * the directories and unmatched paths the loop skips) yields exactly that project's
   * recognised files when they form a complete bundle, and nothing otherwise.
   */
  lemma SingleProjectArchive(entries: seq<Entry>, tempDir: string, separator: string, p: string)
    requires |tempDir| > 0 && |separator| > 0 && p != ""
    requires forall i :: 0 <= i < |entries| ==>
      ProjectOf(entries[i], tempDir, separator) == None || ProjectOf(entries[i], tempDir, separator) == Some(p)
    ensures Bundle(entries, tempDir, separator)
         == if CompleteBundle(TypesOf(RecognisedFiles(entries, tempDir, separator, p)))
            then map[p := RecognisedFiles(entries, tempDir, separator, p)] else map[]
  {
    RunSingleProject(entries, tempDir, separator, p);
    var files := RecognisedFiles(entries, tempDir, separator, p);
    if CompleteBundle(TypesOf(files)) {
      assert files != [];
      RecognisedFilesTagged(entries, tempDir, separator, p);
      assert Retagged(files, p) == files;
    }
  }

  lemma {:induction false} RecognisedFilesTagged(entries: seq<Entry>, tempDir: string, separator: string, p: string)
    requires |tempDir| > 0 && |separator| > 0
    ensures forall f :: f in RecognisedFiles(entries, tempDir, separator, p) ==> f.projectName == p
    decreases |entries|
  {
    if entries != [] {
      RecognisedFilesTagged(entries[..|entries| - 1], tempDir, separator, p);
    }
  }
}
