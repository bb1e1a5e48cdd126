/**
 * The folders CTP (the anonymizing program) fills with quarantined files: a
 * flat directory per CTP stage. Each file is read as DICOM, and the job it
 * belongs to is recovered from the IDIS private tag JobID, or left unknown.
 */
module Ctp {
  import opened Common
  import opened Store
  import opened FileHandling

  // ---------------------------------------------------------------------
  // The IDIS private tags
  // ---------------------------------------------------------------------

  /** The private creator under which IDIS writes its tags */
  const PrivateCreator: string := "RADBOUDUMCANONYMIZER"

  /** The IDIS tag holding a file's job id */
  const JobIdTag: string := "JobID"

  /** `e` is the IDIS tag `tagName`: pydicom shows private tag names in square brackets */
  predicate IsIdisTag(e: PrivateElement, tagName: string)
  {
    e.creator == PrivateCreator && e.name == "[" + tagName + "]"
  }

  /**
   * The dictionary from name to value of the IDIS private elements, built in
   * dataset order, so a later element replaces an earlier one of the same name.
   */
  function IdisTags(elements: seq<PrivateElement>): (m: map<string, int>)
    ensures forall e :: e in elements && e.creator == PrivateCreator ==> e.name in m
    ensures forall k :: k in m ==> exists i :: 0 <= i < |elements| && elements[i].creator == PrivateCreator && elements[i].name == k
  {
    if elements == [] then map[]
    else
      var init := IdisTags(elements[..|elements| - 1]);
      var e := elements[|elements| - 1];
      assert forall x :: x in elements ==> x in elements[..|elements| - 1] || x == e;
      if e.creator == PrivateCreator then init[e.name := e.value] else init
  }

  /**
   * IDISDICOMDataSet.get_idis_tag_value: the value of the IDIS tag `tagName`,
   * or None where the lookup raises KeyError
   */
  function GetIdisTagValue(elements: seq<PrivateElement>, tagName: string): (r: Option<int>)
    ensures r.None? <==> forall i :: 0 <= i < |elements| ==> !IsIdisTag(elements[i], tagName)
  {
    var key := "[" + tagName + "]";
    if key in IdisTags(elements) then Some(IdisTags(elements)[key]) else None
  }

  /** When several elements carry the tag, the last one in dataset order wins */
  lemma {:induction false} LastTagWins(elements: seq<PrivateElement>, tagName: string, i: nat)
    requires i < |elements| && IsIdisTag(elements[i], tagName)
    requires forall j :: i < j < |elements| ==> !IsIdisTag(elements[j], tagName)
    ensures GetIdisTagValue(elements, tagName) == Some(elements[i].value)
    decreases |elements|
  {
    var init := elements[..|elements| - 1];
    if i < |elements| - 1 {
      LastTagWins(init, tagName, i);
    }
  }

  // ---------------------------------------------------------------------
  // CTPQuarantineFolder
  // ---------------------------------------------------------------------

  datatype CtpQuarantineFolder = CtpQuarantineFolder(path: Path, description: string)

  /** Python's truth value of an optional string: None and "" are false */
  predicate IsGiven(description: Option<string>)
  {
    description.Some? && description.value != ""
  }

  /** The text every quarantine folder's description starts with */
  function DescriptionHead(path: Path): string
  {
    "Quarantine folder " + FileName(path)
  }

  /**
   * CTPQuarantineFolder's constructor: the description names the folder and,
   * when one is given, adds the reason in brackets
   */
  function NewCtpQuarantineFolder(path: Path, description: Option<string>): (q: CtpQuarantineFolder)
    ensures q.path == path
    ensures |q.description| >= |DescriptionHead(path)| && q.description[..|DescriptionHead(path)|] == DescriptionHead(path)
    ensures IsGiven(description) <==> |q.description| > |DescriptionHead(path)|
    ensures IsGiven(description) ==> q.description[|DescriptionHead(path)|..] == " (" + description.value + ")"
  {
    if IsGiven(description) then
      CtpQuarantineFolder(path, DescriptionHead(path) + " (" + description.value + ")")
    else
      CtpQuarantineFolder(path, DescriptionHead(path))
  }

  /** Two folders at one path get the same description exactly when they were given the same reason */
  lemma DescriptionKeepsReason(path: Path, a: Option<string>, b: Option<string>)
    ensures NewCtpQuarantineFolder(path, a).description == NewCtpQuarantineFolder(path, b).description
        <==> (IsGiven(a) == IsGiven(b) && (IsGiven(a) ==> a.value == b.value))
  {
    var head := DescriptionHead(path);
    var da, db := NewCtpQuarantineFolder(path, a).description, NewCtpQuarantineFolder(path, b).description;
    if da == db && IsGiven(a) && IsGiven(b) {
      var ta, tb := da[|head|..], db[|head|..];
      assert ta == " (" + a.value + ")" && tb == " (" + b.value + ")";
      assert a.value == ta[2..|ta| - 1];
      assert b.value == tb[2..|tb| - 1];
    }
  }

  /** CTPQuarantineFolder.get_files: the regular files directly in the folder */
  function CtpFiles(fs: FileStore, folder: CtpQuarantineFolder): (r: set<FilePath>)
    reads fs
    ensures forall f :: f in r <==> f in fs.files && f != [] && Parent(f) == folder.path
  {
    set f: FilePath | f in fs.FilesIn(folder.path)
  }

  /** The job a file's content names: its JobID tag, None when it is not DICOM or has no such tag */
  function JobIdOf(content: Content): Option<int>
  {
    if content.None? then None else GetIdisTagValue(content.value, JobIdTag)
  }

  /**
   * CTPQuarantineFolder.path_to_job_file: read the file and look up its job.
   * A file that is not DICOM or has no JobID tag gets no job; only a path
   * that cannot be read as a file raises, with the error `open()` gives: a
   * directory, a path below a regular file, or a missing path.
   */
  function PathToJobFile(fs: FileStore, path: FilePath): (r: Result<JobFile, Error>)
    requires fs.Valid()
    reads fs
    ensures !fs.Exists(path) && fs.Blocked(path) ==> r == Err(Os(NotADirectory(path)))
    ensures !fs.Exists(path) && !fs.Blocked(path) ==> r == Err(Os(FileNotFound(path)))
    ensures fs.IsDir(path) ==> r == Err(Os(IsADirectory(path)))
    ensures path in fs.files ==> r.Ok? && r.value.path == path
    ensures path in fs.files && fs.files[path].None? ==> r.value.jobId == None
    ensures path in fs.files && fs.files[path].Some? ==>
      (r.value.jobId.None? <==> forall i :: 0 <= i < |fs.files[path].value| ==> !IsIdisTag(fs.files[path].value[i], JobIdTag))
  {
    if path in fs.dirs then Err(Os(IsADirectory(path)))
    else if path in fs.files then Ok(JobFile(JobIdOf(fs.files[path]), path))
    else if fs.Blocked(path) then Err(Os(NotADirectory(path)))
    else Err(Os(FileNotFound(path)))
  }

  /**
   * CTPQuarantineFolder.get_job_files: one JobFile per file in the folder, in
   * listing order, which is unspecified
   */
  method GetJobFiles(fs: FileStore, folder: CtpQuarantineFolder) returns (jobFiles: seq<JobFile>)
    requires fs.Valid()
    ensures |jobFiles| == |CtpFiles(fs, folder)|
    ensures forall i, j :: 0 <= i < j < |jobFiles| ==> jobFiles[i].path != jobFiles[j].path
    ensures PathsOf(jobFiles) == CtpFiles(fs, folder)
    ensures forall i :: 0 <= i < |jobFiles| ==>
      jobFiles[i].path in fs.files && jobFiles[i].jobId == JobIdOf(fs.files[jobFiles[i].path])
  {
    var paths := CtpFiles(fs, folder);
    jobFiles := [];
    var todo := paths;
    while todo != {}
      invariant ReadSoFar(fs.files, paths, todo, jobFiles)
      decreases |todo|
    {
      var path :| path in todo;
      var jobFile := PathToJobFile(fs, path);
      ReadStep(fs.files, paths, todo, jobFiles, path);
      jobFiles := jobFiles + [jobFile.value];
      todo := todo - {path};
    }
  }

  /** The job files read so far are those of the listed paths no longer to do, each once */
  ghost predicate ReadSoFar(files: map<Path, Content>, paths: set<FilePath>, todo: set<FilePath>, jobFiles: seq<JobFile>)
  {
    && todo <= paths
    && |jobFiles| + |todo| == |paths|
    && (forall i, j :: 0 <= i < j < |jobFiles| ==> jobFiles[i].path != jobFiles[j].path)
    && PathsOf(jobFiles) == paths - todo
    && (forall i :: 0 <= i < |jobFiles| ==> ReadFrom(files, jobFiles[i]))
  }

  /** `jobFile` is what reading its path in `files` gives */
  ghost predicate ReadFrom(files: map<Path, Content>, jobFile: JobFile)
  {
    jobFile.path in files && jobFile.jobId == JobIdOf(files[jobFile.path])
  }

  lemma ReadStep(files: map<Path, Content>, paths: set<FilePath>, todo: set<FilePath>, jobFiles: seq<JobFile>, path: FilePath)
    requires ReadSoFar(files, paths, todo, jobFiles) && path in todo && path in files
    ensures ReadSoFar(files, paths, todo - {path}, jobFiles + [JobFile(JobIdOf(files[path]), path)])
  {
    var jobFile := JobFile(JobIdOf(files[path]), path);
    PathsOfAppend(jobFiles, jobFile);
    AppendKeepsDistinct(jobFiles, jobFile);
    AppendKeepsRead(files, jobFiles, jobFile);
  }

  lemma AppendKeepsDistinct(jobFiles: seq<JobFile>, jobFile: JobFile)
    requires forall i, j :: 0 <= i < j < |jobFiles| ==> jobFiles[i].path != jobFiles[j].path
    requires jobFile.path !in PathsOf(jobFiles)
    ensures var next := jobFiles + [jobFile];
      forall i, j :: 0 <= i < j < |next| ==> next[i].path != next[j].path
  {
  }

  lemma AppendKeepsRead(files: map<Path, Content>, jobFiles: seq<JobFile>, jobFile: JobFile)
    requires forall i :: 0 <= i < |jobFiles| ==> ReadFrom(files, jobFiles[i])
    requires ReadFrom(files, jobFile)
    ensures var next := jobFiles + [jobFile];
      forall i :: 0 <= i < |next| ==> ReadFrom(files, next[i])
  {
  }

  /** The paths of a list of job files */
  function PathsOf(jobFiles: seq<JobFile>): (r: set<Path>)
    ensures forall f :: f in r <==> exists i :: 0 <= i < |jobFiles| && jobFiles[i].path == f
  {
    set i | 0 <= i < |jobFiles| :: jobFiles[i].path
  }

  lemma PathsOfAppend(jobFiles: seq<JobFile>, jobFile: JobFile)
    ensures PathsOf(jobFiles + [jobFile]) == PathsOf(jobFiles) + {jobFile.path}
  {
    var s := jobFiles + [jobFile];
    assert s[|jobFiles|].path == jobFile.path;
    forall f | f in PathsOf(jobFiles)
      ensures f in PathsOf(s)
    {
      var i :| 0 <= i < |jobFiles| && jobFiles[i].path == f;
      assert s[i] == jobFiles[i];
    }
  }
}
