/**
 * Files associated with job ids (app/idis/jobs/filehandling.py): the JobFile
 * value, SafeFolder and JobFolder, which never overwrite a file, and the
 * operations that move or copy job files between folders.
 */
module FileHandling {
  import opened Common
  import opened Store
  import opened PyInt

  /** A file and the job it belongs to; None when no job could be determined */
  datatype JobFile = JobFile(jobId: Option<int>, path: FilePath)

  /** Why a JobFolder refused to remove a job id (JobFolderException) */
  datatype JobFolderFault = JobIdNotKnown | StillHasFiles

  /** The exceptions the operations raise */
  datatype Error =
    | Os(os: OsError)
    | JobFolderException(jobId: Option<int>, fault: JobFolderFault)

  /**
   * A destination folder. A SafeFolder keeps files directly under its path;
   * a JobFolder keeps one sub-directory per job.
   */
  datatype Folder = SafeFolder(path: Path) | JobFolder(path: Path)

  /** JobFolder.UNKNOWN_JOB_FOLDER_NAME */
  const UnknownJobFolderName: Name := "UNKNOWN"

  /** Python's truth value of a job id: None and 0 are both false */
  predicate IsTruthy(jobId: Option<int>)
  {
    jobId.Some? && jobId.value != 0
  }

  /** JobFolder._get_path_for_job: `root/str(job_id)`, or `root/UNKNOWN` for a false job id */
  function PathForJob(root: Path, jobId: Option<int>): FilePath
  {
    if IsTruthy(jobId) then root + [IntToString(jobId.value)] else root + [UnknownJobFolderName]
  }

  /** A job's directory sits directly under the root and its name reads back as the job id */
  lemma PathForJobLayout(root: Path, jobId: Option<int>)
    ensures Parent(PathForJob(root, jobId)) == root
    ensures IsTruthy(jobId) ==> ParseInt(FileName(PathForJob(root, jobId))) == Some(jobId.value)
    ensures !IsTruthy(jobId) ==> PathForJob(root, jobId) == root + ["UNKNOWN"]
    ensures !IsTruthy(jobId) ==> ParseInt(FileName(PathForJob(root, jobId))) == None
  {
    if IsTruthy(jobId) {
      ParseIntOfIntToString(jobId.value);
    } else {
      UnknownIsNotAnInt();
    }
  }

  /** Two jobs share a directory exactly when they are the same job or both false (None or 0) */
  lemma PathForJobInjective(root: Path, a: Option<int>, b: Option<int>)
    ensures PathForJob(root, a) == PathForJob(root, b) <==> a == b || (!IsTruthy(a) && !IsTruthy(b))
  {
    var pa, pb := PathForJob(root, a), PathForJob(root, b);
    assert pa[|root|] == FileName(pa) && pb[|root|] == FileName(pb);
    PathForJobLayout(root, a);
    PathForJobLayout(root, b);
    if IsTruthy(a) && IsTruthy(b) {
      IntToStringInjective(a.value, b.value);
    }
  }

  /** The directory a folder puts a file of the given job in */
  function TargetDir(dest: Folder, jobId: Option<int>): Path
  {
    match dest
    case SafeFolder(root) => root
    case JobFolder(root) => PathForJob(root, jobId)
  }

  /** The path a folder tries first: the file's own name in the target directory */
  function PreferredPath(dest: Folder, jf: JobFile): FilePath
  {
    TargetDir(dest, jf.jobId) + [BaseName(jf.path)]
  }

  // ---------------------------------------------------------------------
  // Choosing a free name
  // ---------------------------------------------------------------------

  /** A name longer than the name every path in `s` has right below `dir` */
  lemma {:induction false} LongerThanEveryChild(s: set<Path>, dir: Path) returns (n: Name)
    ensures forall p :: p in s && |p| > |dir| ==> |p[|dir|]| < |n|
    decreases s
  {
    if s == {} {
      n := "x";
    } else {
      var q :| q in s;
      var m := LongerThanEveryChild(s - {q}, dir);
      if |q| > |dir| && |q[|dir|]| >= |m| {
        n := q[|dir|] + "x";
      } else {
        n := m;
      }
    }
  }

  /** A directory never holds every possible name, so a random name can be fresh */
  lemma FreshChildExists(fs: FileStore, dir: Path)
    ensures exists n: Name :: !fs.Exists(dir + [n])
  {
    var n := LongerThanEveryChild(fs.dirs + fs.files.Keys, dir);
    assert (dir + [n])[|dir|] == n;
    assert !fs.Exists(dir + [n]);
  }

  /**
   * SafeFolder._get_available_name_for_path: while the path exists, replace
   * its name by a random one (uuid4), chosen here as any name that is free.
   */
  method AvailableNameForPath(fs: FileStore, path: FilePath) returns (p: FilePath)
    requires fs.Valid()
    ensures !fs.Exists(p)
    ensures Parent(p) == Parent(path)
    ensures p == path <==> !fs.Exists(path)
  {
    p := path;
    while fs.Exists(p)
      invariant Parent(p) == Parent(path) && |p| == |path|
      invariant p != path ==> !fs.Exists(p)
      invariant !fs.Exists(path) ==> p == path
      decreases if fs.Exists(p) then 1 else 0
    {
      FreshChildExists(fs, Parent(path));
      var n: Name :| !fs.Exists(Parent(path) + [n]);
      p := Parent(path) + [n];
    }
  }

  /**
   * SafeFolder.get_available_path and JobFolder.get_available_path: a path in
   * the folder's target directory that does not exist yet; the file's own name
   * when that is free.
   */
  method GetAvailablePath(fs: FileStore, dest: Folder, jf: JobFile) returns (p: FilePath)
    requires fs.Valid()
    ensures !fs.Exists(p)
    ensures Parent(p) == TargetDir(dest, jf.jobId)
    ensures p == PreferredPath(dest, jf) <==> !fs.Exists(PreferredPath(dest, jf))
  {
    p := AvailableNameForPath(fs, PreferredPath(dest, jf));
  }

  // ---------------------------------------------------------------------
  // Reading a JobFolder
  // ---------------------------------------------------------------------

  /** JobFolder.get_files: the job's files, or none when its directory does not exist */
  function GetFiles(fs: FileStore, root: Path, jobId: Option<int>): (r: Result<set<JobFile>, Error>)
    requires fs.Valid()
    reads fs
    ensures !fs.Exists(PathForJob(root, jobId)) ==> r == Ok({})
    ensures fs.IsFile(PathForJob(root, jobId)) ==> r == Err(Os(NotADirectory(PathForJob(root, jobId))))
    ensures fs.IsDir(PathForJob(root, jobId)) ==> r.Ok?
    ensures r.Ok? ==> forall jf :: jf in r.value <==>
      jf.jobId == jobId && jf.path in fs.files && Parent(jf.path) == PathForJob(root, jobId)
  {
    var jobDir := PathForJob(root, jobId);
    if !fs.Exists(jobDir) then Ok({})
    else if fs.IsFile(jobDir) then Err(Os(NotADirectory(jobDir)))
    else Ok(set f | f in fs.FilesIn(jobDir) :: JobFile(jobId, f))
  }

  /** Tagging paths with one job id loses none of them */
  lemma {:induction false} TaggedFilesCount(s: set<Path>, jobId: Option<int>)
    requires forall f :: f in s ==> f != []
    ensures |set f | f in s :: JobFile(jobId, f)| == |s|
    decreases s
  {
    if s != {} {
      var q :| q in s;
      TaggedFilesCount(s - {q}, jobId);
      assert (set f | f in s :: JobFile(jobId, f)) == (set f | f in s - {q} :: JobFile(jobId, f)) + {JobFile(jobId, q)};
    }
  }

  /** JobFolder.get_file_count: the number of regular files in the job's directory */
  function GetFileCount(fs: FileStore, root: Path, jobId: Option<int>): Result<nat, Error>
    requires fs.Valid()
    reads fs
  {
    var jobDir := PathForJob(root, jobId);
    if !fs.Exists(jobDir) then Ok(0)
    else if fs.IsFile(jobDir) then Err(Os(NotADirectory(jobDir)))
    else Ok(|fs.FilesIn(jobDir)|)
  }

  /** get_file_count counts as many as get_files lists, 0 for an unknown job, and fails when it fails */
  lemma FileCountIsSize(fs: FileStore, root: Path, jobId: Option<int>)
    requires fs.Valid()
    ensures GetFileCount(fs, root, jobId).Ok? <==> GetFiles(fs, root, jobId).Ok?
    ensures GetFileCount(fs, root, jobId).Ok? ==> GetFileCount(fs, root, jobId).value == |GetFiles(fs, root, jobId).value|
    ensures !fs.Exists(PathForJob(root, jobId)) ==> GetFileCount(fs, root, jobId) == Ok(0)
  {
    var jobDir := PathForJob(root, jobId);
    if fs.IsDir(jobDir) {
      TaggedFilesCount(fs.FilesIn(jobDir), jobId);
    }
  }

  /** JobFolder.get_unknown_job_files: the files under `root/UNKNOWN`, each with no job id */
  function GetUnknownJobFiles(fs: FileStore, root: Path): (r: Result<set<JobFile>, Error>)
    requires fs.Valid()
    reads fs
    ensures !fs.Exists(root + [UnknownJobFolderName]) ==> r == Ok({})
    ensures fs.IsFile(root + [UnknownJobFolderName]) ==> r == Err(Os(NotADirectory(root + [UnknownJobFolderName])))
    ensures r.Ok? ==> forall jf :: jf in r.value <==>
      jf.jobId == None && jf.path in fs.files && Parent(jf.path) == root + [UnknownJobFolderName]
  {
    var unknownDir := root + [UnknownJobFolderName];
    if !fs.Exists(unknownDir) then Ok({})
    else if fs.IsFile(unknownDir) then Err(Os(NotADirectory(unknownDir)))
    else Ok(set f | f in fs.FilesIn(unknownDir) :: JobFile(None, f))
  }

  /** The unknown files are the files get_files lists for a false job id, relabelled with no job id */
  lemma UnknownFilesAreFalseJobFiles(fs: FileStore, root: Path, jobId: Option<int>)
    requires fs.Valid() && !IsTruthy(jobId)
    ensures GetUnknownJobFiles(fs, root).Ok? <==> GetFiles(fs, root, jobId).Ok?
    ensures GetUnknownJobFiles(fs, root).Ok? ==>
      GetUnknownJobFiles(fs, root).value == set jf | jf in GetFiles(fs, root, jobId).value :: JobFile(None, jf.path)
  {
  }

  /** The paths among `ds` whose names `int()` accepts */
  function Numeric(ds: set<Path>): set<Path>
  {
    set d | d in ds && ParseInt(FileName(d)).Some?
  }

  /** The numbers the names of `ds` spell */
  function IdsOf(ds: set<Path>): set<int>
  {
    set d | d in Numeric(ds) :: ParseInt(FileName(d)).value
  }

  /** The paths among `ds` whose names `int()` reads as `id` */
  function NamedFor(ds: set<Path>, id: int): set<Path>
  {
    set d | d in ds && ParseInt(FileName(d)) == Some(id)
  }

  /** Taking one more directory `d` out of `todo` adds one name for its id and none for any other */
  lemma NamedForStep(all: set<Path>, todo: set<Path>, d: Path)
    requires d in todo && todo <= all
    ensures forall id ::
      |NamedFor(all - (todo - {d}), id)| == |NamedFor(all - todo, id)| + (if ParseInt(FileName(d)) == Some(id) then 1 else 0)
  {
    var done := all - todo;
    assert all - (todo - {d}) == done + {d};
    forall id
      ensures |NamedFor(done + {d}, id)| == |NamedFor(done, id)| + (if ParseInt(FileName(d)) == Some(id) then 1 else 0)
    {
      if ParseInt(FileName(d)) == Some(id) {
        assert NamedFor(done + {d}, id) == NamedFor(done, id) + {d};
      } else {
        assert NamedFor(done + {d}, id) == NamedFor(done, id);
      }
    }
  }

  /** The directories directly under `root` whose names `int()` accepts */
  function NumericSubdirs(fs: FileStore, root: Path): set<Path>
    reads fs
  {
    Numeric(fs.SubdirsIn(root))
  }

  /** The job ids those directory names spell */
  function JobIdSet(fs: FileStore, root: Path): set<int>
    reads fs
  {
    IdsOf(fs.SubdirsIn(root))
  }

  /** Taking one more directory `d` out of `todo` adds it, and its id if it has one */
  lemma NumericStep(all: set<Path>, todo: set<Path>, d: Path)
    requires d in todo && todo <= all
    ensures all - (todo - {d}) == (all - todo) + {d}
    ensures ParseInt(FileName(d)).Some? ==> Numeric(all - (todo - {d})) == Numeric(all - todo) + {d}
    ensures ParseInt(FileName(d)).Some? ==>
      IdsOf(all - (todo - {d})) == IdsOf(all - todo) + {ParseInt(FileName(d)).value}
    ensures ParseInt(FileName(d)).None? ==>
      Numeric(all - (todo - {d})) == Numeric(all - todo) && IdsOf(all - (todo - {d})) == IdsOf(all - todo)
  {
    var done := all - todo;
    assert all - (todo - {d}) == done + {d};
    if ParseInt(FileName(d)).Some? {
      assert Numeric(done + {d}) == Numeric(done) + {d};
    } else {
      assert Numeric(done + {d}) == Numeric(done);
    }
  }

  /** One pass of get_job_ids' loop keeps what the ids listed so far say about the directories seen */
  lemma JobIdsStep(all: set<Path>, todo: set<Path>, d: Path, ids: seq<int>, ids': seq<int>)
    requires d in todo && todo <= all
    requires forall id :: id in ids <==> id in IdsOf(all - todo)
    requires |ids| == |Numeric(all - todo)|
    requires forall id :: multiset(ids)[id] == |NamedFor(all - todo, id)|
    requires ids' == if ParseInt(FileName(d)).Some? then ids + [ParseInt(FileName(d)).value] else ids
    ensures forall id :: id in ids' <==> id in IdsOf(all - (todo - {d}))
    ensures |ids'| == |Numeric(all - (todo - {d}))|
    ensures forall id :: multiset(ids')[id] == |NamedFor(all - (todo - {d}), id)|
  {
    NumericStep(all, todo, d);
    NamedForStep(all, todo, d);
    assert forall id :: multiset(ids')[id] == multiset(ids)[id] + (if ParseInt(FileName(d)) == Some(id) then 1 else 0);
  }

  /**
   * JobFolder.get_job_ids: [] when the folder does not exist; otherwise one id
   * per sub-directory whose name `int()` accepts, in directory order, which is
   * unspecified, so an id appears once for each directory whose name spells it
   * (`5` and `05` both give 5). Other directories (UNKNOWN among them) are
   * skipped.
   */
  method GetJobIds(fs: FileStore, root: Path) returns (r: Result<seq<int>, Error>)
    requires fs.Valid()
    ensures !fs.Exists(root) ==> r == Ok([])
    ensures fs.IsFile(root) ==> r == Err(Os(NotADirectory(root)))
    ensures fs.IsDir(root) ==> r.Ok?
    ensures r.Ok? ==> (forall id :: id in r.value <==> id in JobIdSet(fs, root))
    ensures r.Ok? ==> |r.value| == |NumericSubdirs(fs, root)|
    ensures r.Ok? ==> forall id :: multiset(r.value)[id] == |NamedFor(fs.SubdirsIn(root), id)|
  {
    if !fs.Exists(root) {
      return Ok([]);
    }
    if fs.IsFile(root) {
      return Err(Os(NotADirectory(root)));
    }
    var dirNames := fs.SubdirsIn(root);
    var ids: seq<int> := [];
    var todo := dirNames;
    while todo != {}
      invariant todo <= dirNames
      invariant forall id :: id in ids <==> id in IdsOf(dirNames - todo)
      invariant |ids| == |Numeric(dirNames - todo)|
      invariant forall id :: multiset(ids)[id] == |NamedFor(dirNames - todo, id)|
      decreases todo
    {
      var d :| d in todo;
      var parsed := ParseInt(FileName(d));
      ghost var idsBefore := ids;
      if parsed.Some? {
        ids := ids + [parsed.value];
      }
      JobIdsStep(dirNames, todo, d, idsBefore, ids);
      todo := todo - {d};
    }
    assert dirNames - todo == dirNames;
    r := Ok(ids);
  }

  /** A job with a directory is listed; the UNKNOWN directory never is */
  lemma JobDirIsListed(fs: FileStore, root: Path, jobId: Option<int>)
    requires fs.IsDir(PathForJob(root, jobId))
    ensures IsTruthy(jobId) ==> jobId.value in JobIdSet(fs, root)
    ensures PathForJob(root, jobId) in NumericSubdirs(fs, root) <==> IsTruthy(jobId)
  {
    PathForJobLayout(root, jobId);
    var d := PathForJob(root, jobId);
    assert d in fs.SubdirsIn(root);
  }

  /**
   * Job 0 is falsy, so its directory is UNKNOWN, yet a directory named `0`
   * still lists 0: whether job 0's own directory is gone says nothing about
   * whether 0 is listed.
   */
  lemma ZeroIsListedByAnotherDir(fs: FileStore, root: Path)
    requires fs.IsDir(root + ["0"])
    ensures PathForJob(root, Some(0)) != root + ["0"]
    ensures 0 in JobIdSet(fs, root)
  {
    var d := root + ["0"];
    assert d in fs.SubdirsIn(root) by {
      assert Parent(d) == root;
    }
    assert ParseInt(FileName(d)) == Some(0) by {
      assert FileName(d) == IntToString(0);
      ParseIntOfIntToString(0);
    }
    assert d in Numeric(fs.SubdirsIn(root));
  }

  lemma NotAmongIds(s: set<Path>, j: int)
    requires forall d :: d in Numeric(s) ==> ParseInt(FileName(d)).value != j
    ensures j !in IdsOf(s)
  {
  }

  lemma NameOfOtherDir(d: Path, root: Path, jobId: int)
    requires jobId != 0 && d != PathForJob(root, Some(jobId))
    requires d == root + [FileName(d)] && IsCanonical(FileName(d))
    ensures ParseInt(FileName(d)).value != jobId
  {
  }

  /**
   * Once a job's directory is gone the job is no longer listed, provided every
   * numeric directory name is the one `str` gives (no "007" beside "7").
   */
  lemma GoneJobIsNotListed(fs: FileStore, root: Path, jobId: int)
    requires jobId != 0
    requires !fs.IsDir(PathForJob(root, Some(jobId)))
    requires forall d :: d in NumericSubdirs(fs, root) ==> IsCanonical(FileName(d))
    ensures jobId !in JobIdSet(fs, root)
  {
    var subdirs := fs.SubdirsIn(root);
    assert PathForJob(root, Some(jobId)) !in subdirs;
    forall d | d in Numeric(subdirs)
      ensures ParseInt(FileName(d)).value != jobId
    {
      assert d == Parent(d) + [FileName(d)];
      NameOfOtherDir(d, root, jobId);
    }
    NotAmongIds(subdirs, jobId);
  }

  // ---------------------------------------------------------------------
  // Changing a JobFolder
  // ---------------------------------------------------------------------

  /**
   * JobFolder.remove_empty_job_id: rmdir the job's directory. A missing
   * directory means the job id is not known; anything else that stops rmdir
   * (entries left, or a file in its place) means files are still there.
   */
  method RemoveEmptyJobId(fs: FileStore, root: Path, jobId: Option<int>) returns (r: Result<(), Error>)
    requires fs.Valid()
    modifies fs
    ensures fs.Valid() && fs.files == old(fs.files)
    ensures !old(fs.Exists(PathForJob(root, jobId))) && !old(fs.Blocked(PathForJob(root, jobId))) ==>
      r == Err(JobFolderException(jobId, JobIdNotKnown))
    ensures old(fs.Blocked(PathForJob(root, jobId))) ==> r == Err(JobFolderException(jobId, StillHasFiles))
    ensures old(fs.Exists(PathForJob(root, jobId))) && !old(fs.IsEmptyDir(PathForJob(root, jobId))) ==>
      r == Err(JobFolderException(jobId, StillHasFiles))
    ensures old(fs.IsEmptyDir(PathForJob(root, jobId))) ==> r == Ok(())
    ensures r.Ok? ==> fs.dirs == old(fs.dirs) - {PathForJob(root, jobId)}
    ensures r.Err? ==> fs.dirs == old(fs.dirs)
  {
    var removed := fs.Rmdir(PathForJob(root, jobId));
    if removed.Ok? {
      r := Ok(());
    } else if removed.error.FileNotFound? {
      r := Err(JobFolderException(jobId, JobIdNotKnown));
    } else {
      r := Err(JobFolderException(jobId, StillHasFiles));
    }
  }

  /** The exception `mkdir(parents=True, exist_ok=True)` raises for a blocked path */
  function MakeDirsError(files: map<Path, Content>, p: Path): OsError
  {
    if p in files then FileExists(p) else NotADirectory(p)
  }

  /**
   * prepare_job_file_operation: pick a free destination path in the folder
   * and create its parent directories.
   */
  method PrepareJobFileOperation(fs: FileStore, jf: JobFile, dest: Folder)
    returns (r: Result<(FilePath, FilePath), Error>)
    requires fs.Valid()
    modifies fs
    ensures fs.Valid() && fs.files == old(fs.files)
    ensures old(fs.Blocked(TargetDir(dest, jf.jobId))) ==>
      r == Err(Os(MakeDirsError(old(fs.files), TargetDir(dest, jf.jobId)))) && fs.dirs == old(fs.dirs)
    ensures !old(fs.Blocked(TargetDir(dest, jf.jobId))) ==>
      r.Ok? && fs.dirs == old(fs.dirs) + Ancestors(TargetDir(dest, jf.jobId))
    ensures r.Ok? ==> r.value.0 == jf.path
    ensures r.Ok? ==> Parent(r.value.1) == TargetDir(dest, jf.jobId)
    ensures r.Ok? ==> !old(fs.Exists(r.value.1)) && !fs.Exists(r.value.1)
    ensures r.Ok? ==> (r.value.1 == PreferredPath(dest, jf) <==> !old(fs.Exists(PreferredPath(dest, jf))))
  {
    var destination := GetAvailablePath(fs, dest, jf);
    var made := fs.MakeDirs(Parent(destination));
    if made.Err? {
      return Err(Os(made.error));
    }
    assert destination !in Ancestors(Parent(destination));
    r := Ok((jf.path, destination));
  }

  /**
   * move_job_file: rename the file to a free path in the folder. The source
   * disappears, exactly one new file appears where nothing was, and nothing
   * else changes but the directories made on the way.
   */
  method MoveJobFile(fs: FileStore, jf: JobFile, dest: Folder) returns (r: Result<(), Error>, ghost dst: FilePath)
    requires fs.Valid() && !fs.IsDir(jf.path)
    requires jf.path in fs.files || !IsPrefix(jf.path, TargetDir(dest, jf.jobId))
    modifies fs
    ensures fs.Valid()
    ensures old(fs.Blocked(TargetDir(dest, jf.jobId))) ==>
      r == Err(Os(MakeDirsError(old(fs.files), TargetDir(dest, jf.jobId))))
      && fs.dirs == old(fs.dirs) && fs.files == old(fs.files)
    ensures !old(fs.Blocked(TargetDir(dest, jf.jobId))) ==>
      fs.dirs == old(fs.dirs) + Ancestors(TargetDir(dest, jf.jobId))
    ensures !old(fs.Blocked(TargetDir(dest, jf.jobId))) && jf.path !in old(fs.files) ==>
      r == Err(Os(if old(fs.Blocked(jf.path)) then NotADirectory(jf.path) else FileNotFound(jf.path)))
      && fs.files == old(fs.files)
    ensures !old(fs.Blocked(TargetDir(dest, jf.jobId))) && jf.path in old(fs.files) ==> r == Ok(())
    ensures r.Ok? ==> Parent(dst) == TargetDir(dest, jf.jobId) && !old(fs.Exists(dst))
    ensures r.Ok? ==> (dst == PreferredPath(dest, jf) <==> !old(fs.Exists(PreferredPath(dest, jf))))
    ensures r.Ok? ==> fs.files == (old(fs.files) - {jf.path})[dst := old(fs.files)[jf.path]]
  {
    dst := jf.path;
    var prepared := PrepareJobFileOperation(fs, jf, dest);
    if prepared.Err? {
      return Err(prepared.error), dst;
    }
    var (source, destination) := prepared.value;
    var renamed := fs.Rename(source, destination);
    if renamed.Err? {
      return Err(Os(renamed.error)), dst;
    }
    r, dst := Ok(()), destination;
  }

  /**
   * copy_job_file: copy the file to a free path in the folder. The source
   * stays, exactly one new file appears where nothing was, and nothing else
   * changes but the directories made on the way.
   */
  method CopyJobFile(fs: FileStore, jf: JobFile, dest: Folder) returns (r: Result<(), Error>, ghost dst: FilePath)
    requires fs.Valid()
    modifies fs
    ensures fs.Valid()
    ensures old(fs.Blocked(TargetDir(dest, jf.jobId))) ==>
      r == Err(Os(MakeDirsError(old(fs.files), TargetDir(dest, jf.jobId))))
      && fs.dirs == old(fs.dirs) && fs.files == old(fs.files)
    ensures !old(fs.Blocked(TargetDir(dest, jf.jobId))) ==>
      fs.dirs == old(fs.dirs) + Ancestors(TargetDir(dest, jf.jobId))
    ensures !old(fs.Blocked(TargetDir(dest, jf.jobId))) && jf.path in fs.dirs ==>
      r == Err(Os(IsADirectory(jf.path))) && fs.files == old(fs.files)
    ensures !old(fs.Blocked(TargetDir(dest, jf.jobId))) && !fs.Exists(jf.path) ==>
      r == Err(Os(if old(fs.Blocked(jf.path)) then NotADirectory(jf.path) else FileNotFound(jf.path)))
      && fs.files == old(fs.files)
    ensures !old(fs.Blocked(TargetDir(dest, jf.jobId))) && jf.path in old(fs.files) ==> r == Ok(())
    ensures r.Ok? ==> Parent(dst) == TargetDir(dest, jf.jobId) && !old(fs.Exists(dst))
    ensures r.Ok? ==> (dst == PreferredPath(dest, jf) <==> !old(fs.Exists(PreferredPath(dest, jf))))
    ensures r.Ok? ==> jf.path in old(fs.files)
    ensures r.Ok? ==> fs.files == old(fs.files)[dst := old(fs.files)[jf.path]]
  {
    dst := jf.path;
    var prepared := PrepareJobFileOperation(fs, jf, dest);
    if prepared.Err? {
      return Err(prepared.error), dst;
    }
    var (source, destination) := prepared.value;
    var copied := fs.CopyFile(source, destination);
    if copied.Err? {
      return Err(Os(copied.error)), dst;
    }
    r, dst := Ok(()), destination;
  }

  /**
   * Copying one file twice into a folder keeps both copies: the target
   * directory gains two files and the source is still there.
   */
  method CopyTwiceKeepsBoth(fs: FileStore, jf: JobFile, dest: Folder)
    returns (first: Result<(), Error>, second: Result<(), Error>)
    requires fs.Valid() && jf.path in fs.files && !fs.Blocked(TargetDir(dest, jf.jobId))
    modifies fs
    ensures fs.Valid() && first.Ok? && second.Ok?
    ensures jf.path in fs.files
    ensures fs.FilesIn(TargetDir(dest, jf.jobId)) - old(fs.FilesIn(TargetDir(dest, jf.jobId))) != {}
    ensures |fs.FilesIn(TargetDir(dest, jf.jobId))| == |old(fs.FilesIn(TargetDir(dest, jf.jobId)))| + 2
  {
    ghost var target := TargetDir(dest, jf.jobId);
    ghost var before := fs.FilesIn(target);
    ghost var dst1, dst2;
    first, dst1 := CopyJobFile(fs, jf, dest);
    assert fs.FilesIn(target) == before + {dst1};
    second, dst2 := CopyJobFile(fs, jf, dest);
    assert fs.FilesIn(target) == before + {dst1} + {dst2};
  }

  // ---------------------------------------------------------------------
  // Moving a whole job
  // ---------------------------------------------------------------------

  /**
   * `after` is `before` with each file `f` in `moved` renamed to `moved[f]`
   * in `target`, with the same content: distinct files go to distinct paths,
   * and a path that held a file before is reused only after that file moved
   * away. Every other file is kept as it was, and no file appears from
   * nowhere.
   */
  ghost predicate MovedFiles(before: map<Path, Content>, after: map<Path, Content>, moved: map<Path, Path>, target: Path)
  {
    MovedPaths(before, moved, target) && MovedContents(before, after, moved)
  }

  /** Where the files go: distinct paths in `target`, reusing an original path only once it was vacated */
  ghost predicate MovedPaths(before: map<Path, Content>, moved: map<Path, Path>, target: Path)
  {
    && moved.Keys <= before.Keys
    && (forall f :: f in moved ==> moved[f] != [] && Parent(moved[f]) == target)
    && moved.Values * before.Keys <= moved.Keys
    && (forall f, g :: f in moved && g in moved && f != g ==> moved[f] != moved[g])
  }

  /** What the files hold: the moved ones their old content, the rest unchanged, nothing else */
  ghost predicate MovedContents(before: map<Path, Content>, after: map<Path, Content>, moved: map<Path, Path>)
    requires moved.Keys <= before.Keys
  {
    && (forall f :: f in moved ==> moved[f] in after && after[moved[f]] == before[f])
    && (forall p :: p in before && p !in moved ==> p in after && after[p] == before[p])
    && after.Keys <= (before.Keys - moved.Keys) + moved.Values
  }

  /** Adding a new key adds its value to a map's values */
  lemma NewKeyValues<K, V>(m: map<K, V>, k: K, v: V)
    requires k !in m
    ensures m[k := v].Values == m.Values + {v}
  {
    forall x | x in m[k := v].Values
      ensures x in m.Values + {v}
    {
      var f :| f in m[k := v] && m[k := v][f] == x;
      if f != k {
        assert f in m;
      }
    }
    forall x | x in m.Values + {v}
      ensures x in m[k := v].Values
    {
      if x != v {
        var f :| f in m && m[f] == x;
        assert m[k := v][f] == x;
      } else {
        assert m[k := v][k] == x;
      }
    }
  }

  /** One more rename, of a file not yet moved to a free path in `target`, extends the relation */
  lemma MovedFilesStep(before: map<Path, Content>, current: map<Path, Content>, moved: map<Path, Path>,
                       target: Path, src: Path, dst: FilePath)
    requires MovedFiles(before, current, moved, target)
    requires src in before && src !in moved && dst !in current && Parent(dst) == target
    ensures src in current
    ensures MovedFiles(before, (current - {src})[dst := current[src]], moved[src := dst], target)
  {
    forall f | f in moved
      ensures moved[f] != src && moved[f] != dst
    {
      assert moved[f] in current;
    }
    NewKeyValues(moved, src, dst);
    MovedPathsStep(before, moved, target, src, dst);
    MovedContentsStep(before, current, moved, src, dst);
  }

  lemma MovedPathsStep(before: map<Path, Content>, moved: map<Path, Path>, target: Path, src: Path, dst: FilePath)
    requires MovedPaths(before, moved, target)
    requires src in before && src !in moved && Parent(dst) == target
    requires forall f :: f in moved ==> moved[f] != dst
    requires dst in before ==> dst in moved
    requires moved[src := dst].Values == moved.Values + {dst}
    ensures MovedPaths(before, moved[src := dst], target)
  {
  }

  lemma MovedContentsStep(before: map<Path, Content>, current: map<Path, Content>, moved: map<Path, Path>,
                          src: Path, dst: FilePath)
    requires moved.Keys <= before.Keys && MovedContents(before, current, moved)
    requires src in before && src !in moved && dst !in current
    requires forall f :: f in moved ==> moved[f] != src && moved[f] != dst
    requires moved[src := dst].Values == moved.Values + {dst}
    ensures src in current
    ensures MovedContents(before, (current - {src})[dst := current[src]], moved[src := dst])
  {
    var after := (current - {src})[dst := current[src]];
    var moved' := moved[src := dst];
    forall f | f in moved'
      ensures moved'[f] in after && after[moved'[f]] == before[f]
    {
      if f != src {
        assert moved'[f] == moved[f] && moved[f] in current;
      }
    }
    forall p | p in before && p !in moved'
      ensures p in after && after[p] == before[p]
    {
      assert p in current && p != dst;
    }
    assert after.Keys <= (current.Keys - {src}) + {dst};
  }

  /** A directory on the way from the root to `target` whose parent is `dir` puts `dir` on that way too */
  lemma ChildOnTheWay(c: Path, dir: Path, target: Path)
    ensures IsPrefix(c, target) && c != [] && Parent(c) == dir ==> IsPrefix(dir, target)
  {
    if IsPrefix(c, target) && c != [] && Parent(c) == dir {
      assert target[..|dir|] == c[..|dir|];
    }
  }

  /**
   * After the files of `jobDir` moved to `target` and the directories up to
   * `target` were made, `jobDir` is empty exactly when it had no
   * subdirectories and `target` is neither `jobDir` nor below it.
   */
  lemma EmptiedJobDir(fs: FileStore, beforeDirs: set<Path>, before: map<Path, Content>, subdirs: set<Path>,
                      moved: map<Path, Path>, jobDir: FilePath, target: Path)
    requires fs.dirs == beforeDirs + Ancestors(target) && jobDir in beforeDirs
    requires MovedFiles(before, fs.files, moved, target) && moved != map[]
    requires forall f :: f in moved <==> f in before && f != [] && Parent(f) == jobDir
    requires forall c :: c in subdirs <==> c in beforeDirs && c != [] && Parent(c) == jobDir
    ensures fs.IsEmptyDir(jobDir) <==> subdirs == {} && !IsPrefix(jobDir, target)
  {
    if IsPrefix(jobDir, target) {
      if |target| == |jobDir| {
        var f :| f in moved;
        assert target == jobDir;
        assert moved[f] in fs.FilesIn(jobDir);
      } else {
        var c := target[..|jobDir| + 1];
        assert IsPrefix(c, target);
        assert c[..|jobDir|] == jobDir;
        assert c in fs.SubdirsIn(jobDir);
      }
    } else if subdirs != {} {
      var c :| c in subdirs;
      assert c in fs.SubdirsIn(jobDir);
    } else {
      forall p | p in fs.files
        ensures p == [] || Parent(p) != jobDir
      {
        if p !in before || p in moved {
          var f :| f in moved && moved[f] == p;
        }
      }
      assert fs.FilesIn(jobDir) == {};
      forall c | c in fs.dirs && c != []
        ensures Parent(c) != jobDir
      {
        ChildOnTheWay(c, jobDir, target);
      }
      assert fs.SubdirsIn(jobDir) == {};
    }
  }

  /** Once all directories on the way to `target` exist, no file blocks it */
  lemma MadeDirIsNotBlocked(fs: FileStore, target: Path)
    requires fs.Valid() && Ancestors(target) <= fs.dirs
    ensures !fs.Blocked(target)
  {
    forall q | q in fs.files
      ensures !IsPrefix(q, target)
    {
      assert q !in fs.dirs;
    }
  }

  /** Renaming a file to a free path keeps the number of files */
  lemma RenameKeepsCount(files: map<Path, Content>, src: Path, dst: Path)
    requires src in files && dst !in files
    ensures |(files - {src})[dst := files[src]]| == |files|
  {
    assert |(files - {src}).Keys| == |files.Keys - {src}| == |files| - 1;
  }

  /**
   * Where the loop of move_job_data stands while the files `todo` of `files`
   * are still to be moved: the first move made the target directories, and
   * the files moved so far are exactly the others.
   */
  ghost predicate MovingJobFiles(files: set<JobFile>, jobId: Option<int>, target: Path,
                                 before: map<Path, Content>, beforeDirs: set<Path>, todo: set<JobFile>,
                                 moved: map<Path, Path>, current: map<Path, Content>, currentDirs: set<Path>)
  {
    && todo <= files
    && (todo == files ==> current == before && currentDirs == beforeDirs && moved == map[])
    && (todo != files ==> currentDirs == beforeDirs + Ancestors(target) && !BlockedIn(before, target))
    && MovedFiles(before, current, moved, target)
    && (forall f :: f in moved <==> JobFile(jobId, f) in files && JobFile(jobId, f) !in todo)
    && |current| == |before|
  }

  /** A file of the job not moved yet is still where it was */
  lemma PendingFileIsThere(files: set<JobFile>, jobId: Option<int>, target: Path,
                           before: map<Path, Content>, beforeDirs: set<Path>, todo: set<JobFile>,
                           moved: map<Path, Path>, current: map<Path, Content>, currentDirs: set<Path>, jf: JobFile)
    requires MovingJobFiles(files, jobId, target, before, beforeDirs, todo, moved, current, currentDirs)
    requires jf.jobId == jobId && jf.path in before && jf in todo
    ensures jf.path in current && jf.path !in moved
  {
  }

  /** Moving one more file of the job to a free path in the target keeps the loop's invariant */
  lemma MovingJobFilesStep(files: set<JobFile>, jobId: Option<int>, target: Path,
                           before: map<Path, Content>, beforeDirs: set<Path>, todo: set<JobFile>,
                           moved: map<Path, Path>, current: map<Path, Content>, currentDirs: set<Path>,
                           jf: JobFile, dst: FilePath, next: map<Path, Content>, nextDirs: set<Path>)
    requires MovingJobFiles(files, jobId, target, before, beforeDirs, todo, moved, current, currentDirs)
    requires jf in todo && jf.jobId == jobId && jf.path in before
    requires jf.path in current && dst !in current && Parent(dst) == target
    requires next == (current - {jf.path})[dst := current[jf.path]]
    requires nextDirs == currentDirs + Ancestors(target) && !BlockedIn(current, target)
    ensures MovingJobFiles(files, jobId, target, before, beforeDirs, todo - {jf},
                           moved[jf.path := dst], next, nextDirs)
  {
    MovedFilesStep(before, current, moved, target, jf.path, dst);
    RenameKeepsCount(current, jf.path, dst);
    MovedKeysStep(files, jobId, todo, moved, jf, dst);
    assert todo - {jf} != files;
    assert nextDirs == beforeDirs + Ancestors(target);
  }

  lemma MovedKeysStep(files: set<JobFile>, jobId: Option<int>, todo: set<JobFile>, moved: map<Path, Path>,
                      jf: JobFile, dst: Path)
    requires forall f :: f in moved <==> JobFile(jobId, f) in files && JobFile(jobId, f) !in todo
    requires jf in todo && todo <= files && jf.jobId == jobId
    ensures forall f :: f in moved[jf.path := dst] <==> JobFile(jobId, f) in files && JobFile(jobId, f) !in todo - {jf}
  {
    forall f
      ensures f in moved[jf.path := dst] <==> JobFile(jobId, f) in files && JobFile(jobId, f) !in todo - {jf}
    {
      if f == jf.path {
        assert JobFile(jobId, f) == jf;
      } else {
        assert JobFile(jobId, f) != jf;
      }
    }
  }

  /**
   * The loop of move_job_data: move_job_file for each file of one job. The
   * first move makes the target directory; if it cannot, nothing changes.
   * Otherwise every file is moved.
   */
  method MoveJobFiles(fs: FileStore, files: set<JobFile>, jobId: Option<int>, dest: Folder)
    returns (r: Result<(), Error>, ghost moved: map<Path, Path>)
    requires fs.Valid()
    requires forall jf :: jf in files ==> jf.jobId == jobId && jf.path in fs.files
    modifies fs
    ensures fs.Valid()
    ensures |fs.files| == |old(fs.files)|
    ensures files == {} ==> r == Ok(()) && fs.dirs == old(fs.dirs) && fs.files == old(fs.files)
    ensures files != {} && old(fs.Blocked(TargetDir(dest, jobId))) ==>
      r == Err(Os(MakeDirsError(old(fs.files), TargetDir(dest, jobId))))
      && fs.dirs == old(fs.dirs) && fs.files == old(fs.files)
    ensures files != {} && !old(fs.Blocked(TargetDir(dest, jobId))) ==>
      r == Ok(()) && fs.dirs == old(fs.dirs) + Ancestors(TargetDir(dest, jobId))
    ensures r.Ok? ==> MovedFiles(old(fs.files), fs.files, moved, TargetDir(dest, jobId))
    ensures r.Ok? ==> forall f :: f in moved <==> JobFile(jobId, f) in files
  {
    moved := map[];
    ghost var target := TargetDir(dest, jobId);
    var todo := files;
    while todo != {}
      invariant fs.Valid()
      invariant MovingJobFiles(files, jobId, target, old(fs.files), old(fs.dirs), todo, moved, fs.files, fs.dirs)
      decreases |todo|
    {
      var jf :| jf in todo;
      PendingFileIsThere(files, jobId, target, old(fs.files), old(fs.dirs), todo, moved, fs.files, fs.dirs, jf);
      ghost var current, currentDirs := fs.files, fs.dirs;
      if todo != files {
        MadeDirIsNotBlocked(fs, target);
      }
      var moveResult, dst := MoveJobFile(fs, jf, dest);
      if moveResult.Err? {
        return moveResult, moved;
      }
      MovingJobFilesStep(files, jobId, target, old(fs.files), old(fs.dirs), todo, moved, current, currentDirs,
                         jf, dst, fs.files, fs.dirs);
      moved := moved[jf.path := dst];
      todo := todo - {jf};
    }
    r := Ok(());
  }

  /** The paths of a job's non-empty listing are the files in the job's directory, which is a directory */
  lemma ListedPaths(fs: FileStore, root: Path, jobId: Option<int>, files: set<JobFile>)
    requires fs.Valid() && GetFiles(fs, root, jobId) == Ok(files) && files != {}
    ensures PathForJob(root, jobId) in fs.dirs
    ensures forall jf :: jf in files ==> jf.jobId == jobId && jf.path in fs.files
    ensures forall f :: JobFile(jobId, f) in files <==> f in fs.FilesIn(PathForJob(root, jobId))
  {
    var jf :| jf in files;
  }

  /**
   * move_job_data: move every file of the job from the source folder to the
   * destination, then remove the job's directory from the source. Nothing
   * happens when the job has no files. Every moved file lands under its job
   * in the destination, no file is lost or gained, and the job directory goes
   * exactly when the moves leave it empty.
   */
  method MoveJobData(fs: FileStore, jobId: Option<int>, source: Path, dest: Folder)
    returns (r: Result<(), Error>, ghost moved: map<Path, Path>)
    requires fs.Valid()
    modifies fs
    ensures fs.Valid()
    ensures |fs.files| == |old(fs.files)|
    ensures old(GetFiles(fs, source, jobId)).Err? ==>
      r == Err(old(GetFiles(fs, source, jobId)).error) && fs.dirs == old(fs.dirs) && fs.files == old(fs.files)
    ensures old(GetFiles(fs, source, jobId)) == Ok({}) ==>
      r == Ok(()) && fs.dirs == old(fs.dirs) && fs.files == old(fs.files)
    ensures (old(GetFiles(fs, source, jobId)).Ok? && old(GetFiles(fs, source, jobId)) != Ok({}) &&
             old(fs.Blocked(TargetDir(dest, jobId)))) ==>
      r == Err(Os(MakeDirsError(old(fs.files), TargetDir(dest, jobId))))
      && fs.dirs == old(fs.dirs) && fs.files == old(fs.files)
    ensures (old(GetFiles(fs, source, jobId)).Ok? && old(GetFiles(fs, source, jobId)) != Ok({}) &&
             !old(fs.Blocked(TargetDir(dest, jobId)))) ==>
      && moved.Keys == old(fs.FilesIn(PathForJob(source, jobId)))
      && MovedFiles(old(fs.files), fs.files, moved, TargetDir(dest, jobId))
      && (r.Ok? <==> old(fs.SubdirsIn(PathForJob(source, jobId))) == {} && !IsPrefix(PathForJob(source, jobId), TargetDir(dest, jobId)))
      && (r.Err? ==> r == Err(JobFolderException(jobId, StillHasFiles)))
      && (r.Ok? ==> fs.dirs == old(fs.dirs) + Ancestors(TargetDir(dest, jobId)) - {PathForJob(source, jobId)})
      && (r.Err? ==> fs.dirs == old(fs.dirs) + Ancestors(TargetDir(dest, jobId)))
  {
    moved := map[];
    var listing := GetFiles(fs, source, jobId);
    if listing.Err? {
      return Err(listing.error), moved;
    }
    var files := listing.value;
    if files == {} {
      return Ok(()), moved;
    }
    ghost var jobDir := PathForJob(source, jobId);
    ghost var target := TargetDir(dest, jobId);
    ghost var listed, subdirs := fs.FilesIn(jobDir), fs.SubdirsIn(jobDir);
    ListedPaths(fs, source, jobId, files);
    var moveResult;
    moveResult, moved := MoveJobFiles(fs, files, jobId, dest);
    if moveResult.Err? {
      return moveResult, moved;
    }
    assert moved.Keys == listed;
    EmptiedJobDir(fs, old(fs.dirs), old(fs.files), subdirs, moved, jobDir, target);
    r := RemoveEmptyJobId(fs, source, jobId);
    assert r.Ok? ==> fs.dirs == old(fs.dirs) + Ancestors(target) - {jobDir};
    assert r.Err? ==> fs.dirs == old(fs.dirs) + Ancestors(target);
  }
}
