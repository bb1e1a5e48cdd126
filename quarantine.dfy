/**
 * IDIS's own quarantine (app/idis/jobs/ctp.py, IDISCTPQuarantine): every CTP
 * quarantine folder N is mirrored by a job folder base/active/N, which is
 * archived to base/archived/N. Scraping sorts CTP's files into the active
 * mirrors by job; archiving moves one job's files on to the archive; the
 * queries gather answers over all active mirrors.
 */
module Quarantine {
  import opened Common
  import opened Store
  import opened PyInt
  import opened FileHandling
  import opened Ctp

  // ---------------------------------------------------------------------
  // IDISQuarantineFolder and QuarantinedJobFile
  // ---------------------------------------------------------------------

  /** A JobFolder that knows why files end up in it */
  datatype IdisQuarantineFolder = IdisQuarantineFolder(path: Path, description: string)

  /** A JobFile linked to the quarantine folder it was found in */
  datatype QuarantinedJobFile = QuarantinedJobFile(jobId: Option<int>, path: FilePath, folder: IdisQuarantineFolder)

  /** The plain JobFile a quarantined one extends */
  function AsJobFile(q: QuarantinedJobFile): JobFile
  {
    JobFile(q.jobId, q.path)
  }

  /** IDISQuarantineFolder.to_quarantine_job_file: link a JobFile to the folder */
  function ToQuarantineJobFile(folder: IdisQuarantineFolder, jf: JobFile): (q: QuarantinedJobFile)
    ensures AsJobFile(q) == jf && q.folder == folder
  {
    QuarantinedJobFile(jf.jobId, jf.path, folder)
  }

  /** Every JobFile of a listing, linked to the folder */
  function LinkAll(folder: IdisQuarantineFolder, files: set<JobFile>): (r: set<QuarantinedJobFile>)
    ensures forall q :: q in r <==> q.folder == folder && AsJobFile(q) in files
  {
    set jf | jf in files :: ToQuarantineJobFile(folder, jf)
  }

  /** Linking loses no file */
  lemma {:induction false} LinkAllCount(folder: IdisQuarantineFolder, files: set<JobFile>)
    ensures |LinkAll(folder, files)| == |files|
    decreases files
  {
    if files != {} {
      var jf :| jf in files;
      LinkAllCount(folder, files - {jf});
      assert LinkAll(folder, files) == LinkAll(folder, files - {jf}) + {ToQuarantineJobFile(folder, jf)};
    }
  }

  /** IDISQuarantineFolder.get_files: JobFolder.get_files, each file linked to the folder */
  function IdisGetFiles(fs: FileStore, folder: IdisQuarantineFolder, jobId: Option<int>): (r: Result<set<QuarantinedJobFile>, Error>)
    requires fs.Valid()
    reads fs
    ensures r.Ok? <==> GetFiles(fs, folder.path, jobId).Ok?
    ensures r.Err? ==> r.error == GetFiles(fs, folder.path, jobId).error
    ensures r.Ok? ==> forall q :: q in r.value <==> q.folder == folder && AsJobFile(q) in GetFiles(fs, folder.path, jobId).value
  {
    match GetFiles(fs, folder.path, jobId)
    case Err(e) => Err(e)
    case Ok(files) => Ok(LinkAll(folder, files))
  }

  /** The folder's get_file_count counts exactly what its get_files lists */
  lemma IdisFileCount(fs: FileStore, folder: IdisQuarantineFolder, jobId: Option<int>)
    requires fs.Valid()
    ensures IdisGetFiles(fs, folder, jobId).Ok? <==> GetFileCount(fs, folder.path, jobId).Ok?
    ensures IdisGetFiles(fs, folder, jobId).Ok? ==>
      |IdisGetFiles(fs, folder, jobId).value| == GetFileCount(fs, folder.path, jobId).value
  {
    FileCountIsSize(fs, folder.path, jobId);
    if GetFiles(fs, folder.path, jobId).Ok? {
      LinkAllCount(folder, GetFiles(fs, folder.path, jobId).value);
    }
  }

  /** The unknown-job files of one folder, each linked to it */
  function IdisUnknownJobFiles(fs: FileStore, folder: IdisQuarantineFolder): (r: Result<set<QuarantinedJobFile>, Error>)
    requires fs.Valid()
    reads fs
    ensures r.Ok? <==> GetUnknownJobFiles(fs, folder.path).Ok?
    ensures r.Err? ==> r.error == GetUnknownJobFiles(fs, folder.path).error
    ensures r.Ok? ==> forall q :: q in r.value <==> q.folder == folder && AsJobFile(q) in GetUnknownJobFiles(fs, folder.path).value
  {
    match GetUnknownJobFiles(fs, folder.path)
    case Err(e) => Err(e)
    case Ok(files) => Ok(LinkAll(folder, files))
  }

  // ---------------------------------------------------------------------
  // The mirror layout
  // ---------------------------------------------------------------------

  /** An IDISCTPQuarantine: its base folder and its two mappings, in insertion order */
  datatype Quarantine = Quarantine(
    base: Path,
    ctpMapping: seq<(CtpQuarantineFolder, IdisQuarantineFolder)>,
    archiveMapping: seq<(IdisQuarantineFolder, IdisQuarantineFolder)>)

  function ActiveBase(base: Path): Path
  {
    base + ["active"]
  }

  function ArchivedBase(base: Path): Path
  {
    base + ["archived"]
  }

  /** create_ctp_folder_mapping: each CTP folder to a mirror of the same name under the active base */
  function CreateCtpFolderMapping(activeBase: Path, ctps: seq<CtpQuarantineFolder>)
    : (m: seq<(CtpQuarantineFolder, IdisQuarantineFolder)>)
    ensures |m| == |ctps|
    ensures forall i :: 0 <= i < |m| ==> m[i].0 == ctps[i] && IsPrefix(activeBase, m[i].1.path)
  {
    seq(|ctps|, i requires 0 <= i < |ctps| =>
      (ctps[i], IdisQuarantineFolder(Join(activeBase, FileName(ctps[i].path)), ctps[i].description)))
  }

  /** create_archive_mapping: each active mirror to a folder of the same name under the archive base */
  function CreateArchiveMapping(archivedBase: Path, actives: seq<IdisQuarantineFolder>)
    : (m: seq<(IdisQuarantineFolder, IdisQuarantineFolder)>)
    ensures |m| == |actives|
    ensures forall i :: 0 <= i < |m| ==> m[i].0 == actives[i] && IsPrefix(archivedBase, m[i].1.path)
  {
    seq(|actives|, i requires 0 <= i < |actives| =>
      (actives[i], IdisQuarantineFolder(Join(archivedBase, FileName(actives[i].path)), "Archive for " + actives[i].description)))
  }

  /** The active mirrors, in mapping order */
  function Mirrors(q: Quarantine): (ms: seq<IdisQuarantineFolder>)
    ensures |ms| == |q.ctpMapping|
  {
    seq(|q.ctpMapping|, i requires 0 <= i < |q.ctpMapping| => q.ctpMapping[i].1)
  }

  /**
   * What the constructor guarantees: the active mirrors lie under base/active,
   * the archives under base/archived, and the archive mapping starts from the
   * active mirrors in the same order.
   */
  ghost predicate WellFormed(q: Quarantine)
  {
    && |q.archiveMapping| == |q.ctpMapping|
    && (forall i :: 0 <= i < |q.ctpMapping| ==> IsPrefix(ActiveBase(q.base), q.ctpMapping[i].1.path))
    && (forall i :: 0 <= i < |q.archiveMapping| ==>
          q.archiveMapping[i].0 == q.ctpMapping[i].1 && IsPrefix(ArchivedBase(q.base), q.archiveMapping[i].1.path))
  }

  /** IDISCTPQuarantine's constructor */
  function NewQuarantine(base: Path, ctps: seq<CtpQuarantineFolder>): (q: Quarantine)
    ensures q.base == base && |q.ctpMapping| == |ctps| && WellFormed(q)
  {
    var ctpMapping := CreateCtpFolderMapping(ActiveBase(base), ctps);
    var actives := seq(|ctpMapping|, i requires 0 <= i < |ctpMapping| => ctpMapping[i].1);
    Quarantine(base, ctpMapping, CreateArchiveMapping(ArchivedBase(base), actives))
  }

  /**
   * A CTP folder named N is mirrored by base/active/N, with the CTP folder's
   * description, and archived to base/archived/N, described as the archive
   * for the mirror.
   */
  lemma MirrorLayout(base: Path, ctps: seq<CtpQuarantineFolder>, i: nat)
    requires i < |ctps| && ctps[i].path != []
    ensures var q := NewQuarantine(base, ctps);
      && q.ctpMapping[i].0 == ctps[i]
      && q.ctpMapping[i].1 == IdisQuarantineFolder(base + ["active", FileName(ctps[i].path)], ctps[i].description)
      && q.archiveMapping[i].0 == q.ctpMapping[i].1
      && q.archiveMapping[i].1 == IdisQuarantineFolder(base + ["archived", FileName(ctps[i].path)],
                                                       "Archive for " + ctps[i].description)
  {
    var name := FileName(ctps[i].path);
    assert FileName(base + ["active", name]) == name;
  }

  // ---------------------------------------------------------------------
  // Queries over all active mirrors
  // ---------------------------------------------------------------------

  /**
   * get_files over the mirrors `ms`: each mirror's files in turn, the first
   * exception stopping the walk
   */
  function AllFiles(fs: FileStore, ms: seq<IdisQuarantineFolder>, jobId: Option<int>)
    : Result<multiset<QuarantinedJobFile>, Error>
    requires fs.Valid()
    reads fs
    decreases |ms|
  {
    if ms == [] then Ok(multiset{})
    else match IdisGetFiles(fs, ms[0], jobId)
      case Err(e) => Err(e)
      case Ok(here) =>
        match AllFiles(fs, ms[1..], jobId)
        case Err(e) => Err(e)
        case Ok(rest) => Ok(multiset(here) + rest)
  }

  /** get_file_count over the mirrors `ms`: the sum of their counts */
  function AllFileCount(fs: FileStore, ms: seq<IdisQuarantineFolder>, jobId: Option<int>): Result<nat, Error>
    requires fs.Valid()
    reads fs
    decreases |ms|
  {
    if ms == [] then Ok(0)
    else match GetFileCount(fs, ms[0].path, jobId)
      case Err(e) => Err(e)
      case Ok(here) =>
        match AllFileCount(fs, ms[1..], jobId)
        case Err(e) => Err(e)
        case Ok(rest) => Ok(here + rest)
  }

  /** get_unknown_job_files over the mirrors `ms` */
  function AllUnknownFiles(fs: FileStore, ms: seq<IdisQuarantineFolder>): Result<multiset<QuarantinedJobFile>, Error>
    requires fs.Valid()
    reads fs
    decreases |ms|
  {
    if ms == [] then Ok(multiset{})
    else match IdisUnknownJobFiles(fs, ms[0])
      case Err(e) => Err(e)
      case Ok(here) =>
        match AllUnknownFiles(fs, ms[1..])
        case Err(e) => Err(e)
        case Ok(rest) => Ok(multiset(here) + rest)
  }

  /** The job ids one mirror lists, as JobFolder.get_job_ids finds them */
  function MirrorJobIds(fs: FileStore, m: IdisQuarantineFolder): Result<set<int>, Error>
    reads fs
  {
    if !fs.Exists(m.path) then Ok({})
    else if fs.IsFile(m.path) then Err(Os(NotADirectory(m.path)))
    else Ok(JobIdSet(fs, m.path))
  }

  /** get_job_ids over the mirrors `ms`: the union of their ids */
  function AllJobIds(fs: FileStore, ms: seq<IdisQuarantineFolder>): Result<set<int>, Error>
    reads fs
    decreases |ms|
  {
    if ms == [] then Ok({})
    else match MirrorJobIds(fs, ms[0])
      case Err(e) => Err(e)
      case Ok(here) =>
        match AllJobIds(fs, ms[1..])
        case Err(e) => Err(e)
        case Ok(rest) => Ok(here + rest)
  }

  /** What a query answers when `acc` was gathered before the rest of the walk answered `rest` */
  function AfterFiles(acc: multiset<QuarantinedJobFile>, rest: Result<multiset<QuarantinedJobFile>, Error>)
    : Result<multiset<QuarantinedJobFile>, Error>
  {
    match rest
    case Err(e) => Err(e)
    case Ok(more) => Ok(acc + more)
  }

  function AfterCount(acc: nat, rest: Result<nat, Error>): Result<nat, Error>
  {
    match rest
    case Err(e) => Err(e)
    case Ok(more) => Ok(acc + more)
  }

  function AfterIds(acc: set<int>, rest: Result<set<int>, Error>): Result<set<int>, Error>
  {
    match rest
    case Err(e) => Err(e)
    case Ok(more) => Ok(acc + more)
  }

  lemma NothingGatheredYet(rest: Result<multiset<QuarantinedJobFile>, Error>)
    ensures AfterFiles(multiset{}, rest) == rest
  {
    if rest.Ok? {
      assert multiset{} + rest.value == rest.value;
    }
  }

  lemma NothingCountedYet(rest: Result<nat, Error>)
    ensures AfterCount(0, rest) == rest
  {
  }

  /** One mirror further along the walk of get_files */
  lemma FilesStep(fs: FileStore, ms: seq<IdisQuarantineFolder>, jobId: Option<int>, i: nat,
                  acc: multiset<QuarantinedJobFile>, found: Result<set<QuarantinedJobFile>, Error>)
    requires fs.Valid() && i < |ms| && found == IdisGetFiles(fs, ms[i], jobId)
    ensures found.Err? ==> AfterFiles(acc, AllFiles(fs, ms[i..], jobId)) == Err(found.error)
    ensures found.Ok? ==> AfterFiles(acc, AllFiles(fs, ms[i..], jobId))
                          == AfterFiles(acc + multiset(found.value), AllFiles(fs, ms[i + 1..], jobId))
  {
    assert ms[i..][0] == ms[i] && ms[i..][1..] == ms[i + 1..];
    var rest := AllFiles(fs, ms[i + 1..], jobId);
    if found.Ok? && rest.Ok? {
      assert acc + (multiset(found.value) + rest.value) == (acc + multiset(found.value)) + rest.value;
    }
  }

  /** One mirror further along the walk of get_file_count */
  lemma CountStep(fs: FileStore, ms: seq<IdisQuarantineFolder>, jobId: Option<int>, i: nat,
                  acc: nat, found: Result<nat, Error>)
    requires fs.Valid() && i < |ms| && found == GetFileCount(fs, ms[i].path, jobId)
    ensures found.Err? ==> AfterCount(acc, AllFileCount(fs, ms[i..], jobId)) == Err(found.error)
    ensures found.Ok? ==> AfterCount(acc, AllFileCount(fs, ms[i..], jobId))
                          == AfterCount(acc + found.value, AllFileCount(fs, ms[i + 1..], jobId))
  {
    assert ms[i..][0] == ms[i] && ms[i..][1..] == ms[i + 1..];
  }

  /** One mirror further along the walk of get_unknown_job_files */
  lemma UnknownStep(fs: FileStore, ms: seq<IdisQuarantineFolder>, i: nat,
                    acc: multiset<QuarantinedJobFile>, found: Result<set<JobFile>, Error>)
    requires fs.Valid() && i < |ms| && found == GetUnknownJobFiles(fs, ms[i].path)
    ensures found.Err? ==> AfterFiles(acc, AllUnknownFiles(fs, ms[i..])) == Err(found.error)
    ensures found.Ok? ==> AfterFiles(acc, AllUnknownFiles(fs, ms[i..]))
                          == AfterFiles(acc + multiset(LinkAll(ms[i], found.value)), AllUnknownFiles(fs, ms[i + 1..]))
  {
    assert ms[i..][0] == ms[i] && ms[i..][1..] == ms[i + 1..];
    var here := IdisUnknownJobFiles(fs, ms[i]);
    var rest := AllUnknownFiles(fs, ms[i + 1..]);
    if here.Ok? && rest.Ok? {
      assert acc + (multiset(here.value) + rest.value) == (acc + multiset(here.value)) + rest.value;
    }
  }

  /** One mirror further along the walk of get_job_ids */
  lemma IdsStep(fs: FileStore, ms: seq<IdisQuarantineFolder>, i: nat, acc: set<int>, found: Result<set<int>, Error>)
    requires i < |ms| && found == MirrorJobIds(fs, ms[i])
    ensures found.Err? ==> AfterIds(acc, AllJobIds(fs, ms[i..])) == Err(found.error)
    ensures found.Ok? ==> AfterIds(acc, AllJobIds(fs, ms[i..])) == AfterIds(acc + found.value, AllJobIds(fs, ms[i + 1..]))
  {
    assert ms[i..][0] == ms[i] && ms[i..][1..] == ms[i + 1..];
    var rest := AllJobIds(fs, ms[i + 1..]);
    if found.Ok? && rest.Ok? {
      assert acc + (found.value + rest.value) == (acc + found.value) + rest.value;
    }
  }

  /** IDISCTPQuarantine.get_files: the mirrors' files for the job, in mirror order */
  method QuarantineGetFiles(fs: FileStore, q: Quarantine, jobId: Option<int>)
    returns (r: Result<multiset<QuarantinedJobFile>, Error>)
    requires fs.Valid()
    ensures r == AllFiles(fs, Mirrors(q), jobId)
  {
    var ms := Mirrors(q);
    var files: multiset<QuarantinedJobFile> := multiset{};
    var i := 0;
    assert ms[i..] == ms;
    NothingGatheredYet(AllFiles(fs, ms, jobId));
    while i < |ms|
      invariant i <= |ms|
      invariant AllFiles(fs, ms, jobId) == AfterFiles(files, AllFiles(fs, ms[i..], jobId))
    {
      var found := IdisGetFiles(fs, ms[i], jobId);
      FilesStep(fs, ms, jobId, i, files, found);
      if found.Err? {
        return Err(found.error);
      }
      files := files + multiset(found.value);
      i := i + 1;
    }
    assert ms[i..] == [] && files + multiset{} == files;
    return Ok(files);
  }

  /** IDISCTPQuarantine.get_file_count: the sum of the mirrors' counts */
  method QuarantineGetFileCount(fs: FileStore, q: Quarantine, jobId: Option<int>) returns (r: Result<nat, Error>)
    requires fs.Valid()
    ensures r == AllFileCount(fs, Mirrors(q), jobId)
  {
    var ms := Mirrors(q);
    ghost var total := AllFileCount(fs, ms, jobId);
    var count: nat := 0;
    var i := 0;
    assert ms[i..] == ms;
    NothingCountedYet(total);
    while i < |ms|
      invariant i <= |ms|
      invariant total == AfterCount(count, AllFileCount(fs, ms[i..], jobId))
    {
      var found := GetFileCount(fs, ms[i].path, jobId);
      CountStep(fs, ms, jobId, i, count, found);
      if found.Err? {
        return Err(found.error);
      }
      assert total == AfterCount(count + found.value, AllFileCount(fs, ms[i + 1..], jobId));
      count := count + found.value;
      i := i + 1;
    }
    assert ms[i..] == [];
    return Ok(count);
  }

  /** IDISCTPQuarantine.get_unknown_job_files: every mirror's UNKNOWN files, linked to the mirror */
  method QuarantineGetUnknownJobFiles(fs: FileStore, q: Quarantine) returns (r: Result<multiset<QuarantinedJobFile>, Error>)
    requires fs.Valid()
    ensures r == AllUnknownFiles(fs, Mirrors(q))
  {
    var ms := Mirrors(q);
    var files: multiset<QuarantinedJobFile> := multiset{};
    var i := 0;
    assert ms[i..] == ms;
    NothingGatheredYet(AllUnknownFiles(fs, ms));
    while i < |ms|
      invariant i <= |ms|
      invariant AllUnknownFiles(fs, ms) == AfterFiles(files, AllUnknownFiles(fs, ms[i..]))
    {
      var found := GetUnknownJobFiles(fs, ms[i].path);
      UnknownStep(fs, ms, i, files, found);
      if found.Err? {
        return Err(found.error);
      }
      files := files + multiset(LinkAll(ms[i], found.value));
      i := i + 1;
    }
    assert ms[i..] == [] && files + multiset{} == files;
    return Ok(files);
  }

  /** IDISCTPQuarantine.get_job_ids: every id any mirror lists, each once */
  method QuarantineGetJobIds(fs: FileStore, q: Quarantine) returns (r: Result<set<int>, Error>)
    requires fs.Valid()
    ensures r == AllJobIds(fs, Mirrors(q))
  {
    var ms := Mirrors(q);
    var ids: set<int> := {};
    var i := 0;
    assert ms[i..] == ms;
    assert AfterIds({}, AllJobIds(fs, ms)) == AllJobIds(fs, ms) by {
      if AllJobIds(fs, ms).Ok? {
        assert {} + AllJobIds(fs, ms).value == AllJobIds(fs, ms).value;
      }
    }
    while i < |ms|
      invariant i <= |ms|
      invariant AllJobIds(fs, ms) == AfterIds(ids, AllJobIds(fs, ms[i..]))
    {
      var found := GetJobIds(fs, ms[i].path);
      if found.Err? {
        IdsStep(fs, ms, i, ids, MirrorJobIds(fs, ms[i]));
        return Err(found.error);
      }
      var here := set id | id in found.value;
      if fs.Exists(ms[i].path) {
        assert forall id :: id in here <==> id in found.value;
        assert forall id :: id in found.value <==> id in JobIdSet(fs, ms[i].path);
        assert here == JobIdSet(fs, ms[i].path);
      } else {
        assert here == {};
      }
      IdsStep(fs, ms, i, ids, Ok(here));
      ids := ids + here;
      i := i + 1;
    }
    assert ms[i..] == [] && ids + {} == ids;
    return Ok(ids);
  }

  // ---------------------------------------------------------------------
  // What the queries answer
  // ---------------------------------------------------------------------

  /**
   * get_files lists, for each mirror, exactly the regular files in the job's
   * directory there, each with the job id and linked to that mirror
   */
  lemma {:induction false} AllFilesMembers(fs: FileStore, ms: seq<IdisQuarantineFolder>, jobId: Option<int>)
    requires fs.Valid() && AllFiles(fs, ms, jobId).Ok?
    ensures forall x :: x in AllFiles(fs, ms, jobId).value ==>
      x.folder in ms && x.jobId == jobId && x.path in fs.files && Parent(x.path) == PathForJob(x.folder.path, jobId)
    ensures forall m, f: FilePath :: m in ms && f in fs.files && Parent(f) == PathForJob(m.path, jobId) ==>
      QuarantinedJobFile(jobId, f, m) in AllFiles(fs, ms, jobId).value
    decreases |ms|
  {
    if ms != [] {
      AllFilesMembers(fs, ms[1..], jobId);
      forall m, f: FilePath | m in ms && f in fs.files && Parent(f) == PathForJob(m.path, jobId)
        ensures QuarantinedJobFile(jobId, f, m) in AllFiles(fs, ms, jobId).value
      {
        if m != ms[0] {
          assert m in ms[1..];
        }
      }
    }
  }

  /**
   * Where no mirror has a file at or in the job's directory (an unknown job,
   * or one archived), get_files is empty and get_file_count is 0
   */
  lemma {:induction false} NoFilesForJob(fs: FileStore, ms: seq<IdisQuarantineFolder>, jobId: Option<int>)
    requires fs.Valid()
    requires forall m :: m in ms ==>
      PathForJob(m.path, jobId) !in fs.files && fs.FilesIn(PathForJob(m.path, jobId)) == {}
    ensures AllFiles(fs, ms, jobId) == Ok(multiset{})
    ensures AllFileCount(fs, ms, jobId) == Ok(0)
    decreases |ms|
  {
    if ms != [] {
      assert forall m :: m in ms[1..] ==> m in ms;
      NoFilesForJob(fs, ms[1..], jobId);
      assert ms[0] in ms;
      var jobDir := PathForJob(ms[0].path, jobId);
      assert fs.FilesIn(jobDir) == {};
      assert GetFiles(fs, ms[0].path, jobId).Ok?;
      var linked := IdisGetFiles(fs, ms[0], jobId).value;
      assert linked == {};
      assert multiset(linked) + multiset{} == multiset{};
      FileCountIsSize(fs, ms[0].path, jobId);
    }
  }

  /** get_file_count counts exactly what get_files lists, and fails exactly when it fails */
  lemma {:induction false} CountIsSize(fs: FileStore, ms: seq<IdisQuarantineFolder>, jobId: Option<int>)
    requires fs.Valid()
    ensures AllFileCount(fs, ms, jobId).Ok? <==> AllFiles(fs, ms, jobId).Ok?
    ensures AllFileCount(fs, ms, jobId).Ok? ==> AllFileCount(fs, ms, jobId).value == |AllFiles(fs, ms, jobId).value|
    decreases |ms|
  {
    if ms != [] {
      CountIsSize(fs, ms[1..], jobId);
      IdisFileCount(fs, ms[0], jobId);
    }
  }

  /** get_unknown_job_files lists, for each mirror, exactly the files in its UNKNOWN directory, with no job */
  lemma {:induction false} AllUnknownMembers(fs: FileStore, ms: seq<IdisQuarantineFolder>)
    requires fs.Valid() && AllUnknownFiles(fs, ms).Ok?
    ensures forall x :: x in AllUnknownFiles(fs, ms).value ==>
      x.folder in ms && x.jobId == None && x.path in fs.files && Parent(x.path) == x.folder.path + [UnknownJobFolderName]
    ensures forall m, f: FilePath :: m in ms && f in fs.files && Parent(f) == m.path + [UnknownJobFolderName] ==>
      QuarantinedJobFile(None, f, m) in AllUnknownFiles(fs, ms).value
    decreases |ms|
  {
    if ms != [] {
      AllUnknownMembers(fs, ms[1..]);
      forall m, f: FilePath | m in ms && f in fs.files && Parent(f) == m.path + [UnknownJobFolderName]
        ensures QuarantinedJobFile(None, f, m) in AllUnknownFiles(fs, ms).value
      {
        if m != ms[0] {
          assert m in ms[1..];
        }
      }
    }
  }

  /** get_job_ids is the union of the ids the mirrors' directories spell */
  lemma {:induction false} AllJobIdsMembers(fs: FileStore, ms: seq<IdisQuarantineFolder>)
    requires fs.Valid() && AllJobIds(fs, ms).Ok?
    ensures forall id :: id in AllJobIds(fs, ms).value <==> exists m :: m in ms && id in JobIdSet(fs, m.path)
    decreases |ms|
  {
    if ms != [] {
      AllJobIdsMembers(fs, ms[1..]);
      assert !fs.Exists(ms[0].path) ==> fs.SubdirsIn(ms[0].path) == {};
      forall id | id in AllJobIds(fs, ms).value
        ensures exists m :: m in ms && id in JobIdSet(fs, m.path)
      {
        if id !in JobIdSet(fs, ms[0].path) {
          var m :| m in ms[1..] && id in JobIdSet(fs, m.path);
          assert m in ms;
        }
      }
      forall id | exists m :: m in ms && id in JobIdSet(fs, m.path)
        ensures id in AllJobIds(fs, ms).value
      {
        var m :| m in ms && id in JobIdSet(fs, m.path);
        if m != ms[0] {
          assert m in ms[1..];
        }
      }
    }
  }

  /**
   * A job whose directory no mirror has any more is not among get_job_ids,
   * provided the mirrors' numeric directory names are the ones `str` gives
   */
  lemma {:induction false} GoneJobIsNotListedAnywhere(fs: FileStore, ms: seq<IdisQuarantineFolder>, jobId: int)
    requires fs.Valid() && jobId != 0
    requires forall m :: m in ms ==> !fs.IsDir(PathForJob(m.path, Some(jobId)))
    requires forall m, d :: m in ms && d in NumericSubdirs(fs, m.path) ==> IsCanonical(FileName(d))
    ensures AllJobIds(fs, ms).Ok? ==> jobId !in AllJobIds(fs, ms).value
    decreases |ms|
  {
    if ms != [] {
      assert forall m :: m in ms[1..] ==> m in ms;
      GoneJobIsNotListedAnywhere(fs, ms[1..], jobId);
      GoneJobIsNotListed(fs, ms[0].path, jobId);
    }
  }

  // ---------------------------------------------------------------------
  // scrape
  // ---------------------------------------------------------------------

  /** The paths of the CTP folders a quarantine scrapes */
  function CtpPaths(q: Quarantine): set<Path>
  {
    CtpPathsBefore(q, |q.ctpMapping|)
  }

  /** The paths of the first `n` CTP folders */
  function CtpPathsBefore(q: Quarantine, n: nat): set<Path>
    requires n <= |q.ctpMapping|
  {
    set k | 0 <= k < n :: q.ctpMapping[k].0.path
  }

  lemma CtpPathsBeforeStep(q: Quarantine, n: nat)
    requires n < |q.ctpMapping|
    ensures CtpPathsBefore(q, n + 1) == CtpPathsBefore(q, n) + {q.ctpMapping[n].0.path}
    ensures CtpPathsBefore(q, n + 1) <= CtpPaths(q)
  {
    assert CtpPathsBefore(q, n + 1) == CtpPathsBefore(q, n) + {q.ctpMapping[n].0.path};
  }

  /** The paths of its active mirrors */
  function MirrorPaths(q: Quarantine): (r: set<Path>)
    ensures forall i :: 0 <= i < |q.ctpMapping| ==> q.ctpMapping[i].1.path in r
  {
    set i | 0 <= i < |q.ctpMapping| :: q.ctpMapping[i].1.path
  }

  /** Each CTP folder with the mirror scrape sorts its files into */
  function ScrapePairs(q: Quarantine): set<(Path, Path)>
  {
    set k | 0 <= k < |q.ctpMapping| :: (q.ctpMapping[k].0.path, q.ctpMapping[k].1.path)
  }

  /**
   * The mirrors of the CTP folders that sit directly in a mirror, as one of
   * its job directories: files sorted there are scraped once more
   */
  function RescrapedMirrors(q: Quarantine): set<Path>
  {
    set k | 0 <= k < |q.ctpMapping| && Parent(q.ctpMapping[k].0.path) in MirrorPaths(q) :: q.ctpMapping[k].1.path
  }

  /** The mirror of a pair is a mirror */
  lemma ScrapePairMirror(q: Quarantine, c: Path, m: Path)
    requires (c, m) in ScrapePairs(q)
    ensures m in MirrorPaths(q)
  {
    var k :| 0 <= k < |q.ctpMapping| && (c, m) == (q.ctpMapping[k].0.path, q.ctpMapping[k].1.path);
  }

  /** A mirror scraped once more is a mirror */
  lemma RescrapedIsMirror(q: Quarantine, m: Path)
    requires m in RescrapedMirrors(q)
    ensures m in MirrorPaths(q)
  {
    var k :| 0 <= k < |q.ctpMapping| && Parent(q.ctpMapping[k].0.path) in MirrorPaths(q) && m == q.ctpMapping[k].1.path;
  }

  /**
   * The file found at `f`, holding `c`, now sits at `p`: in the directory a
   * mirror keeps for the job `c` names, that mirror being paired in `pairs`
   * with f's own CTP folder, or among the mirrors `rescraped` whose CTP
   * folder was scraped once more
   */
  ghost predicate SortedFrom(pairs: set<(Path, Path)>, rescraped: set<Path>, f: Path, p: Path, c: Content)
  {
    && p != []
    && Parent(p) == PathForJob(Parent(Parent(p)), JobIdOf(c))
    && ((Parent(f), Parent(Parent(p))) in pairs || Parent(Parent(p)) in rescraped)
  }

  /**
   * Where scrape stands once the CTP folders `done` were handled: `moved`
   * sends original files of those folders to distinct paths, each sorted
   * from where it was found and holding its own content; every other file
   * stays as it was, and no file appears from nowhere
   */
  ghost predicate ScrapeMoves(pairs: set<(Path, Path)>, rescraped: set<Path>, before: map<Path, Content>,
                              current: map<Path, Content>, moved: map<Path, Path>, done: set<Path>)
  {
    && moved.Keys <= before.Keys
    && AllSortedFrom(pairs, rescraped, before, moved, done)
    && Distinct(moved)
    && moved.Values * before.Keys <= moved.Keys
    && MovedContents(before, current, moved)
  }

  /** Every file in `moved` was found in one of the folders `done` and sorted from there */
  ghost predicate AllSortedFrom(pairs: set<(Path, Path)>, rescraped: set<Path>, before: map<Path, Content>,
                                moved: map<Path, Path>, done: set<Path>)
  {
    forall f :: f in moved && f in before ==> Parent(f) in done && SortedFrom(pairs, rescraped, f, moved[f], before[f])
  }

  /** Distinct files moved to distinct paths */
  ghost predicate Distinct(moved: map<Path, Path>)
  {
    forall f, g :: f in moved && g in moved && f != g ==> moved[f] != moved[g]
  }

  /** Sending one more file, found in a folder of `done`, to a sorted place keeps every file sorted */
  lemma AllSortedFromStep(pairs: set<(Path, Path)>, rescraped: set<Path>, before: map<Path, Content>,
                          moved: map<Path, Path>, done: set<Path>, k: Path, dst: Path)
    requires AllSortedFrom(pairs, rescraped, before, moved, done)
    requires k in before && Parent(k) in done && SortedFrom(pairs, rescraped, k, dst, before[k])
    ensures AllSortedFrom(pairs, rescraped, before, moved[k := dst], done)
  {
    forall f | f in moved[k := dst] && f in before
      ensures Parent(f) in done && SortedFrom(pairs, rescraped, f, moved[k := dst][f], before[f])
    {
      if f != k {
        assert moved[k := dst][f] == moved[f];
      }
    }
  }

  /** Sending a file to a path no other file went to keeps the moves distinct */
  lemma DistinctStep(moved: map<Path, Path>, k: Path, dst: Path)
    requires Distinct(moved) && forall f :: f in moved && f != k ==> moved[f] != dst
    ensures Distinct(moved[k := dst])
  {
  }

  /** Every original file of the folders `done` was moved */
  ghost predicate MovedAllOf(before: map<Path, Content>, moved: map<Path, Path>, done: set<Path>)
  {
    forall f :: f in before && Parent(f) in done ==> f in moved
  }

  /** Moves from some folders are moves from any more of them */
  lemma ScrapeMovesWithin(pairs: set<(Path, Path)>, rescraped: set<Path>, before: map<Path, Content>,
                          current: map<Path, Content>, moved: map<Path, Path>, done: set<Path>, all: set<Path>)
    requires ScrapeMoves(pairs, rescraped, before, current, moved, done) && done <= all
    ensures ScrapeMoves(pairs, rescraped, before, current, moved, all)
  {
  }

  /** A path no file holds now held no file at the start, or its file moved */
  lemma VacantWasMoved(before: map<Path, Content>, current: map<Path, Content>, moved: map<Path, Path>, p: Path)
    requires moved.Keys <= before.Keys && MovedContents(before, current, moved) && p !in current
    ensures p in before ==> p in moved
  {
  }

  /** Sorting an original file of a handled CTP folder into that folder's mirror extends the moves */
  lemma ScrapeOriginalStep(pairs: set<(Path, Path)>, rescraped: set<Path>, before: map<Path, Content>,
                           current: map<Path, Content>, moved: map<Path, Path>, done: set<Path>,
                           src: Path, dst: FilePath, mirror: Path)
    requires ScrapeMoves(pairs, rescraped, before, current, moved, done)
    requires src in before && src in current && src !in moved && Parent(src) in done && (Parent(src), mirror) in pairs
    requires dst !in current && Parent(dst) == PathForJob(mirror, JobIdOf(current[src]))
    ensures ScrapeMoves(pairs, rescraped, before, (current - {src})[dst := current[src]], moved[src := dst], done)
  {
    var moved' := moved[src := dst];
    var next := (current - {src})[dst := current[src]];
    assert SortedFrom(pairs, rescraped, src, dst, before[src]) by {
      assert current[src] == before[src];
      PathForJobLayout(mirror, JobIdOf(current[src]));
    }
    AllSortedFromStep(pairs, rescraped, before, moved, done, src, dst);
    forall f | f in moved
      ensures moved[f] != src && moved[f] != dst
    {
      assert moved[f] in current;
    }
    DistinctStep(moved, src, dst);
    NewKeyValues(moved, src, dst);
    assert moved'.Values * before.Keys <= moved'.Keys by {
      VacantWasMoved(before, current, moved, dst);
    }
    MovedContentsStep(before, current, moved, src, dst);
  }

  /** The values of a map that sends distinct keys to distinct values, after one key gets a new value */
  lemma ReplacedValues(m: map<Path, Path>, g: Path, v: Path)
    requires g in m && forall f :: f in m && f != g ==> m[f] != m[g]
    ensures m[g := v].Values == m.Values - {m[g]} + {v}
  {
    var m' := m[g := v];
    forall x | x in m'.Values
      ensures x in m.Values - {m[g]} + {v}
    {
      var f :| f in m' && m'[f] == x;
      if f != g {
        assert m[f] == x;
      }
    }
    forall x | x in m.Values - {m[g]} + {v}
      ensures x in m'.Values
    {
      if x != v {
        var f :| f in m && m[f] == x;
        assert f != g && m'[f] == x;
      } else {
        assert m'[g] == x;
      }
    }
  }

  /** What a file moved on holds: its original content in its new place, the rest as it was */
  lemma MovedOnContents(before: map<Path, Content>, current: map<Path, Content>, moved: map<Path, Path>,
                        g: Path, dst: Path)
    requires moved.Keys <= before.Keys && MovedContents(before, current, moved)
    requires Distinct(moved)
    requires moved.Values * before.Keys <= moved.Keys
    requires g in moved && moved[g] in current && dst !in current
    ensures MovedContents(before, (current - {moved[g]})[dst := current[moved[g]]], moved[g := dst])
  {
    var src := moved[g];
    var next := (current - {src})[dst := current[src]];
    var moved' := moved[g := dst];
    ReplacedValues(moved, g, dst);
    forall f | f in moved'
      ensures moved'[f] in next && next[moved'[f]] == before[f]
    {
      if f != g {
        assert moved'[f] == moved[f] && moved[f] in current && moved[f] != src;
      }
    }
    forall p | p in before && p !in moved'
      ensures p in next && next[p] == before[p]
    {
      assert p in current && p != src && p != dst;
    }
    assert next.Keys <= (current.Keys - {src}) + {dst};
  }

  /**
   * Sorting once more a file that was sorted into a job directory which is
   * itself a CTP folder moves it on to that folder's mirror
   */
  lemma ScrapeAgainStep(pairs: set<(Path, Path)>, rescraped: set<Path>, before: map<Path, Content>,
                        current: map<Path, Content>, moved: map<Path, Path>, done: set<Path>,
                        g: Path, dst: FilePath, mirror: Path)
    requires ScrapeMoves(pairs, rescraped, before, current, moved, done)
    requires g in moved && moved[g] in current && mirror in rescraped
    requires dst !in current && Parent(dst) == PathForJob(mirror, JobIdOf(current[moved[g]]))
    ensures ScrapeMoves(pairs, rescraped, before, (current - {moved[g]})[dst := current[moved[g]]], moved[g := dst], done)
  {
    var moved' := moved[g := dst];
    assert SortedFrom(pairs, rescraped, g, dst, before[g]) by {
      assert current[moved[g]] == before[g];
      PathForJobLayout(mirror, JobIdOf(before[g]));
    }
    AllSortedFromStep(pairs, rescraped, before, moved, done, g, dst);
    forall f | f in moved && f != g
      ensures moved[f] != dst
    {
      assert moved[f] in current;
    }
    DistinctStep(moved, g, dst);
    assert moved'.Values * before.Keys <= moved'.Keys by {
      VacantWasMoved(before, current, moved, dst);
      ReplacedValues(moved, g, dst);
    }
    MovedOnContents(before, current, moved, g, dst);
  }

  /**
   * A file sorted into a job directory of a mirror that is itself a CTP
   * folder is moved on to a mirror scraped once more
   */
  lemma MovedOnIsRescraped(q: Quarantine, f: Path, p: Path, c: Content, mirror: Path)
    requires SortedFrom(ScrapePairs(q), RescrapedMirrors(q), f, p, c)
    requires (Parent(p), mirror) in ScrapePairs(q)
    ensures mirror in RescrapedMirrors(q)
  {
    var previous := Parent(Parent(p));
    if (Parent(f), previous) in ScrapePairs(q) {
      ScrapePairMirror(q, Parent(f), previous);
    } else {
      RescrapedIsMirror(q, previous);
    }
    var k :| 0 <= k < |q.ctpMapping| && (Parent(p), mirror) == (q.ctpMapping[k].0.path, q.ctpMapping[k].1.path);
  }

  /** The paths of the job files from index `n` on */
  function Pending(jobFiles: seq<JobFile>, n: nat): set<Path>
  {
    set k | n <= k < |jobFiles| :: jobFiles[k].path
  }

  /**
   * Where the inner loop of scrape stands in `folder`: the job files from
   * index `n` on are still in the folder, as they were read, and every
   * original file of the folders handled is moved or among them
   */
  ghost predicate ScrapingFolder(before: map<Path, Content>, current: map<Path, Content>, moved: map<Path, Path>,
                                 done: set<Path>, jobFiles: seq<JobFile>, n: nat, folder: Path)
  {
    && n <= |jobFiles|
    && folder in done
    && (forall i, j :: 0 <= i < j < |jobFiles| ==> jobFiles[i].path != jobFiles[j].path)
    && (forall k :: n <= k < |jobFiles| ==> ReadFrom(current, jobFiles[k]) && Parent(jobFiles[k].path) == folder)
    && (forall f :: f in before && Parent(f) in done ==> f in moved || f in Pending(jobFiles, n))
  }

  /** Starting on a folder whose every file was read */
  lemma StartScrapingFolder(before: map<Path, Content>, current: map<Path, Content>, moved: map<Path, Path>,
                            done: set<Path>, doneAfter: set<Path>, jobFiles: seq<JobFile>, folder: Path)
    requires moved.Keys <= before.Keys && MovedContents(before, current, moved) && MovedAllOf(before, moved, done)
    requires forall i, j :: 0 <= i < j < |jobFiles| ==> jobFiles[i].path != jobFiles[j].path
    requires forall k :: 0 <= k < |jobFiles| ==> ReadFrom(current, jobFiles[k]) && Parent(jobFiles[k].path) == folder
    requires [] !in current && doneAfter == done + {folder}
    requires forall p :: p in current && p != [] && Parent(p) == folder ==> p in PathsOf(jobFiles)
    ensures ScrapingFolder(before, current, moved, doneAfter, jobFiles, 0, folder)
  {
    assert Pending(jobFiles, 0) == PathsOf(jobFiles);
    forall f | f in before && Parent(f) in doneAfter && f !in moved
      ensures f in Pending(jobFiles, 0)
    {
      assert f in current;
    }
  }

  /** Moving the next job file of the folder keeps the inner loop's state */
  lemma ScrapeFolderStep(before: map<Path, Content>, current: map<Path, Content>, next: map<Path, Content>,
                         moved: map<Path, Path>, movedNext: map<Path, Path>,
                         done: set<Path>, jobFiles: seq<JobFile>, n: nat, folder: Path, dst: Path)
    requires ScrapingFolder(before, current, moved, done, jobFiles, n, folder) && n < |jobFiles|
    requires dst !in current && next == (current - {jobFiles[n].path})[dst := current[jobFiles[n].path]]
    requires moved.Keys <= movedNext.Keys && (jobFiles[n].path in before ==> jobFiles[n].path in movedNext)
    ensures ScrapingFolder(before, next, movedNext, done, jobFiles, n + 1, folder)
  {
    var src := jobFiles[n].path;
    PendingStep(jobFiles, n);
    forall k | n + 1 <= k < |jobFiles|
      ensures ReadFrom(next, jobFiles[k]) && Parent(jobFiles[k].path) == folder
    {
      assert ReadFrom(current, jobFiles[k]) && jobFiles[k].path != src && jobFiles[k].path != dst;
    }
    forall f | f in before && Parent(f) in done
      ensures f in movedNext || f in Pending(jobFiles, n + 1)
    {
      assert f in moved || f in Pending(jobFiles, n);
    }
  }

  /** The next job file leaves the pending ones, as no other has its path */
  lemma PendingStep(jobFiles: seq<JobFile>, n: nat)
    requires n < |jobFiles|
    requires forall i, j :: 0 <= i < j < |jobFiles| ==> jobFiles[i].path != jobFiles[j].path
    ensures Pending(jobFiles, n + 1) == Pending(jobFiles, n) - {jobFiles[n].path}
  {
    forall f | f in Pending(jobFiles, n) - {jobFiles[n].path}
      ensures f in Pending(jobFiles, n + 1)
    {
      var k :| n <= k < |jobFiles| && jobFiles[k].path == f;
    }
  }

  /** Every job file of the folder moved: every original file of the folders handled moved */
  lemma FinishScrapingFolder(before: map<Path, Content>, current: map<Path, Content>, moved: map<Path, Path>,
                             done: set<Path>, jobFiles: seq<JobFile>, folder: Path)
    requires ScrapingFolder(before, current, moved, done, jobFiles, |jobFiles|, folder)
    ensures MovedAllOf(before, moved, done)
  {
    assert Pending(jobFiles, |jobFiles|) == {};
  }

  /** No path of `ps` lies inside another */
  ghost predicate NoneInside(ps: set<Path>)
  {
    forall a, b :: a in ps && b in ps && IsPrefix(a, b) ==> a == b
  }

  /**
   * No regular file lies on the way to one of the `mirrors` or directly in
   * one, where it could stand in the place of a job directory
   */
  ghost predicate MirrorsClear(files: map<Path, Content>, mirrors: set<Path>)
  {
    forall p, m :: p in files && m in mirrors ==> !IsPrefix(p, m) && Parent(p) != m
  }

  /** The error `mkdir(parents=True)` raises when a regular file is in its way */
  predicate MakeDirsFailure(e: Error)
  {
    e.Os? && (e.os.FileExists? || e.os.NotADirectory?)
  }

  /** What lets every move of a scrape succeed */
  ghost predicate ScrapeClear(q: Quarantine, files: map<Path, Content>)
  {
    NoneInside(MirrorPaths(q)) && MirrorsClear(files, MirrorPaths(q))
  }

  /** Where no file stands in a mirror's way, nothing blocks that mirror's job directories */
  lemma ClearJobDir(files: map<Path, Content>, mirrors: set<Path>, m: Path, jobId: Option<int>)
    requires MirrorsClear(files, mirrors) && m in mirrors
    ensures !BlockedIn(files, PathForJob(m, jobId))
  {
    var t := PathForJob(m, jobId);
    PathForJobLayout(m, jobId);
    forall p | p in files
      ensures !IsPrefix(p, t)
    {
      assert !IsPrefix(p, m) && Parent(p) != m;
      if |p| < |t| {
        assert t[..|p|] == m[..|p|];
      }
    }
  }

  /** Before a scrape step that keeps clear, nothing blocks the job directory the step makes */
  lemma ScrapeClearJobDir(q: Quarantine, files: map<Path, Content>, c: Path, m: Path, jobId: Option<int>)
    requires (c, m) in ScrapePairs(q)
    ensures ScrapeClear(q, files) ==> !BlockedIn(files, PathForJob(m, jobId))
  {
    if ScrapeClear(q, files) {
      ScrapePairMirror(q, c, m);
      ClearJobDir(files, MirrorPaths(q), m, jobId);
    }
  }

  /** A file moved into a mirror's job directory stands in no mirror's way */
  lemma MirrorsClearStep(files: map<Path, Content>, mirrors: set<Path>, m0: Path, jobId: Option<int>,
                         src: Path, dst: FilePath, c: Content)
    requires NoneInside(mirrors) && MirrorsClear(files, mirrors) && m0 in mirrors
    requires Parent(dst) == PathForJob(m0, jobId)
    ensures MirrorsClear((files - {src})[dst := c], mirrors)
  {
    PathForJobLayout(m0, jobId);
    assert |dst| == |m0| + 2 && dst[..|m0|] == m0;
    forall m | m in mirrors
      ensures !IsPrefix(dst, m) && Parent(dst) != m
    {
      if |m| > |m0| {
        assert !IsPrefix(m0, m);
        if |dst| <= |m| {
          assert m[..|dst|][..|m0|] == m[..|m0|];
        }
        if |Parent(dst)| == |m| {
          assert Parent(dst)[..|m0|] == m0;
        }
      }
    }
  }

  /**
   * One pass of scrape's inner loop: move_job_file of the next job file of
   * `folder` into `mirror`. A file found there as it was is sorted from its
   * original path; one sorted into `folder` before is moved on. A failed move
   * changes no file.
   */
  method ScrapeJobFile(fs: FileStore, q: Quarantine, jobFiles: seq<JobFile>, n: nat, mirror: IdisQuarantineFolder,
                       ghost before: map<Path, Content>, ghost moved: map<Path, Path>, ghost done: set<Path>,
                       ghost folder: Path)
    returns (r: Result<(), Error>, ghost movedNext: map<Path, Path>)
    requires fs.Valid() && n < |jobFiles| && (folder, mirror.path) in ScrapePairs(q)
    requires ScrapeMoves(ScrapePairs(q), RescrapedMirrors(q), before, fs.files, moved, done)
    requires ScrapingFolder(before, fs.files, moved, done, jobFiles, n, folder)
    modifies fs
    ensures fs.Valid() && |fs.files| == |old(fs.files)|
    ensures r.Err? <==> old(fs.Blocked(PathForJob(mirror.path, jobFiles[n].jobId)))
    ensures r.Err? ==> r == Err(Os(MakeDirsError(old(fs.files), PathForJob(mirror.path, jobFiles[n].jobId))))
    ensures r.Err? ==> MakeDirsFailure(r.error)
    ensures r.Err? ==> fs.files == old(fs.files) && movedNext == moved
    ensures ScrapeMoves(ScrapePairs(q), RescrapedMirrors(q), before, fs.files, movedNext, done)
    ensures r.Ok? ==> ScrapingFolder(before, fs.files, movedNext, done, jobFiles, n + 1, folder)
    ensures ScrapeClear(q, old(fs.files)) ==> r.Ok? && ScrapeClear(q, fs.files)
  {
    ghost var current := fs.files;
    ghost var src := jobFiles[n].path;
    ScrapeClearJobDir(q, current, folder, mirror.path, jobFiles[n].jobId);
    assert ReadFrom(current, jobFiles[n]);
    ghost var dst;
    r, dst := MoveJobFile(fs, jobFiles[n], JobFolder(mirror.path));
    movedNext := moved;
    if r.Ok? {
      RenameKeepsCount(current, src, dst);
      if src in moved.Values {
        ghost var g :| g in moved && moved[g] == src;
        MovedOnIsRescraped(q, g, src, before[g], mirror.path);
        ScrapeAgainStep(ScrapePairs(q), RescrapedMirrors(q), before, current, moved, done, g, dst, mirror.path);
        movedNext := moved[g := dst];
      } else {
        ScrapeOriginalStep(ScrapePairs(q), RescrapedMirrors(q), before, current, moved, done, src, dst, mirror.path);
        movedNext := moved[src := dst];
      }
      ScrapeFolderStep(before, current, fs.files, moved, movedNext, done, jobFiles, n, folder, dst);
      if ScrapeClear(q, current) {
        ScrapePairMirror(q, folder, mirror.path);
        MirrorsClearStep(current, MirrorPaths(q), mirror.path, jobFiles[n].jobId, src, dst, current[src]);
      }
    }
  }

  /**
   * One pass of scrape's outer loop: move every file of the CTP folder `ctp`
   * into the directory `mirror` keeps for the file's job, stopping at the
   * first move that fails. `done` are the CTP folders scraped before, and
   * `doneAfter` adds this one.
   */
  method ScrapeFolder(fs: FileStore, q: Quarantine, ctp: CtpQuarantineFolder, mirror: IdisQuarantineFolder,
                      ghost before: map<Path, Content>, ghost moved: map<Path, Path>,
                      ghost done: set<Path>, ghost doneAfter: set<Path>)
    returns (r: Result<(), Error>, ghost movedAfter: map<Path, Path>)
    requires fs.Valid() && (ctp.path, mirror.path) in ScrapePairs(q) && doneAfter == done + {ctp.path}
    requires ScrapeMoves(ScrapePairs(q), RescrapedMirrors(q), before, fs.files, moved, done)
    requires MovedAllOf(before, moved, done)
    modifies fs
    ensures fs.Valid() && |fs.files| == |old(fs.files)|
    ensures ScrapeMoves(ScrapePairs(q), RescrapedMirrors(q), before, fs.files, movedAfter, doneAfter)
    ensures r.Ok? ==> MovedAllOf(before, movedAfter, doneAfter)
    ensures ScrapeClear(q, old(fs.files)) ==> r.Ok? && ScrapeClear(q, fs.files)
    ensures r.Err? ==> MakeDirsFailure(r.error)
  {
    ghost var start := fs.files;
    var jobFiles := GetJobFiles(fs, ctp);
    StartScrapingFolder(before, fs.files, moved, done, doneAfter, jobFiles, ctp.path);
    ScrapeMovesWithin(ScrapePairs(q), RescrapedMirrors(q), before, fs.files, moved, done, doneAfter);
    movedAfter := moved;
    var n := 0;
    while n < |jobFiles|
      invariant fs.Valid() && |fs.files| == |start|
      invariant ScrapeMoves(ScrapePairs(q), RescrapedMirrors(q), before, fs.files, movedAfter, doneAfter)
      invariant ScrapingFolder(before, fs.files, movedAfter, doneAfter, jobFiles, n, ctp.path)
      invariant ScrapeClear(q, start) ==> ScrapeClear(q, fs.files)
    {
      r, movedAfter := ScrapeJobFile(fs, q, jobFiles, n, mirror, before, movedAfter, doneAfter, ctp.path);
      if r.Err? {
        return;
      }
      n := n + 1;
    }
    FinishScrapingFolder(before, fs.files, movedAfter, doneAfter, jobFiles, ctp.path);
    r := Ok(());
  }

  /**
   * IDISCTPQuarantine.scrape: move every file of every CTP folder into the
   * directory its mirror keeps for the file's job. No file is lost or
   * gained. The files moved are original files of the CTP folders, each now
   * at its own new path in the job directory of its folder's mirror (or, for
   * a file sorted into a CTP folder that is a mirror's job directory, of the
   * mirror it was moved on to), holding its content; every other file is
   * kept. When no move fails, every original file of the CTP folders moved.
   */
  method Scrape(fs: FileStore, q: Quarantine) returns (r: Result<(), Error>, ghost moved: map<Path, Path>)
    requires fs.Valid()
    modifies fs
    ensures fs.Valid()
    ensures |fs.files| == |old(fs.files)|
    ensures ScrapeMoves(ScrapePairs(q), RescrapedMirrors(q), old(fs.files), fs.files, moved, CtpPaths(q))
    ensures r.Ok? ==> moved.Keys == FilesUnder(old(fs.files), CtpPaths(q))
    ensures NoCtpFolderInMirror(q) ==>
      forall f :: f in moved ==> exists i :: SortedByFolder(q, i, f, moved[f], old(fs.files)[f])
    ensures r.Ok? && NoCtpFolderInMirror(q) ==> forall c :: c in CtpPaths(q) ==> fs.FilesIn(c) == {}
    ensures ScrapeClear(q, old(fs.files)) ==> r.Ok?
    ensures r.Err? ==> MakeDirsFailure(r.error)
  {
    ghost var before := fs.files;
    moved := map[];
    var i := 0;
    assert CtpPathsBefore(q, 0) == {};
    while i < |q.ctpMapping|
      invariant i <= |q.ctpMapping| && fs.Valid() && |fs.files| == |before|
      invariant ScrapeMoves(ScrapePairs(q), RescrapedMirrors(q), before, fs.files, moved, CtpPathsBefore(q, i))
      invariant MovedAllOf(before, moved, CtpPathsBefore(q, i))
      invariant ScrapeClear(q, before) ==> ScrapeClear(q, fs.files)
    {
      var ctp, mirror := q.ctpMapping[i].0, q.ctpMapping[i].1;
      CtpPathsBeforeStep(q, i);
      assert (ctp.path, mirror.path) in ScrapePairs(q);
      r, moved := ScrapeFolder(fs, q, ctp, mirror, before, moved, CtpPathsBefore(q, i), CtpPathsBefore(q, i + 1));
      if r.Err? {
        ScrapeMovesWithin(ScrapePairs(q), RescrapedMirrors(q), before, fs.files, moved, CtpPathsBefore(q, i + 1), CtpPaths(q));
        if NoCtpFolderInMirror(q) {
          ScrapeSortsIntoOwnMirror(q, before, fs.files, moved, CtpPaths(q));
        }
        return;
      }
      i := i + 1;
    }
    if NoCtpFolderInMirror(q) {
      ScrapeSortsIntoOwnMirror(q, before, fs.files, moved, CtpPaths(q));
      ScrapedFoldersAreEmpty(fs, q, before, moved);
    }
    r := Ok(());
  }

  /**
   * No CTP folder sits directly in a mirror, where it would be one of the
   * job directories scrape sorts files into
   */
  ghost predicate NoCtpFolderInMirror(q: Quarantine)
  {
    forall c :: c in CtpPaths(q) ==> Parent(c) !in MirrorPaths(q)
  }

  /** Scrape leaves every file outside the CTP folders as it was */
  lemma ScrapeKeepsOthers(q: Quarantine, before: map<Path, Content>, after: map<Path, Content>,
                          moved: map<Path, Path>, done: set<Path>)
    requires ScrapeMoves(ScrapePairs(q), RescrapedMirrors(q), before, after, moved, done)
    ensures forall p :: p in before && Parent(p) !in done ==> p in after && after[p] == before[p]
  {
  }

  /**
   * The file `p`, holding `c`, sits in the directory that one of `mirrors`
   * keeps for the job `c` names (UNKNOWN when it names none)
   */
  ghost predicate SortedInto(mirrors: set<Path>, p: Path, c: Content)
  {
    p != [] && Parent(Parent(p)) in mirrors && Parent(p) == PathForJob(Parent(Parent(p)), JobIdOf(c))
  }

  /**
   * Wherever scrape stands, every file is an original it did not move, as it
   * was, or sits in the directory a mirror keeps for the job its content names
   */
  lemma EveryFileOriginalOrSorted(q: Quarantine, before: map<Path, Content>, current: map<Path, Content>,
                                  moved: map<Path, Path>, done: set<Path>)
    requires ScrapeMoves(ScrapePairs(q), RescrapedMirrors(q), before, current, moved, done)
    ensures forall p :: p in current ==>
      (p in before && p !in moved && current[p] == before[p]) || SortedInto(MirrorPaths(q), p, current[p])
  {
    forall p | p in current && p in moved.Values
      ensures SortedInto(MirrorPaths(q), p, current[p])
    {
      var f :| f in moved && moved[f] == p;
      var m := Parent(Parent(p));
      if (Parent(f), m) in ScrapePairs(q) {
        ScrapePairMirror(q, Parent(f), m);
      } else {
        RescrapedIsMirror(q, m);
      }
    }
  }

  /**
   * After a scrape in which no move failed, no CTP folder holds a file,
   * provided no CTP folder sits directly in a mirror (where it would be a
   * job directory that scrape sorts files into)
   */
  lemma ScrapedFoldersAreEmpty(fs: FileStore, q: Quarantine, before: map<Path, Content>, moved: map<Path, Path>)
    requires ScrapeMoves(ScrapePairs(q), RescrapedMirrors(q), before, fs.files, moved, CtpPaths(q)) && MovedAllOf(before, moved, CtpPaths(q))
    requires NoCtpFolderInMirror(q)
    ensures forall c :: c in CtpPaths(q) ==> fs.FilesIn(c) == {}
  {
    EveryFileOriginalOrSorted(q, before, fs.files, moved, CtpPaths(q));
    forall p | p in fs.files && p != []
      ensures Parent(p) !in CtpPaths(q)
    {
      if SortedInto(MirrorPaths(q), p, fs.files[p]) {
        assert Parent(Parent(p)) in MirrorPaths(q);
      }
    }
  }

  /**
   * `f` was in the CTP folder `i`, and `p`, holding `c`, is in the directory
   * the mirror of that folder keeps for the job `c` names
   */
  ghost predicate SortedByFolder(q: Quarantine, i: int, f: Path, p: Path, c: Content)
  {
    0 <= i < |q.ctpMapping| && q.ctpMapping[i].0.path == Parent(f) &&
    Parent(p) == PathForJob(q.ctpMapping[i].1.path, JobIdOf(c))
  }

  /**
   * When no CTP folder sits directly in a mirror, each file scrape moved
   * went from its CTP folder to that folder's own mirror, into the
   * directory the mirror keeps for the job the file names, with its content
   */
  lemma ScrapeSortsIntoOwnMirror(q: Quarantine, before: map<Path, Content>, after: map<Path, Content>,
                                 moved: map<Path, Path>, done: set<Path>)
    requires ScrapeMoves(ScrapePairs(q), RescrapedMirrors(q), before, after, moved, done)
    requires NoCtpFolderInMirror(q)
    ensures forall f :: f in moved ==> moved[f] in after && after[moved[f]] == before[f]
    ensures forall f :: f in moved ==> exists i :: SortedByFolder(q, i, f, moved[f], before[f])
  {
    forall k | 0 <= k < |q.ctpMapping|
      ensures Parent(q.ctpMapping[k].0.path) !in MirrorPaths(q)
    {
      assert q.ctpMapping[k].0.path in CtpPaths(q);
    }
    assert RescrapedMirrors(q) == {};
    forall f | f in moved
      ensures exists i :: SortedByFolder(q, i, f, moved[f], before[f])
    {
      var m := Parent(Parent(moved[f]));
      assert SortedFrom(ScrapePairs(q), RescrapedMirrors(q), f, moved[f], before[f]);
      assert m !in RescrapedMirrors(q);
      var k :| 0 <= k < |q.ctpMapping| && (Parent(f), m) == (q.ctpMapping[k].0.path, q.ctpMapping[k].1.path);
      assert SortedByFolder(q, k, f, moved[f], before[f]);
    }
  }

  // ---------------------------------------------------------------------
  // archive
  // ---------------------------------------------------------------------

  /** The directories the active mirrors keep for a job */
  function ActiveJobDirs(q: Quarantine, jobId: Option<int>): set<Path>
  {
    ActiveJobDirsBefore(q, jobId, |q.archiveMapping|)
  }

  /** The directories the first `n` active mirrors of the archive mapping keep for a job */
  function ActiveJobDirsBefore(q: Quarantine, jobId: Option<int>, n: nat): set<Path>
    requires n <= |q.archiveMapping|
  {
    set k | 0 <= k < n :: PathForJob(q.archiveMapping[k].0.path, jobId)
  }

  /** The directories the archive mirrors keep for a job */
  function ArchiveJobDirs(q: Quarantine, jobId: Option<int>): set<Path>
  {
    set k | 0 <= k < |q.archiveMapping| :: PathForJob(q.archiveMapping[k].1.path, jobId)
  }

  /** Each active mirror's job directory with its archive's: where archive moves a job's files from and to */
  function ArchivePairs(q: Quarantine, jobId: Option<int>): set<(Path, Path)>
  {
    set k | 0 <= k < |q.archiveMapping| ::
      (PathForJob(q.archiveMapping[k].0.path, jobId), PathForJob(q.archiveMapping[k].1.path, jobId))
  }

  /** Every file in `moved` goes from one job directory of a pair in `pairs` to the other */
  ghost predicate MovedInPairs(moved: map<Path, Path>, pairs: set<(Path, Path)>)
  {
    forall f :: f in moved ==> (Parent(f), Parent(moved[f])) in pairs
  }

  /** Adding the moves from mirror `k`'s job directory to its archive's keeps every move within a pair */
  lemma MovedInPairsStep(q: Quarantine, jobId: Option<int>, k: nat, moved: map<Path, Path>, movedAfter: map<Path, Path>)
    requires k < |q.archiveMapping| && MovedInPairs(moved, ArchivePairs(q, jobId))
    requires forall f :: f in movedAfter ==>
      (f in moved && movedAfter[f] == moved[f]) ||
      (Parent(f) == PathForJob(q.archiveMapping[k].0.path, jobId) &&
       Parent(movedAfter[f]) == PathForJob(q.archiveMapping[k].1.path, jobId))
    ensures MovedInPairs(movedAfter, ArchivePairs(q, jobId))
  {
    assert (PathForJob(q.archiveMapping[k].0.path, jobId), PathForJob(q.archiveMapping[k].1.path, jobId))
      in ArchivePairs(q, jobId);
  }

  lemma ActiveJobDirsStep(q: Quarantine, jobId: Option<int>, n: nat)
    requires n < |q.archiveMapping|
    ensures ActiveJobDirsBefore(q, jobId, n + 1) ==
      ActiveJobDirsBefore(q, jobId, n) + {PathForJob(q.archiveMapping[n].0.path, jobId)}
    ensures ActiveJobDirsBefore(q, jobId, n + 1) <= ActiveJobDirs(q, jobId)
  {
    assert ActiveJobDirsBefore(q, jobId, n + 1) ==
      ActiveJobDirsBefore(q, jobId, n) + {PathForJob(q.archiveMapping[n].0.path, jobId)};
  }

  /** No directory of `from` lies in or is a child of a directory of `to` */
  ghost predicate Apart(from: set<Path>, to: set<Path>)
  {
    forall a, b :: a in from && b in to ==> !IsPrefix(a, b) && Parent(a) != b
  }

  /** No path of `to` is or holds a path of `from` */
  ghost predicate Outside(to: set<Path>, from: set<Path>)
  {
    forall b, a :: b in to && a in from ==> !IsPrefix(b, a)
  }

  /** Nothing under base/active is under base/archived, or the other way round */
  lemma ActiveIsNotArchived(base: Path, a: Path, b: Path)
    requires IsPrefix(ActiveBase(base), a) && IsPrefix(ArchivedBase(base), b)
    ensures !IsPrefix(a, b) && !IsPrefix(b, a)
  {
    assert a[|base|] == "active" && b[|base|] == "archived";
  }

  /** The job directory of an active mirror is apart from that of an archive mirror */
  lemma JobDirPairApart(base: Path, active: Path, archive: Path, jobId: Option<int>)
    requires IsPrefix(ActiveBase(base), active) && IsPrefix(ArchivedBase(base), archive)
    ensures !IsPrefix(PathForJob(active, jobId), PathForJob(archive, jobId))
    ensures !IsPrefix(PathForJob(archive, jobId), PathForJob(active, jobId))
    ensures Parent(PathForJob(active, jobId)) != PathForJob(archive, jobId)
  {
    var a, b := PathForJob(active, jobId), PathForJob(archive, jobId);
    PathForJobLayout(active, jobId);
    PathForJobLayout(archive, jobId);
    assert a[..|active|] == active && b[..|archive|] == archive;
    assert IsPrefix(ActiveBase(base), a) && IsPrefix(ArchivedBase(base), b);
    ActiveIsNotArchived(base, a, b);
    ActiveIsNotArchived(base, active, b);
  }

  /** In a quarantine its constructor built, the active job directories are apart from the archived ones */
  lemma JobDirsApart(q: Quarantine, jobId: Option<int>)
    requires WellFormed(q)
    ensures Apart(ActiveJobDirs(q, jobId), ArchiveJobDirs(q, jobId))
    ensures Outside(ArchiveJobDirs(q, jobId), ActiveJobDirs(q, jobId))
  {
    forall a, b | a in ActiveJobDirs(q, jobId) && b in ArchiveJobDirs(q, jobId)
      ensures !IsPrefix(a, b) && !IsPrefix(b, a) && Parent(a) != b
    {
      var i :| 0 <= i < |q.archiveMapping| && a == PathForJob(q.archiveMapping[i].0.path, jobId);
      var j :| 0 <= j < |q.archiveMapping| && b == PathForJob(q.archiveMapping[j].1.path, jobId);
      assert q.archiveMapping[i].0.path == q.ctpMapping[i].1.path;
      JobDirPairApart(q.base, q.archiveMapping[i].0.path, q.archiveMapping[j].1.path, jobId);
    }
  }

  /**
   * `moved` sends files whose directory is among `from` to distinct paths,
   * new to `before`, in directories among `to`; each keeps its content, and
   * every other file stays as it was
   */
  ghost predicate ArchiveMoves(before: map<Path, Content>, after: map<Path, Content>, moved: map<Path, Path>,
                               from: set<Path>, to: set<Path>)
  {
    && moved.Keys <= before.Keys
    && (forall f :: f in moved ==> Parent(f) in from && moved[f] != [] && Parent(moved[f]) in to && moved[f] !in before)
    && (forall f, g :: f in moved && g in moved && f != g ==> moved[f] != moved[g])
    && MovedContents(before, after, moved)
  }

  /**
   * Where archive stands once the job directories `done` are handled: their
   * files all moved, none of them a file, and each of them still a
   * directory only if it was one before and held no file
   */
  ghost predicate ArchivedSoFar(from: set<Path>, to: set<Path>, before: map<Path, Content>, beforeDirs: set<Path>,
                                current: map<Path, Content>, currentDirs: set<Path>, moved: map<Path, Path>,
                                done: set<Path>)
  {
    && done <= from
    && ArchiveMoves(before, current, moved, done, to)
    && (forall f :: f in before && Parent(f) in done ==> f in moved)
    && (forall d :: d in done ==> d !in current)
    && (forall d :: d in from && d in currentDirs ==> d in beforeDirs)
    && (forall d, f :: d in done && d in currentDirs && f in before ==> Parent(f) != d)
  }

  /** Moves from some directories are moves from any more of them */
  lemma ArchiveMovesWithin(before: map<Path, Content>, after: map<Path, Content>, moved: map<Path, Path>,
                           done: set<Path>, from: set<Path>, to: set<Path>)
    requires ArchiveMoves(before, after, moved, done, to) && done <= from
    ensures ArchiveMoves(before, after, moved, from, to)
  {
  }

  /** A job directory without files: nothing to move, and it counts as handled */
  lemma ArchiveNothingStep(from: set<Path>, to: set<Path>, before: map<Path, Content>, beforeDirs: set<Path>,
                           current: map<Path, Content>, currentDirs: set<Path>, moved: map<Path, Path>,
                           done: set<Path>, d: Path, doneAfter: set<Path>)
    requires ArchivedSoFar(from, to, before, beforeDirs, current, currentDirs, moved, done)
    requires d in from && doneAfter == done + {d}
    requires d !in current && forall f :: f in current ==> Parent(f) != d
    ensures ArchivedSoFar(from, to, before, beforeDirs, current, currentDirs, moved, doneAfter)
  {
    forall f | f in before && Parent(f) == d
      ensures f in moved
    {
      assert f in moved || f in current;
    }
  }

  /** Files in a job directory of `from` are not the target of an earlier move: they were there from the start */
  lemma ArchiveHereUnmoved(from: set<Path>, to: set<Path>, before: map<Path, Content>, current: map<Path, Content>,
                           moved: map<Path, Path>, movedHere: map<Path, Path>, done: set<Path>, d: Path)
    requires ArchiveMoves(before, current, moved, done, to) && Apart(from, to) && d in from
    requires forall f :: f in movedHere ==> f in current && f != [] && Parent(f) == d
    ensures forall f :: f in movedHere ==> f in before && f !in moved && current[f] == before[f]
  {
    assert IsPrefix(d, d);
    forall f | f in movedHere
      ensures f in before && f !in moved && current[f] == before[f]
    {
      assert f !in moved.Values;
    }
  }

  /** Where the files of `d` go in `t` nothing was, neither now nor at the start */
  lemma ArchiveHereFresh(from: set<Path>, to: set<Path>, before: map<Path, Content>, current: map<Path, Content>,
                         moved: map<Path, Path>, movedHere: map<Path, Path>, done: set<Path>, d: Path, t: Path)
    requires ArchiveMoves(before, current, moved, done, to) && Apart(from, to) && done <= from
    requires d in from && t in to
    requires forall f :: f in movedHere ==> f in current && f != [] && Parent(f) == d
    requires MovedPaths(current, movedHere, t)
    ensures forall f :: f in movedHere ==> movedHere[f] !in current && movedHere[f] !in before
  {
    assert IsPrefix(d, d) && IsPrefix(t, t);
    forall f | f in movedHere
      ensures movedHere[f] !in current && movedHere[f] !in before
    {
      assert Parent(movedHere[f]) == t;
      assert movedHere[f] !in movedHere;
      assert movedHere[f] !in moved;
    }
  }

  /** The files moved earlier are untouched by moving the files of `d` */
  lemma ArchiveEarlierStay(from: set<Path>, to: set<Path>, before: map<Path, Content>, current: map<Path, Content>,
                           next: map<Path, Content>, moved: map<Path, Path>, movedHere: map<Path, Path>,
                           done: set<Path>, d: Path, t: Path)
    requires ArchiveMoves(before, current, moved, done, to) && Apart(from, to) && d in from
    requires forall f :: f in movedHere ==> f in current && f != [] && Parent(f) == d
    requires MovedFiles(current, next, movedHere, t)
    ensures forall f :: f in moved ==> moved[f] !in movedHere && moved[f] in next && next[moved[f]] == before[f]
  {
    forall f | f in moved
      ensures moved[f] !in movedHere && moved[f] in next && next[moved[f]] == before[f]
    {
      var b := Parent(moved[f]);
      assert IsPrefix(b, b);
    }
  }

  /** Moving the files of job directory `d` into `t` extends the moves so far */
  lemma ArchiveMovesStep(from: set<Path>, to: set<Path>, before: map<Path, Content>, current: map<Path, Content>,
                         next: map<Path, Content>, moved: map<Path, Path>, movedHere: map<Path, Path>,
                         done: set<Path>, doneAfter: set<Path>, d: Path, t: Path)
    requires ArchiveMoves(before, current, moved, done, to) && Apart(from, to)
    requires d in from && t in to && done <= from && doneAfter == done + {d}
    requires forall f :: f in movedHere <==> f in current && f != [] && Parent(f) == d
    requires MovedFiles(current, next, movedHere, t)
    ensures ArchiveMoves(before, next, moved + movedHere, doneAfter, to)
  {
    ArchiveHereUnmoved(from, to, before, current, moved, movedHere, done, d);
    ArchiveHereFresh(from, to, before, current, moved, movedHere, done, d, t);
    ArchiveEarlierStay(from, to, before, current, next, moved, movedHere, done, d, t);
    var all := moved + movedHere;
    assert all.Keys <= before.Keys;
    forall f | f in all
      ensures Parent(f) in doneAfter && all[f] != [] && Parent(all[f]) in to && all[f] !in before
      ensures all[f] in next && next[all[f]] == before[f]
    {
      if f in movedHere {
        assert all[f] == movedHere[f] && current[f] == before[f];
      } else {
        assert all[f] == moved[f];
      }
    }
    forall f, g | f in all && g in all && f != g
      ensures all[f] != all[g]
    {
    }
    forall p | p in before && p !in all
      ensures p in next && next[p] == before[p]
    {
    }
    forall p | p in next
      ensures p in (before.Keys - all.Keys) + all.Values
    {
      if p !in movedHere.Values {
        assert p in current && p !in movedHere;
        if p !in moved.Values {
          assert p in before && p !in moved;
        } else {
          var g :| g in moved && moved[g] == p;
          assert all[g] == p;
        }
      } else {
        var g :| g in movedHere && movedHere[g] == p;
        assert all[g] == p;
      }
    }
    assert next.Keys <= (before.Keys - all.Keys) + all.Values;
    assert MovedContents(before, next, all);
  }

  /** A job directory whose files all moved, and which was then removed, counts as handled */
  lemma ArchiveDirStep(from: set<Path>, to: set<Path>, before: map<Path, Content>, beforeDirs: set<Path>,
                       current: map<Path, Content>, currentDirs: set<Path>, next: map<Path, Content>, nextDirs: set<Path>,
                       moved: map<Path, Path>, movedHere: map<Path, Path>, done: set<Path>, doneAfter: set<Path>,
                       d: Path, t: Path)
    requires ArchivedSoFar(from, to, before, beforeDirs, current, currentDirs, moved, done) && Apart(from, to)
    requires d in from && t in to && doneAfter == done + {d} && d !in current
    requires forall f :: f in movedHere <==> f in current && f != [] && Parent(f) == d
    requires MovedFiles(current, next, movedHere, t)
    requires nextDirs == currentDirs + Ancestors(t) - {d}
    ensures ArchivedSoFar(from, to, before, beforeDirs, next, nextDirs, moved + movedHere, doneAfter)
  {
    ArchiveMovesStep(from, to, before, current, next, moved, movedHere, done, doneAfter, d, t);
    forall f | f in before && Parent(f) == d
      ensures f in moved + movedHere
    {
    }
    forall e | e in doneAfter
      ensures e !in next
    {
      assert e !in current;
      assert Parent(e) != t;
    }
    forall e | e in from && e in nextDirs
      ensures e in beforeDirs
    {
      assert !IsPrefix(e, t);
    }
    forall e, f | e in doneAfter && e in nextDirs && f in before
      ensures Parent(f) != e
    {
      assert !IsPrefix(e, t);
      assert e in done && e in currentDirs;
    }
  }

  /**
   * No regular file lies at or on the way to a job directory of `from` or
   * `to`, and no directory lies directly in one of `from`: what lets every
   * `move_job_data` of an archive succeed
   */
  ghost predicate ArchiveClear(from: set<Path>, to: set<Path>, files: map<Path, Content>, dirs: set<Path>)
  {
    && (forall p, d :: p in files && (d in from || d in to) ==> !IsPrefix(p, d))
    && (forall c, a :: c in dirs && c != [] && a in from ==> Parent(c) != a)
  }

  /** The conditions `move_job_data` needs hold for a pair of clear job directories */
  lemma ArchiveClearPair(fs: FileStore, from: set<Path>, to: set<Path>, d: Path, t: Path)
    requires ArchiveClear(from, to, fs.files, fs.dirs) && d in from && t in to
    ensures d !in fs.files && !fs.Blocked(t) && fs.SubdirsIn(d) == {}
  {
    assert IsPrefix(d, d);
  }

  /** The paths of `ps` and all their ancestors */
  function AncestorsOf(ps: set<Path>): (r: set<Path>)
    ensures forall p :: p in ps ==> Ancestors(p) <= r
  {
    set p, c | p in ps && c in Ancestors(p) :: c
  }

  /**
   * Moving files into archive job directories, and making their ancestors,
   * keeps every job directory clear, given that no archive job directory
   * lies inside another or inside an active one
   */
  lemma ArchiveClearKept(from: set<Path>, to: set<Path>, before: map<Path, Content>, beforeDirs: set<Path>,
                         current: map<Path, Content>, currentDirs: set<Path>, moved: map<Path, Path>, done: set<Path>)
    requires Apart(from, to) && NoneInside(to) && Outside(to, from)
    requires ArchiveClear(from, to, before, beforeDirs)
    requires ArchiveMoves(before, current, moved, done, to) && currentDirs <= beforeDirs + AncestorsOf(to)
    ensures ArchiveClear(from, to, current, currentDirs)
  {
    forall p, d | p in current && (d in from || d in to)
      ensures !IsPrefix(p, d)
    {
      if p !in before {
        assert p in moved.Values;
        var f :| f in moved && moved[f] == p;
        var t := Parent(p);
        assert t in to && |p| == |t| + 1 && p[..|t|] == t;
        if |p| <= |d| {
          assert t != d && !IsPrefix(t, d);
          assert d[..|p|][..|t|] == d[..|t|];
        }
      }
    }
    forall c, a | c in currentDirs && c != [] && a in from
      ensures Parent(c) != a
    {
      if c !in beforeDirs {
        var t :| t in to && c in Ancestors(t);
        assert IsPrefix(c, t) && !IsPrefix(a, t);
        assert t[..|c| - 1] == Parent(c);
      }
    }
  }

  /** What lets every `move_job_data` of archive succeed */
  ghost predicate ArchiveReady(q: Quarantine, jobId: Option<int>, files: map<Path, Content>, dirs: set<Path>)
  {
    NoneInside(ArchiveJobDirs(q, jobId)) && ArchiveClear(ActiveJobDirs(q, jobId), ArchiveJobDirs(q, jobId), files, dirs)
  }

  /**
   * One pass of archive's loop: move_job_data of the job from `active` into
   * `archive`, and how it leaves the moves so far
   */
  method ArchiveMirror(fs: FileStore, jobId: Option<int>, active: Path, archive: Path,
                       ghost from: set<Path>, ghost to: set<Path>, ghost before: map<Path, Content>,
                       ghost beforeDirs: set<Path>, ghost moved: map<Path, Path>,
                       ghost done: set<Path>, ghost doneAfter: set<Path>)
    returns (r: Result<(), Error>, ghost movedAfter: map<Path, Path>)
    requires fs.Valid() && Apart(from, to)
    requires PathForJob(active, jobId) in from && PathForJob(archive, jobId) in to
    requires doneAfter == done + {PathForJob(active, jobId)}
    requires ArchivedSoFar(from, to, before, beforeDirs, fs.files, fs.dirs, moved, done)
    modifies fs
    ensures fs.Valid() && |fs.files| == |old(fs.files)|
    ensures ArchiveMoves(before, fs.files, movedAfter, doneAfter, to)
    ensures r.Ok? ==> ArchivedSoFar(from, to, before, beforeDirs, fs.files, fs.dirs, movedAfter, doneAfter)
    ensures forall f :: f in movedAfter ==>
      (f in moved && movedAfter[f] == moved[f]) ||
      (Parent(f) == PathForJob(active, jobId) && Parent(movedAfter[f]) == PathForJob(archive, jobId))
    ensures r.Ok? <==>
      || old(GetFiles(fs, active, jobId)) == Ok({})
      || (old(GetFiles(fs, active, jobId)).Ok? && !old(fs.Blocked(PathForJob(archive, jobId))) &&
          old(fs.SubdirsIn(PathForJob(active, jobId))) == {})
    ensures fs.dirs <= old(fs.dirs) + Ancestors(PathForJob(archive, jobId))
  {
    ghost var d, t := PathForJob(active, jobId), PathForJob(archive, jobId);
    ghost var current, currentDirs := fs.files, fs.dirs;
    ghost var listing := GetFiles(fs, active, jobId);
    ghost var blocked := fs.Blocked(t);
    assert !IsPrefix(d, t);
    ghost var movedHere;
    r, movedHere := MoveJobData(fs, jobId, active, JobFolder(archive));
    if listing == Ok({}) {
      forall f | f in current
        ensures Parent(f) != d
      {
        assert JobFile(jobId, f) !in listing.value;
      }
      ArchiveNothingStep(from, to, before, beforeDirs, current, currentDirs, moved, done, d, doneAfter);
      movedAfter := moved;
    } else if listing.Err? || blocked {
      ArchiveMovesWithin(before, current, moved, done, doneAfter, to);
      movedAfter := moved;
    } else {
      assert forall f :: f in movedHere <==> f in current && f != [] && Parent(f) == d;
      movedAfter := moved + movedHere;
      if r.Ok? {
        ArchiveDirStep(from, to, before, beforeDirs, current, currentDirs, fs.files, fs.dirs,
                       moved, movedHere, done, doneAfter, d, t);
      } else {
        ArchiveMovesStep(from, to, before, current, fs.files, moved, movedHere, done, doneAfter, d, t);
      }
    }
  }

  /**
   * IDISCTPQuarantine.archive: move_job_data of the job from every active
   * mirror into its archive, stopping at the first that raises. The files
   * moved come from the active job directories and go to fresh paths in the
   * archive job directories with their content; nothing else changes. When
   * no mirror raises, every file the job had in an active mirror moved, no
   * active job directory is a file, and one that is still a directory was
   * one before and held no file.
   */
  method Archive(fs: FileStore, q: Quarantine, jobId: Option<int>) returns (r: Result<(), Error>, ghost moved: map<Path, Path>)
    requires fs.Valid() && WellFormed(q)
    modifies fs
    ensures fs.Valid() && |fs.files| == |old(fs.files)|
    ensures ArchiveMoves(old(fs.files), fs.files, moved, ActiveJobDirs(q, jobId), ArchiveJobDirs(q, jobId))
    ensures r.Ok? ==> ArchivedSoFar(ActiveJobDirs(q, jobId), ArchiveJobDirs(q, jobId), old(fs.files), old(fs.dirs),
                                     fs.files, fs.dirs, moved, ActiveJobDirs(q, jobId))
    ensures MovedInPairs(moved, ArchivePairs(q, jobId))
    ensures ArchiveReady(q, jobId, old(fs.files), old(fs.dirs)) ==> r.Ok?
  {
    ghost var from, to := ActiveJobDirs(q, jobId), ArchiveJobDirs(q, jobId);
    ghost var before, beforeDirs := fs.files, fs.dirs;
    JobDirsApart(q, jobId);
    moved := map[];
    var i := 0;
    while i < |q.archiveMapping|
      invariant i <= |q.archiveMapping| && fs.Valid() && |fs.files| == |before|
      invariant ArchivedSoFar(from, to, before, beforeDirs, fs.files, fs.dirs, moved, ActiveJobDirsBefore(q, jobId, i))
      invariant MovedInPairs(moved, ArchivePairs(q, jobId))
      invariant fs.dirs <= beforeDirs + AncestorsOf(to)
    {
      var active, archive := q.archiveMapping[i].0, q.archiveMapping[i].1;
      ActiveJobDirsStep(q, jobId, i);
      assert PathForJob(archive.path, jobId) in to;
      ghost var movedBefore := moved;
      if ArchiveReady(q, jobId, before, beforeDirs) {
        ArchiveClearKept(from, to, before, beforeDirs, fs.files, fs.dirs, moved, ActiveJobDirsBefore(q, jobId, i));
        ArchiveClearPair(fs, from, to, PathForJob(active.path, jobId), PathForJob(archive.path, jobId));
      }
      r, moved := ArchiveMirror(fs, jobId, active.path, archive.path, from, to, before, beforeDirs, moved,
                                ActiveJobDirsBefore(q, jobId, i), ActiveJobDirsBefore(q, jobId, i + 1));
      MovedInPairsStep(q, jobId, i, movedBefore, moved);
      if r.Err? {
        ArchiveMovesWithin(before, fs.files, moved, ActiveJobDirsBefore(q, jobId, i + 1), from, to);
        return;
      }
      i := i + 1;
    }
    r := Ok(());
  }

  /** The job directories in base/active/N and base/archived/N for a CTP folder named N */
  function ArchivePairOf(base: Path, ctp: CtpQuarantineFolder, jobId: Option<int>): (Path, Path)
  {
    var mirror := Join(ActiveBase(base), FileName(ctp.path));
    (PathForJob(mirror, jobId), PathForJob(Join(ArchivedBase(base), FileName(mirror)), jobId))
  }

  /**
   * In a quarantine its constructor built, archive moves a job's files from
   * the mirror base/active/N of a CTP folder named N to base/archived/N, the
   * archive named like that mirror
   */
  lemma ArchivePairsLayout(base: Path, ctps: seq<CtpQuarantineFolder>, jobId: Option<int>, a: Path, b: Path)
    requires (a, b) in ArchivePairs(NewQuarantine(base, ctps), jobId)
    ensures exists i :: 0 <= i < |ctps| && ArchivePairOf(base, ctps[i], jobId) == (a, b)
  {
    var q := NewQuarantine(base, ctps);
    var k :| 0 <= k < |q.archiveMapping| &&
      (a, b) == (PathForJob(q.archiveMapping[k].0.path, jobId), PathForJob(q.archiveMapping[k].1.path, jobId));
    assert q.archiveMapping[k].0 == q.ctpMapping[k].1;
  }

  /** Paths of one length lie inside one another only when they are equal */
  lemma SameDepthNoneInside(ps: set<Path>, depth: nat)
    requires forall p :: p in ps ==> |p| == depth
    ensures NoneInside(ps)
  {
    forall a, b | a in ps && b in ps && IsPrefix(a, b)
      ensures a == b
    {
      assert b[..|a|] == b;
    }
  }

  /**
   * In a quarantine its constructor built from CTP folders other than the
   * root, every mirror is base/active/N and every archive job directory
   * base/archived/N/<job>, so no mirror lies inside another and no archive
   * job directory inside another: the part of the success conditions of
   * scrape and archive that the layout alone settles.
   */
  lemma NewQuarantineNoneInside(base: Path, ctps: seq<CtpQuarantineFolder>, jobId: Option<int>)
    requires forall i :: 0 <= i < |ctps| ==> ctps[i].path != []
    ensures NoneInside(MirrorPaths(NewQuarantine(base, ctps)))
    ensures NoneInside(ArchiveJobDirs(NewQuarantine(base, ctps), jobId))
  {
    var q := NewQuarantine(base, ctps);
    MirrorDepth(base, ctps);
    SameDepthNoneInside(MirrorPaths(q), |base| + 2);
    ArchiveJobDirDepth(base, ctps, jobId);
    SameDepthNoneInside(ArchiveJobDirs(q, jobId), |base| + 3);
  }

  lemma MirrorDepth(base: Path, ctps: seq<CtpQuarantineFolder>)
    requires forall i :: 0 <= i < |ctps| ==> ctps[i].path != []
    ensures forall m :: m in MirrorPaths(NewQuarantine(base, ctps)) ==> |m| == |base| + 2
  {
    var q := NewQuarantine(base, ctps);
    forall m | m in MirrorPaths(q)
      ensures |m| == |base| + 2
    {
      var i :| 0 <= i < |q.ctpMapping| && m == q.ctpMapping[i].1.path;
      MirrorLayout(base, ctps, i);
    }
  }

  lemma ArchiveJobDirDepth(base: Path, ctps: seq<CtpQuarantineFolder>, jobId: Option<int>)
    requires forall i :: 0 <= i < |ctps| ==> ctps[i].path != []
    ensures forall t :: t in ArchiveJobDirs(NewQuarantine(base, ctps), jobId) ==> |t| == |base| + 3
  {
    var q := NewQuarantine(base, ctps);
    forall t | t in ArchiveJobDirs(q, jobId)
      ensures |t| == |base| + 3
    {
      var k :| 0 <= k < |q.archiveMapping| && t == PathForJob(q.archiveMapping[k].1.path, jobId);
      MirrorLayout(base, ctps, k);
    }
  }

  /** Archive leaves every file outside the active job directories, other jobs' files among them, as it was */
  lemma ArchiveKeepsOthers(before: map<Path, Content>, after: map<Path, Content>, moved: map<Path, Path>,
                           from: set<Path>, to: set<Path>)
    requires ArchiveMoves(before, after, moved, from, to)
    ensures forall p :: p in before && Parent(p) !in from ==> p in after && after[p] == before[p]
  {
  }

  /** Each active mirror's job directory is among the ones archive empties */
  lemma MirrorJobDirIsActive(q: Quarantine, jobId: Option<int>, m: IdisQuarantineFolder)
    requires WellFormed(q) && m in Mirrors(q)
    ensures PathForJob(m.path, jobId) in ActiveJobDirs(q, jobId)
  {
    var i :| 0 <= i < |Mirrors(q)| && Mirrors(q)[i] == m;
    assert q.archiveMapping[i].0 == m;
  }

  /** After an archive that did not raise, get_files of the job is empty and get_file_count is 0 */
  lemma ArchivedJobHasNoFiles(fs: FileStore, q: Quarantine, jobId: Option<int>, before: map<Path, Content>,
                              beforeDirs: set<Path>, moved: map<Path, Path>)
    requires fs.Valid() && WellFormed(q)
    requires ArchivedSoFar(ActiveJobDirs(q, jobId), ArchiveJobDirs(q, jobId), before, beforeDirs,
                           fs.files, fs.dirs, moved, ActiveJobDirs(q, jobId))
    ensures AllFiles(fs, Mirrors(q), jobId) == Ok(multiset{})
    ensures AllFileCount(fs, Mirrors(q), jobId) == Ok(0)
  {
    JobDirsApart(q, jobId);
    forall m | m in Mirrors(q)
      ensures PathForJob(m.path, jobId) !in fs.files && fs.FilesIn(PathForJob(m.path, jobId)) == {}
    {
      var d := PathForJob(m.path, jobId);
      MirrorJobDirIsActive(q, jobId, m);
      assert IsPrefix(d, d);
      forall f | f in fs.files && f != []
        ensures Parent(f) != d
      {
        if f !in moved.Values {
          assert f in before && f !in moved;
        }
      }
    }
    NoFilesForJob(fs, Mirrors(q), jobId);
  }

  /**
   * After an archive that did not raise, the job is not among get_job_ids,
   * provided each of its active directories that existed held a file (an
   * empty one is left in place) and the numeric directory names are the
   * ones `str` gives
   */
  lemma ArchivedJobIsNotListed(fs: FileStore, q: Quarantine, jobId: int, before: map<Path, Content>,
                               beforeDirs: set<Path>, moved: map<Path, Path>)
    requires fs.Valid() && WellFormed(q) && jobId != 0
    requires ArchivedSoFar(ActiveJobDirs(q, Some(jobId)), ArchiveJobDirs(q, Some(jobId)), before, beforeDirs,
                           fs.files, fs.dirs, moved, ActiveJobDirs(q, Some(jobId)))
    requires forall d :: d in ActiveJobDirs(q, Some(jobId)) && d in beforeDirs ==>
      exists f :: f in before && Parent(f) == d
    requires forall m, d :: m in Mirrors(q) && d in NumericSubdirs(fs, m.path) ==> IsCanonical(FileName(d))
    ensures AllJobIds(fs, Mirrors(q)).Ok? ==> jobId !in AllJobIds(fs, Mirrors(q)).value
  {
    forall m | m in Mirrors(q)
      ensures !fs.IsDir(PathForJob(m.path, Some(jobId)))
    {
      MirrorJobDirIsActive(q, Some(jobId), m);
    }
    GoneJobIsNotListedAnywhere(fs, Mirrors(q), jobId);
  }

  /** The files of `files` directly in one of `dirs` */
  function FilesUnder(files: map<Path, Content>, dirs: set<Path>): (r: set<Path>)
    ensures forall p :: p in r <==> p in files && Parent(p) in dirs
  {
    set p | p in files && Parent(p) in dirs
  }

  /** The values a map gives the keys `ks` */
  function Image(m: map<Path, Path>, ks: set<Path>): set<Path>
    requires ks <= m.Keys
  {
    set f | f in ks :: m[f]
  }

  /** A map that sends distinct keys to distinct values gives a set of keys as many values */
  lemma {:induction false} InjectiveImage(m: map<Path, Path>, ks: set<Path>)
    requires ks <= m.Keys
    requires forall f, g :: f in m && g in m && f != g ==> m[f] != m[g]
    ensures |Image(m, ks)| == |ks|
    decreases ks
  {
    if ks != {} {
      var k :| k in ks;
      InjectiveImage(m, ks - {k});
      assert Image(m, ks) == Image(m, ks - {k}) + {m[k]};
    }
  }

  /** A map that sends distinct keys to distinct values has as many values as keys */
  lemma InjectiveValues(m: map<Path, Path>)
    requires forall f, g :: f in m && g in m && f != g ==> m[f] != m[g]
    ensures |m.Values| == |m.Keys|
  {
    assert m.Values == Image(m, m.Keys);
    InjectiveImage(m, m.Keys);
  }

  /** The files directly in the archive job directories afterwards: those there before and the moved ones */
  lemma ArchiveTargets(before: map<Path, Content>, after: map<Path, Content>, moved: map<Path, Path>,
                       from: set<Path>, to: set<Path>)
    requires ArchiveMoves(before, after, moved, from, to) && Apart(from, to)
    ensures FilesUnder(after, to) == FilesUnder(before, to) + moved.Values
    ensures FilesUnder(before, to) !! moved.Values
  {
    forall p | p in before && Parent(p) in to
      ensures p in after
    {
      assert IsPrefix(Parent(p), Parent(p));
      assert p !in moved;
    }
    forall p | p in moved.Values
      ensures p in after && Parent(p) in to && p !in before
    {
      var f :| f in moved && moved[f] == p;
    }
    forall p | p in after && Parent(p) in to
      ensures p in before || p in moved.Values
    {
    }
  }

  /**
   * When every file of the active job directories moved, the archive job
   * directories gain exactly as many files as the active ones held
   */
  lemma ArchiveCount(before: map<Path, Content>, after: map<Path, Content>, moved: map<Path, Path>,
                     from: set<Path>, to: set<Path>)
    requires ArchiveMoves(before, after, moved, from, to) && Apart(from, to)
    requires forall f :: f in before && Parent(f) in from ==> f in moved
    ensures |FilesUnder(after, to)| == |FilesUnder(before, to)| + |FilesUnder(before, from)|
  {
    assert moved.Keys == FilesUnder(before, from);
    ArchiveTargets(before, after, moved, from, to);
    InjectiveValues(moved);
  }
}
