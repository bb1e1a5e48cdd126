# IDIS job files and CTP quarantine, in Dafny

A model of the file handling at the heart of IDIS, the anonymisation service
built around CTP (the Java program that anonymises DICOM files). It covers two
modules of the repository, `app/idis/jobs/filehandling.py` and
`app/idis/jobs/ctp.py`.

- `JobFile` ties a file to a job id, or to no job.
- `SafeFolder` never overwrites: it keeps a file's name when that is free and
  otherwise picks a random fresh name in the same directory.
- `JobFolder` keeps one sub-directory per job, `root/str(job_id)`, and a
  `root/UNKNOWN` bucket for files without a (truthy) job id. It lists job ids,
  files and file counts, and removes an emptied job directory.
- `move_job_file`, `copy_job_file` and `move_job_data` create the target
  directories and then rename or copy, never onto an existing path.
- `CTPQuarantineFolder` is a flat folder CTP fills. Each file's job is read
  from the IDIS private DICOM tag `RADBOUDUMCANONYMIZER` / `[JobID]`; a
  non-DICOM file or one without the tag belongs to no job.
- `IDISCTPQuarantine` mirrors every CTP folder `N` by an active job folder
  `base/active/N` and that one by `base/archived/N`. `scrape` sorts CTP's
  files into the active mirrors, `archive(job_id)` moves one job's files on to
  the archive mirrors, and the queries gather over all active mirrors.

The file system is a class, `Store.FileStore`, holding the set of directories
and a map from file paths to contents. Its methods `MakeDirs`, `Rename`,
`CopyFile` and `Rmdir` stand for `mkdir(parents=True, exist_ok=True)`,
`Path.rename`, `shutil.copyfile` and `os.rmdir`, with their error cases as
`Result` values. The operations that change the file system are methods of the
modules that take the store and state its new state. A file's content is its
parsed DICOM data, `Option<seq<PrivateElement>>`, where `None` means "not
DICOM". The modules are:

- `Common`: paths as sequences of names, `Option` and `Result`.
- `PyInt`: Python's `str(n)` and `int(s)` for the job directory names.
- `Store`: the file store.
- `FileHandling`: `filehandling.py`.
- `Ctp`: the CTP side of `ctp.py`.
- `Quarantine`: `IDISQuarantineFolder`, `QuarantinedJobFile` and
  `IDISCTPQuarantine`.

Where the docstrings and the code disagree, the model follows the code:

- A quarantine mirror's `get_files` for a job it does not know returns an
  empty list, as `JobFolder.get_files` does
  (`app/idis/jobs/filehandling.py:219-221`). It does not raise
  `FileNotFoundError` as its docstring (`app/idis/jobs/ctp.py:181-184`)
  says. The `except FileNotFoundError` branches of the
  cross-mirror queries therefore never run. The model keeps only the errors
  that can happen, for example a job path that is a file, and propagates them.
- `move_job_data` says "No exceptions are raised", yet what
  `move_job_file` and `remove_empty_job_id` raise propagates. The model
  returns those errors.
- `_get_path_for_job` tests `if job_id:`, so job id 0 goes to `UNKNOWN` just
  like `None` does.

## Model

| member | source | states |
|---|---|---|
| PyInt.ParseIntOfIntToString | app/idis/jobs/filehandling.py:154 | `int(str(n)) == n` for every integer, so a job directory name reads back as its job id |
| PyInt.IntToStringInjective | app/idis/jobs/filehandling.py:131 | distinct job ids get distinct directory names, and equal names come from equal ids |
| PyInt.UnknownIsNotAnInt | app/idis/jobs/filehandling.py:153-156 | `int("UNKNOWN")` raises ValueError, so the unknown bucket is never listed as a job |
| PyInt.IntToStringIsCanonical | app/idis/jobs/filehandling.py:131 | a name `str` gives is one that `str(int(name))` reproduces |
| Store.FileStore.MakeDirs | app/idis/jobs/filehandling.py:303 | `mkdir(parents=True, exist_ok=True)`: adds exactly the path and its ancestors as directories and leaves files alone; fails (FileExists or NotADirectory) exactly when a file lies on the way, changing nothing |
| Store.FileStore.Rename | app/idis/jobs/filehandling.py:264 | `Path.rename` of a file: FileNotFound for a missing source or destination directory, NotADirectory when a regular file lies on either path, IsADirectory for a directory destination; on success the file's content sits at the new path and nothing is left at the old one; on failure nothing changes |
| Store.FileStore.CopyFile | app/idis/jobs/filehandling.py:281 | `copyfile`: SameFile, IsADirectory, FileNotFound and NotADirectory (a regular file on the path) as `copyfile` raises them; on success the destination holds the source's content and the source stays; on failure nothing changes |
| Store.FileStore.Rmdir | app/idis/jobs/filehandling.py:175 | `os.rmdir`: NotADirectory when the path or one of its ancestors is a regular file, FileNotFound for any other missing path, DirectoryNotEmpty for a non-empty directory, otherwise exactly that directory is removed; files never change |
| FileHandling.PathForJobLayout | app/idis/jobs/filehandling.py:117-133 | a job's directory is a child of the root whose name parses back to the job id when the id is truthy; otherwise it is `root/UNKNOWN`, which parses to no id |
| FileHandling.PathForJobInjective | app/idis/jobs/filehandling.py:130-133 | two job ids share a directory exactly when they are equal or both falsy (None and 0 share `UNKNOWN`) |
| FileHandling.FreshChildExists | app/idis/jobs/filehandling.py:77-78 | every directory has a name not yet taken, so a random fresh name exists |
| FileHandling.AvailableNameForPath | app/idis/jobs/filehandling.py:74-79 | the result does not exist, lies in the same directory, and is the given path exactly when that path was free |
| FileHandling.GetAvailablePath | app/idis/jobs/filehandling.py:57-115 | a free path in the folder's target directory (a SafeFolder's own directory, or a JobFolder's directory for the job, `UNKNOWN` for a falsy id), with the file's own name when that is free |
| FileHandling.GetFiles | app/idis/jobs/filehandling.py:206-227 | empty for a job whose directory does not exist; otherwise exactly the regular files directly in the job directory, each tagged with the requested job id; a job path that is a file raises NotADirectory |
| FileHandling.FileCountIsSize | app/idis/jobs/filehandling.py:229-247 | `get_file_count` is 0 for an unknown job, fails exactly when `get_files` does, and otherwise equals `len(get_files(job_id))` |
| FileHandling.GetUnknownJobFiles | app/idis/jobs/filehandling.py:185-204 | empty when `UNKNOWN` does not exist; otherwise exactly the regular files directly in `UNKNOWN`, each with no job |
| FileHandling.UnknownFilesAreFalseJobFiles | app/idis/jobs/filehandling.py:196-204 | the unknown files are the files `get_files` gives for a falsy job id, with their job set to None |
| FileHandling.GetJobIds | app/idis/jobs/filehandling.py:135-157 | `[]` when the root is missing; NotADirectory when it is a file; otherwise exactly the ids the numeric names spell, each id as often as there are sub-directories whose name `int()` reads as it (`5` and `05` both give 5), non-numeric names (`UNKNOWN` among them) dropped without error |
| FileHandling.JobDirIsListed | app/idis/jobs/filehandling.py:148-157 | an existing directory of a truthy job id is among the listed ids; the `UNKNOWN` directory is not listed |
| FileHandling.GoneJobIsNotListed | app/idis/jobs/filehandling.py:148-157 | once the directory of a job id other than 0 is gone, that id is not listed, given that the numeric directory names are canonical |
| FileHandling.ZeroIsListedByAnotherDir | app/idis/jobs/filehandling.py:130-157 | job 0's directory is `UNKNOWN`, yet a directory named `0` lists 0, so job 0 is left out of the lemmas about a job no longer being listed |
| FileHandling.RemoveEmptyJobId | app/idis/jobs/filehandling.py:159-183 | removes the job directory when it exists and is empty; JobFolderException "not known" when it is missing, and "still has files" when it is not empty or when a regular file lies on its path (the `NotADirectoryError` branch), changing nothing |
| FileHandling.PrepareJobFileOperation | app/idis/jobs/filehandling.py:284-304 | creates the target directory and its ancestors and returns the source with a destination that did not exist, in the target directory; fails, changing nothing, when a file blocks the target |
| FileHandling.MoveJobFile | app/idis/jobs/filehandling.py:250-264 | removes the source and adds one file with its content at a path that did not exist, in the target directory; no other file changes; a missing source raises FileNotFound (NotADirectory when a regular file lies on its path); errors leave all files as they were |
| FileHandling.CopyJobFile | app/idis/jobs/filehandling.py:267-281 | adds one file with the source's content at a path that did not exist and keeps the source; no other file changes; a missing source raises FileNotFound (NotADirectory when a regular file lies on its path) and changes nothing |
| FileHandling.CopyTwiceKeepsBoth | app/idis/jobs/filehandling.py:267-281 | copying the same file twice into a folder adds two files there and keeps the source |
| FileHandling.MoveJobFiles | app/idis/jobs/filehandling.py:328-329 | the loop of moves: every listed file moves, with its content, to a distinct fresh path in the target directory, and nothing else changes |
| FileHandling.EmptiedJobDir | app/idis/jobs/filehandling.py:330 | after the moves, the job directory is empty exactly when it had no sub-directory and the target is not inside it |
| FileHandling.MoveJobData | app/idis/jobs/filehandling.py:307-330 | nothing happens when the source has no files for the job; otherwise every file of the job moves to the destination, the file count is kept, and the job directory is removed exactly when nothing else is left in it (JobFolderException otherwise) |
| Ctp.GetIdisTagValue | app/idis/jobs/ctp.py:122-145 | no value exactly when no private element has creator `RADBOUDUMCANONYMIZER` and name `[tag]` |
| Ctp.LastTagWins | app/idis/jobs/ctp.py:137-145 | when several elements carry the tag, the value is that of the last in dataset order |
| Ctp.NewCtpQuarantineFolder | app/idis/jobs/ctp.py:18-34 | the description is `Quarantine folder <name>`, followed by ` (<description>)` exactly when a non-empty description is given |
| Ctp.DescriptionKeepsReason | app/idis/jobs/ctp.py:30-34 | two folders at one path get equal descriptions exactly when both or neither were given the same reason |
| Ctp.CtpFiles | app/idis/jobs/ctp.py:39-48 | exactly the regular files directly in the folder |
| Ctp.PathToJobFile | app/idis/jobs/ctp.py:67-96 | never fails for a file: a non-DICOM file or one without the JobID tag gets no job, otherwise the tag's value; a directory raises IsADirectory, a path below a regular file NotADirectory, and any other missing path FileNotFound |
| Ctp.GetJobFiles | app/idis/jobs/ctp.py:50-65 | one job file per file in the folder, each path once, each carrying the job its content names |
| Quarantine.ToQuarantineJobFile | app/idis/jobs/ctp.py:189-196 | keeps the job id and path and links the file to the mirror |
| Quarantine.LinkAllCount | app/idis/jobs/ctp.py:186-187 | linking a mirror's files keeps their number |
| Quarantine.IdisGetFiles | app/idis/jobs/ctp.py:172-187 | the mirror's `get_files`, each file linked to the mirror; fails exactly when `JobFolder.get_files` does |
| Quarantine.IdisFileCount | app/idis/jobs/ctp.py:172-187 | a mirror's count equals the number of its linked files |
| Quarantine.IdisUnknownJobFiles | app/idis/jobs/ctp.py:362-367 | the mirror's unknown files, each linked to the mirror |
| Quarantine.CreateCtpFolderMapping | app/idis/jobs/ctp.py:247-271 | one active mirror per CTP folder, in order, under the active base |
| Quarantine.CreateArchiveMapping | app/idis/jobs/ctp.py:387-406 | one archive mirror per active mirror, in order, under the archived base |
| Quarantine.NewQuarantine | app/idis/jobs/ctp.py:215-232 | the constructor's mappings are consistent: every active mirror lies under `base/active`, every archive mirror under `base/archived`, and each archive pair starts at the matching active mirror |
| Quarantine.MirrorLayout | app/idis/jobs/ctp.py:228-232 | CTP folder N maps to `base/active/N` with the CTP folder's description, and that mirror maps to `base/archived/N`, described as `Archive for ` plus the active description |
| Quarantine.QuarantineGetFiles | app/idis/jobs/ctp.py:297-318 | the loop yields the concatenation, as a multiset, of all mirrors' linked files, or the first mirror's error |
| Quarantine.AllFilesMembers | app/idis/jobs/ctp.py:312-318 | every listed file carries the job id and is a file directly in its mirror's job directory; every such file is listed |
| Quarantine.NoFilesForJob | app/idis/jobs/ctp.py:312-344 | where no mirror has a file for the job, `get_files` is empty and `get_file_count` is 0 |
| Quarantine.QuarantineGetFileCount | app/idis/jobs/ctp.py:320-344 | the loop yields the sum of the mirrors' counts, or the first mirror's error |
| Quarantine.CountIsSize | app/idis/jobs/ctp.py:320-344 | the total count equals the number of files `get_files` lists, and fails exactly when it fails |
| Quarantine.QuarantineGetUnknownJobFiles | app/idis/jobs/ctp.py:346-371 | the loop yields the union, as a multiset, of all mirrors' linked unknown files, or the first mirror's error |
| Quarantine.AllUnknownMembers | app/idis/jobs/ctp.py:361-371 | exactly the files in the mirrors' `UNKNOWN` directories, each with no job and linked to its mirror |
| Quarantine.QuarantineGetJobIds | app/idis/jobs/ctp.py:373-385 | the loop yields the union of all mirrors' job ids, duplicates removed, or the first mirror's error |
| Quarantine.AllJobIdsMembers | app/idis/jobs/ctp.py:382-385 | an id is listed exactly when some mirror lists it |
| Quarantine.GoneJobIsNotListedAnywhere | app/idis/jobs/ctp.py:382-385 | a job id other than 0 with no directory in any mirror is not listed, given canonical numeric directory names |
| Quarantine.ScrapeJobFile | app/idis/jobs/ctp.py:283-284 | one `move_job_file` of a CTP file into its mirror's job directory: it fails exactly when a regular file lies at or on the way to that job directory, with the FileExists or NotADirectory error `mkdir(parents=True)` raises there; on success the moved-file map gains that file (or, for a file an earlier step had sorted into this folder, that earlier entry is redirected), and the scrape invariant holds: each moved original is at a distinct path, holding its original content, in the directory for the job its content names of its own folder's mirror (or of a mirror whose CTP folder itself sits in a mirror), and every other file is unchanged; when no mirror lies inside another and no regular file lies on the way to a mirror or directly in one, the move succeeds and that condition still holds after it |
| Quarantine.ScrapeFolder | app/idis/jobs/ctp.py:280-284 | keeps the scrape invariant over the folders scraped so far; succeeds when no mirror lies inside another and no regular file lies on the way to a mirror or directly in one, and then every original file of this folder is in the moved-file map; fails only with `mkdir`'s FileExists or NotADirectory error |
| Quarantine.Scrape | app/idis/jobs/ctp.py:273-284 | the file count is kept; a ghost map sends each moved original CTP file to its new path, distinct for distinct files, holding the original's content; files outside the CTP folders are untouched; it succeeds when no mirror lies inside another and no regular file lies on the way to a mirror or directly in one, and fails only with `mkdir`'s FileExists or NotADirectory error; on success the map's keys are exactly the original files of the CTP folders; when no CTP folder sits in a mirror, each file went to the job directory of its own folder's mirror for the job its content names, and a completed scrape leaves the CTP folders empty |
| Quarantine.ScrapeKeepsOthers | app/idis/jobs/ctp.py:273-284 | every file outside the folders scraped so far is kept, with its content |
| Quarantine.EveryFileOriginalOrSorted | app/idis/jobs/ctp.py:280-284 | at every point of the scrape, each file is an unmoved original, unchanged, or sits in a mirror's directory for the job its own content names |
| Quarantine.ScrapeSortsIntoOwnMirror | app/idis/jobs/ctp.py:280-284 | when no CTP folder sits in a mirror, each moved file holds its original content at its new path, which is in the job directory of the mirror paired with the file's own CTP folder |
| Quarantine.ScrapedFoldersAreEmpty | app/idis/jobs/ctp.py:280-284 | after a complete scrape the CTP folders hold no files, given that no CTP folder sits in a mirror |
| Quarantine.JobDirsApart | app/idis/jobs/ctp.py:228-232 | active and archived job directories never lie inside one another, so archiving cannot move a file back |
| Quarantine.ArchiveMirror | app/idis/jobs/ctp.py:294-295 | one `move_job_data` from an active mirror to its archive keeps the archive invariant, and each file it moves goes from that mirror's job directory to that archive's job directory; it succeeds exactly when the job has no files in the mirror, or its files can be listed, no regular file lies at or on the way to the archive job directory, and the active job directory has no sub-directory; the only directories it adds are the archive job directory and its ancestors |
| Quarantine.Archive | app/idis/jobs/ctp.py:286-295 | the file count is kept; moved files come from the active job directories and go, with their content, to distinct fresh paths in the archive job directories; each moved file goes from active mirror N's job directory to the job directory of archive N, the archive paired with that mirror; it succeeds when no archive job directory lies inside another, no regular file lies at or on the way to an active or archive job directory, and no directory lies directly in an active job directory; when no mirror raises, every file the job had in an active mirror has moved and an active job directory is still there only if it existed before and held no file |
| Quarantine.ArchivePairsLayout | app/idis/jobs/ctp.py:228-232 | in a quarantine the constructor built, every (active, archive) job-directory pair archive moves along is `base/active/N` to `base/archived/N` for a CTP folder named N |
| Quarantine.NewQuarantineNoneInside | app/idis/jobs/ctp.py:228-232 | in a quarantine the constructor built from CTP folders other than the root, no active mirror lies inside another and no archive job directory lies inside another, which is the part of the success conditions of scrape and archive the layout settles |
| Quarantine.ArchiveKeepsOthers | app/idis/jobs/ctp.py:294-295 | every file outside the job's active directories, including all other jobs' files, is kept unchanged |
| Quarantine.ArchivedJobHasNoFiles | app/idis/jobs/ctp.py:294-295 | after an archive that did not raise, `get_files(job_id)` is empty and `get_file_count(job_id)` is 0 |
| Quarantine.ArchivedJobIsNotListed | app/idis/jobs/ctp.py:294-295 | after an archive of a job id other than 0 that did not raise, the job is not in `get_job_ids()`, given that each of its active directories that existed held a file and the numeric directory names are canonical |
| Quarantine.ArchiveCount | app/idis/jobs/ctp.py:294-295 | after an archive that did not raise, the archive job directories hold as many more files as the active ones held before |

## Left out

- The real file system is left out: permissions, symbolic links, atomicity of rename versus copy, and races with CTP or other writers. The store is a set of directories and a map of files, and each operation is one step.
- Random names: `uuid.uuid4()` becomes a choice of any name not yet taken. The model does not show that the `while path.exists()` loop ends; a fresh name is chosen in one step.
- pydicom (`dcmread`, `add_private_dict_entries`, `InvalidDicomError`) is not part of this model. A file's content is already parsed: `None` for a non-DICOM file, otherwise its private elements as (creator, name, value). Job id values are integers.
- Listing order: `iterdir`/`glob` order is unspecified, so per-folder listings are sets and cross-mirror listings multisets.
- `get_job_ids` of a mirror is a sequence as in the source; the quarantine's `list(set(ids))` is a set.
- The dictionaries `ctp_folder_mapping` and `archive_mapping` are keyed by folder objects compared by identity. They are modelled as sequences of pairs in construction order, which is the order Python iterates them in.
- Quarantine.CreateCtpFolderMapping: when the same `CTPQuarantineFolder` object is passed twice, the dictionary keeps one key, holding the last mirror built for it. The model keeps both entries. `CTPQuarantineFolder` has no `__eq__` or `__hash__`, so only the very same object collapses; two objects for one path stay apart in the source too.
- Paths are not normalised (`.`, `..`, case). Unicode white space and digits in `int()` are left out; only ASCII ones are modelled.
- `int()` accepts names such as `05` or ` 5`, which `str` never produces. The lemmas about a job no longer being listed require canonical numeric directory names for that reason.
- Renaming a directory is left out: `move_job_file` is only ever given regular files here.
- `IDISServer` (both copies) and `JobFileParseException` are left out: they are unused placeholders.
- `JobFile.exists`, `JobFile.name` and the `__str__` methods are left out: they are presentation helpers with no behaviour to state.
- `app/idis/pipeline/tasks.py`, the Django models, settings, ORM and celery configuration are not part of this model.
- Quarantine.Archive: when the job has an empty directory in an active mirror, `move_job_data` leaves it, so the job stays in `get_job_ids()`. `ArchivedJobIsNotListed` therefore requires that every existing active job directory held a file.
- Quarantine.Archive: a mirror that raises stops the loop. The files already moved stay moved, and the contract then states only where they went.
- Quarantine.Archive: the success condition is sufficient, not exact. A blocked archive job directory does no harm to a mirror with no files for the job, and a sub-directory in an active job directory only stops `rmdir` when that mirror has files. `ArchiveMirror` states its own success exactly.
- Quarantine.Scrape: a move that raises stops the scrape, and files already moved stay in the mirrors. The emptiness of the CTP folders is stated only for a scrape that completed.
- Quarantine.Scrape: the success condition is sufficient, not exact. A regular file on the way to a mirror, or directly in one, only stops the scrape when the job directory of some CTP file runs into it; stating exactly which files do would mean replaying the scrape. `ScrapeJobFile` states its failure exactly.
- Quarantine.Scrape: a CTP folder can sit directly in a mirror, where it is one of that mirror's job directories. Files sorted into it are then moved again when that folder's turn comes, so they end in a later mirror. Only in that case is a file's destination stated as some mirror's job directory rather than its own folder's mirror. The own-mirror pairing and the empty CTP folders are proved when no CTP folder sits in a mirror.
- FileHandling.GoneJobIsNotListed: holds for job ids other than 0 only. Job 0 is falsy, so its directory is `UNKNOWN` (`filehandling.py:130-133`), while a directory named `0` still lists 0; `ZeroIsListedByAnotherDir` shows this.
- Quarantine.GoneJobIsNotListedAnywhere: holds for job ids other than 0 only, for the reason given for `GoneJobIsNotListed`.
- Quarantine.ArchivedJobIsNotListed: holds for job ids other than 0 only. Archiving job 0 empties the mirrors' `UNKNOWN` directories and leaves any directory named `0`, so 0 can stay listed.
- Quarantine.ArchiveCount: counts the archive as a whole, summed over the mirrors, not mirror by mirror.
