/**
 * An abstract file tree standing in for the disk that the job folders live on:
 * a set of directories and a map from each regular file to what a DICOM reader
 * makes of its bytes. The methods are the filesystem calls the folders make
 * (mkdir with parents, rename, copyfile, rmdir), each with the outcome and the
 * exception the operating system gives.
 */
module Store {
  import opened Common

  /** A private DICOM element: its private creator, its name as pydicom shows it, and its value */
  datatype PrivateElement = PrivateElement(creator: string, name: string, value: int)

  /** The private elements of a file in dataset order, or None when the file is not DICOM */
  type Content = Option<seq<PrivateElement>>

  /** The OSError subclasses the filesystem calls raise */
  datatype OsError =
    | FileNotFound(path: Path)
    | FileExists(path: Path)
    | NotADirectory(path: Path)
    | IsADirectory(path: Path)
    | DirectoryNotEmpty(path: Path)
    | SameFile(path: Path)

  class FileStore {
    var dirs: set<Path>
    var files: map<Path, Content>

    /** A tree: the root is a directory and every other entry sits in a directory */
    ghost predicate Valid()
      reads this
    {
      IsTree(dirs, files)
    }

    /** An empty tree: only the root directory */
    constructor ()
      ensures Valid() && dirs == {[]} && files == map[]
    {
      dirs := {[]};
      files := map[];
    }

    predicate Exists(p: Path)
      reads this
    {
      p in dirs || p in files
    }

    predicate IsDir(p: Path)
      reads this
    {
      p in dirs
    }

    predicate IsFile(p: Path)
      reads this
    {
      p in files
    }

    /** The regular files directly inside `d` */
    function FilesIn(d: Path): (r: set<Path>)
      reads this
      ensures forall f :: f in r <==> f in files && f != [] && Parent(f) == d
    {
      set f | f in files && f != [] && Parent(f) == d
    }

    /** The directories directly inside `d` */
    function SubdirsIn(d: Path): (r: set<Path>)
      reads this
      ensures forall c :: c in r <==> c in dirs && c != [] && Parent(c) == d
    {
      set c | c in dirs && c != [] && Parent(c) == d
    }

    /** `d` is a directory with nothing in it */
    predicate IsEmptyDir(d: Path)
      reads this
    {
      d in dirs && FilesIn(d) + SubdirsIn(d) == {}
    }

    /** `p` or one of its ancestors is a regular file, so no directory can be made at `p` */
    predicate Blocked(p: Path)
      reads this
    {
      BlockedIn(files, p)
    }

    /** `Path.mkdir(parents=True, exist_ok=True)` */
    method MakeDirs(p: Path) returns (r: Result<(), OsError>)
      requires Valid()
      modifies this
      ensures Valid() && files == old(files)
      ensures r.Err? <==> old(Blocked(p))
      ensures r.Err? ==> dirs == old(dirs)
      ensures r.Err? ==> r.error == (if p in old(files) then FileExists(p) else NotADirectory(p))
      ensures r.Ok? ==> dirs == old(dirs) + Ancestors(p)
    {
      if p in files {
        assert Blocked(p) by { assert IsPrefix(p, p); }
        return Err(FileExists(p));
      }
      if Blocked(p) {
        return Err(NotADirectory(p));
      }
      var added := Ancestors(p);
      forall q | q in added && q != []
        ensures Parent(q) in added
      {
        assert IsPrefix(Parent(q), p) by { assert p[..|q|] == q; }
      }
      dirs := dirs + added;
      r := Ok(());
    }

    /** `os.rename(src, dst)` for a source that is not a directory */
    method Rename(src: Path, dst: Path) returns (r: Result<(), OsError>)
      requires Valid() && src !in dirs
      modifies this
      ensures Valid() && dirs == old(dirs)
      ensures r == RenameOutcome(old(dirs), old(files), src, dst)
      ensures r.Ok? ==> files == (old(files) - {src})[dst := old(files)[src]]
      ensures r.Err? ==> files == old(files)
    {
      r := RenameOutcome(dirs, files, src, dst);
      if r.Ok? {
        files := (files - {src})[dst := files[src]];
      }
    }

    /** `shutil.copyfile(src, dst)` */
    method CopyFile(src: Path, dst: Path) returns (r: Result<(), OsError>)
      requires Valid()
      modifies this
      ensures Valid() && dirs == old(dirs)
      ensures r == CopyOutcome(old(dirs), old(files), src, dst)
      ensures r.Ok? ==> files == old(files)[dst := old(files)[src]]
      ensures r.Err? ==> files == old(files)
    {
      r := CopyOutcome(dirs, files, src, dst);
      if r.Ok? {
        files := files[dst := files[src]];
      }
    }

    /** `os.rmdir(p)` */
    method Rmdir(p: FilePath) returns (r: Result<(), OsError>)
      requires Valid()
      modifies this
      ensures Valid() && files == old(files)
      ensures old(Blocked(p)) ==> r == Err(NotADirectory(p))
      ensures !old(Exists(p)) && !old(Blocked(p)) ==> r == Err(FileNotFound(p))
      ensures old(IsDir(p)) && !old(IsEmptyDir(p)) ==> r == Err(DirectoryNotEmpty(p))
      ensures old(IsEmptyDir(p)) ==> r == Ok(())
      ensures r.Ok? ==> dirs == old(dirs) - {p}
      ensures r.Err? ==> dirs == old(dirs)
    {
      if p !in dirs {
        if Blocked(p) {
          return Err(NotADirectory(p));
        }
        assert IsPrefix(p, p);
        return Err(FileNotFound(p));
      }
      DirIsNotBlocked(dirs, files, p);
      if FilesIn(p) + SubdirsIn(p) != {} {
        return Err(DirectoryNotEmpty(p));
      }
      RemoveEmptyDir(dirs, files, p);
      dirs := dirs - {p};
      r := Ok(());
    }
  }

  /** A tree: the root is a directory and every other entry sits in a directory */
  ghost predicate IsTree(dirs: set<Path>, files: map<Path, Content>)
  {
    && [] in dirs
    && files.Keys !! dirs
    && (forall d {:trigger Parent(d)} :: d in dirs ==> Parent(d) in dirs)
    && (forall f :: f in files ==> f != [] && Parent(f) in dirs)
  }

  /** Removing a directory that holds nothing leaves a tree */
  lemma RemoveEmptyDir(dirs: set<Path>, files: map<Path, Content>, p: FilePath)
    requires IsTree(dirs, files) && p in dirs
    requires forall c :: c in dirs && c != [] ==> Parent(c) != p
    requires forall f :: f in files ==> Parent(f) != p
    ensures IsTree(dirs - {p}, files)
  {
  }

  /** No ancestor of a directory is a regular file: in a tree, the way to a directory runs through directories */
  lemma {:induction false} DirIsNotBlocked(dirs: set<Path>, files: map<Path, Content>, p: Path)
    requires IsTree(dirs, files) && p in dirs
    ensures !BlockedIn(files, p)
    decreases |p|
  {
    if p != [] {
      DirIsNotBlocked(dirs, files, Parent(p));
      forall q | q in files && IsPrefix(q, p)
        ensures false
      {
        if q != p {
          assert IsPrefix(q, Parent(p));
        }
      }
    }
  }

  /** `p` or one of its ancestors is a regular file in `files` */
  predicate BlockedIn(files: map<Path, Content>, p: Path)
  {
    exists q :: q in files && IsPrefix(q, p)
  }

  /**
   * What `os.rename(src, dst)` does for a source that is not a directory. A
   * path under a regular file raises NotADirectory; a directory is never under
   * one (DirIsNotBlocked), so testing the parent directory first is safe.
   */
  function RenameOutcome(dirs: set<Path>, files: map<Path, Content>, src: Path, dst: Path): Result<(), OsError>
  {
    if src !in files then Err(if BlockedIn(files, src) then NotADirectory(src) else FileNotFound(src))
    else if Parent(dst) !in dirs then Err(if BlockedIn(files, Parent(dst)) then NotADirectory(dst) else FileNotFound(dst))
    else if dst in dirs then Err(IsADirectory(dst))
    else Ok(())
  }

  /** What `shutil.copyfile(src, dst)` does */
  function CopyOutcome(dirs: set<Path>, files: map<Path, Content>, src: Path, dst: Path): Result<(), OsError>
  {
    if src == dst && (src in dirs || src in files) then Err(SameFile(src))
    else if src in dirs then Err(IsADirectory(src))
    else if src !in files then Err(if BlockedIn(files, src) then NotADirectory(src) else FileNotFound(src))
    else if Parent(dst) !in dirs then Err(if BlockedIn(files, Parent(dst)) then NotADirectory(dst) else FileNotFound(dst))
    else if dst in dirs then Err(IsADirectory(dst))
    else Ok(())
  }
}
