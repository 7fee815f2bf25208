/** Where the lock file lives and the guard that seeds it when absent. */
module Lock {
  import opened Wrappers
  import opened Packages

  /** A file path: a directory joined with a file name. Path normalisation
      is not part of this model, so the two parts are kept apart. */
  datatype Path = Path(dir: string, file: string)

  const LockFileName: string := "poetry.lock"

  /** What `set_lock_data` records: the root project and the packages of the
      companion repository. */
  datatype LockData = LockData(root: ProjectPackage, packages: seq<Package>)

  /** The lock files present on disk, by path. */
  type LockStore = map<Path, LockData>

  /** An environment variable counts as set only when it is present and
      non-empty (Python truthiness of the string). */
  predicate IsSetNonEmpty(v: Option<string>) {
    v.Some? && v.value != ""
  }

  /** The lock path: POETRY_HOME when set and non-empty, DATA_DIR otherwise,
      joined with "poetry.lock". */
  function LockPath(poetryHome: Option<string>, dataDir: string): (p: Path)
    ensures p.file == LockFileName
    ensures p.dir == dataDir || Some(p.dir) == poetryHome
    ensures p.dir == "" ==> dataDir == ""
  {
    Path(if IsSetNonEmpty(poetryHome) then poetryHome.value else dataDir, LockFileName)
  }

  /** A set, non-empty POETRY_HOME decides the lock path on its own. */
  lemma LockPathFromHome(home: string, dataDir1: string, dataDir2: string)
    requires home != ""
    ensures LockPath(Some(home), dataDir1) == LockPath(Some(home), dataDir2)
    ensures LockPath(Some(home), dataDir1).dir == home
  {
  }

  /** An empty POETRY_HOME behaves exactly like an unset one. */
  lemma LockPathEmptyHomeIsUnset(dataDir: string)
    ensures LockPath(Some(""), dataDir) == LockPath(None, dataDir)
    ensures LockPath(None, dataDir).dir == dataDir
  {
  }

  /** `locker.is_locked()`: a lock file exists at the path. */
  predicate IsLocked(store: LockStore, path: Path) {
    path in store
  }

  /** The guard: seed the lock with (root, packages) only when it is absent. */
  function GuardLock(store: LockStore, path: Path, root: ProjectPackage, packages: seq<Package>): (s: LockStore)
    ensures IsLocked(s, path)
    ensures IsLocked(store, path) ==> s == store
    ensures !IsLocked(store, path) ==> s[path] == LockData(root, packages)
    ensures forall q :: q != path ==> (q in s <==> q in store)
    ensures forall q :: q != path && q in store ==> s[q] == store[q]
  {
    if IsLocked(store, path) then store else store[path := LockData(root, packages)]
  }

  /** Running the guard a second time, with any root and packages, changes
      nothing: an existing lock is never overwritten. */
  lemma GuardLockIdempotent(store: LockStore, path: Path,
                            root1: ProjectPackage, packages1: seq<Package>,
                            root2: ProjectPackage, packages2: seq<Package>)
    ensures GuardLock(GuardLock(store, path, root1, packages1), path, root2, packages2)
         == GuardLock(store, path, root1, packages1)
  {
  }
}
