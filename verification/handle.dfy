/** The plugin install command's handler: build the root project and the
    companion repository from the installed-package snapshot, merge the
    plugins, pin the runtime version, seed the lock if absent, configure the
    installer and return what its `run()` returns. */
module PluginInstall {
  import opened Wrappers
  import opened Packages
  import opened Snapshot
  import opened Plugins
  import opened PythonVersion
  import opened Lock
  import opened Installer

  /** Everything the handler reads from outside: the parsed plugin records,
      the system environment's installed packages and version tuple, the
      resolver's unsafe package names, and the POETRY_HOME / DATA_DIR
      settings that locate the lock file. */
  datatype Invocation = Invocation(
    plugins: seq<PluginRecord>,
    installed: seq<Package>,
    unsafe: set<string>,
    versionInfo: seq<nat>,
    poetryHome: Option<string>,
    dataDir: string)

  /** What the installer is constructed with and told before `run()`. */
  datatype Installation = Installation(
    root: ProjectPackage,
    repository: seq<Package>,
    lockPath: Path,
    lock: LockData,
    calls: seq<InstallerCall>)

  /** The outcome of the handler: the returned status (or the exception
      raised), the lock files on disk after the lock guard and before
      `run()` (whatever `run()` itself writes is not part of this model),
      and the installer, if one was constructed. */
  datatype Effect = Effect(status: Result<int, Error>, locks: LockStore, installer: Option<Installation>)

  /** The handler proceeds past the root-building steps exactly when every
      plugin record is named and a host record survives the unsafe filter. */
  predicate CanBuildRoot(inv: Invocation) {
    AllNamed(inv.plugins) && LastHost(inv.installed, inv.unsafe).Some?
  }

  /** The handler. `run` stands for `Installer.run()`. */
  function Handle(inv: Invocation, locks: LockStore, run: Installation -> int): (e: Effect)
    ensures e.status.Failure? <==> !CanBuildRoot(inv)
    ensures e.status.Failure? ==> e.locks == locks && e.installer.None?
    ensures e.status.Success? ==> e.installer.Some? && e.status.value == run(e.installer.value)
  {
    var parts := Partition(inv.installed, inv.unsafe);
    PartitionSpec(inv.installed, inv.unsafe);
    match MergePlugins(Merged(parts.root, []), inv.plugins)
    case Failure(err) =>
      MergeOutcome(parts.root, inv.plugins);
      Effect(Failure(err), locks, None)
    case Success(merged) =>
      MergeOutcome(parts.root, inv.plugins);
      match merged.root
      case None => Effect(Failure(NoneAttribute("python_versions")), locks, None)
      case Some(built) =>
        var root := built.(pythonVersions := Some(PythonVersions(inv.versionInfo)));
        var path := LockPath(inv.poetryHome, inv.dataDir);
        var locks' := GuardLock(locks, path, root, parts.repository);
        var installation := Installation(root, parts.repository, path, locks'[path], Configuration(merged.names));
        Effect(Success(run(installation)), locks', Some(installation))
  }

  /** Whether the plugin loop succeeds, and whether a root comes out of it,
      in terms of the records and the root going in. */
  lemma MergeOutcome(root: Option<ProjectPackage>, plugins: seq<PluginRecord>)
    ensures MergePlugins(Merged(root, []), plugins).Success?
        <==> AllNamed(plugins) && (root.Some? || |plugins| == 0)
    ensures MergePlugins(Merged(root, []), plugins).Success? ==>
              MergePlugins(Merged(root, []), plugins).value.root.Some? == root.Some?
  {
    match root
    case Some(r) => MergeWithRoot(r, [], plugins);
    case None => MergeWithoutRoot([], plugins);
  }

  /** When the handler gets past the root-building steps, the installer
      receives: the root built from the last host record with the host's
      requirements followed by one dependency per plugin, the runtime
      version pinned; the companion packages in snapshot order; the plugin
      names as whitelist, update on and untracked removal off; and a lock
      that was seeded with exactly that root and those packages if, and
      only if, none existed. */
  lemma HandleSucceeds(inv: Invocation, locks: LockStore, run: Installation -> int)
    requires CanBuildRoot(inv)
    ensures var e := Handle(inv, locks, run);
      var host := LastHost(inv.installed, inv.unsafe).value;
      var ins := e.installer.value;
      && e.status == Success(run(ins))
      && ins.root.name == HostName
      && ins.root.version == host.version
      && ins.root.dependencies == host.requirements + PluginDependencies(inv.plugins)
      && |ins.root.dependencies| == |host.requirements| + |inv.plugins|
      && ins.root.pythonVersions == Some(PythonVersions(inv.versionInfo))
      && ins.repository == Companions(inv.installed, inv.unsafe)
      && ins.calls == [DryRun, Whitelist(PluginNames(inv.plugins)), Update(true), RemoveUntracked(false)]
      && ins.lockPath == LockPath(inv.poetryHome, inv.dataDir)
      && ins.lockPath in e.locks
      && ins.lock == e.locks[ins.lockPath]
      && (ins.lockPath in locks ==> e.locks == locks)
      && (ins.lockPath !in locks ==>
            e.locks == locks[ins.lockPath := LockData(ins.root, ins.repository)])
  {
    var host := LastHost(inv.installed, inv.unsafe).value;
    PartitionSpec(inv.installed, inv.unsafe);
    RootForCopies(host);
    MergeWithRoot(RootFor(host), [], inv.plugins);
    assert [] + PluginNames(inv.plugins) == PluginNames(inv.plugins);
  }

  /** Whatever mode flags the installer starts with, the calls the handler
      records leave it whitelisting exactly the plugin names, in update mode,
      never removing untracked packages, and in `dry_run()`'s default mode. */
  lemma HandleInstallerFlags(inv: Invocation, locks: LockStore, run: Installation -> int,
                             initial: Flags, dryRunDefault: bool)
    requires CanBuildRoot(inv)
    ensures ApplyAll(initial, Handle(inv, locks, run).installer.value.calls, dryRunDefault)
         == Flags(dryRunDefault, PluginNames(inv.plugins), true, false)
  {
    HandleSucceeds(inv, locks, run);
    ConfigurationOverrides(initial, PluginNames(inv.plugins), dryRunDefault);
  }

  /** Without a surviving host record the handler raises on the `None` root
      (or on the first unnamed plugin record, whose `pop` comes first):
      no lock is written and no installer is constructed. */
  lemma HandleFailsWithoutHost(inv: Invocation, locks: LockStore, run: Installation -> int)
    requires forall i :: 0 <= i < |inv.installed| ==> !IsHost(inv.installed[i], inv.unsafe)
    ensures var e := Handle(inv, locks, run);
      && e.locks == locks
      && e.installer.None?
      && e.status == Failure(
           if |inv.plugins| == 0 then NoneAttribute("python_versions")
           else if "name" in inv.plugins[0] then NoneAttribute("add_dependency")
           else KeyError("name"))
  {
    PartitionWithoutHost(inv.installed, inv.unsafe);
    MergeWithoutRoot([], inv.plugins);
  }

  /** The installer never sees an unsafe package or the host record among
      the companion packages, and the root is always the host. */
  lemma HandleExcludesUnsafe(inv: Invocation, locks: LockStore, run: Installation -> int)
    requires Handle(inv, locks, run).installer.Some?
    ensures var ins := Handle(inv, locks, run).installer.value;
      && (forall q :: q in ins.repository ==> q.name !in inv.unsafe && q.name != HostName)
      && ins.root.name == HostName && HostName !in inv.unsafe
  {
    HandleSucceeds(inv, locks, run);
    PartitionSpec(inv.installed, inv.unsafe);
  }

  /** Running the handler again against the lock files it left behind
      seeds nothing new, whether or not the first run got past the
      root-building steps. */
  lemma HandleLockIdempotent(inv: Invocation, locks: LockStore, run: Installation -> int)
    ensures Handle(inv, Handle(inv, locks, run).locks, run).locks == Handle(inv, locks, run).locks
  {
    if CanBuildRoot(inv) {
      HandleSucceeds(inv, locks, run);
      HandleSucceeds(inv, Handle(inv, locks, run).locks, run);
    }
  }

  // ---------------------------------------------------------------------
  // A worked example: a snapshot holding the host 1.0 (requiring A>=1.0),
  // A 1.2 and an unsafe pip; one plugin "B"; Python 3.9.1.

  const ExampleReqA := Dependency("A", map["version" := ">=1.0"])
  const ExampleHost := Package("poetry", "1.0", [ExampleReqA])
  const ExamplePkgA := Package("A", "1.2", [])
  const ExamplePip := Package("pip", "21.0", [])
  const ExamplePlugin: PluginRecord := map["name" := "B"]
  const ExampleInvocation := Invocation(
    [ExamplePlugin], [ExampleHost, ExamplePkgA, ExamplePip],
    {"pip"}, [3, 9, 1, 0], None, "/data")

  lemma ExampleCompanions()
    ensures Companions(ExampleInvocation.installed, {"pip"}) == [ExamplePkgA]
  {
    var installed := ExampleInvocation.installed;
    assert installed[1..] == [ExamplePkgA, ExamplePip];
    assert installed[1..][1..] == [ExamplePip];
    assert Companions([ExamplePip], {"pip"}) == [] by { assert [ExamplePip][1..] == []; }
  }

  lemma ExampleVersion()
    ensures PythonVersions([3, 9, 1, 0]) == "3.9.1"
  {
    assert Leading3([3, 9, 1, 0]) == [3, 9, 1];
    assert Texts([3, 9, 1]) == ["3", "9", "1"];
  }

  /** The root asks for A>=1.0 then B, the repository holds only A 1.2, the
      installer is told to whitelist just B, and with no lock on disk the
      lock is seeded under DATA_DIR. */
  lemma HandleExample(run: Installation -> int)
    ensures var e := Handle(ExampleInvocation, map[], run);
      && e.installer.Some?
      && e.installer.value.root.dependencies == [ExampleReqA, Dependency("B", map[])]
      && e.installer.value.root.pythonVersions == Some("3.9.1")
      && e.installer.value.repository == [ExamplePkgA]
      && e.installer.value.calls == [DryRun, Whitelist(["B"]), Update(true), RemoveUntracked(false)]
      && e.locks == map[Path("/data", "poetry.lock") := LockData(e.installer.value.root, [ExamplePkgA])]
  {
    var inv := ExampleInvocation;
    assert IsLastHostAt(inv.installed, inv.unsafe, 0);
    LastHostIsLast(inv.installed, inv.unsafe, 0);
    HandleSucceeds(inv, map[], run);
    assert ExamplePlugin - {"name"} == map[];
    assert PluginDependencies([ExamplePlugin]) == [Dependency("B", map[])];
    assert PluginNames([ExamplePlugin]) == ["B"];
    ExampleCompanions();
    ExampleVersion();
  }
}
