# Plugin install handler — Dafny model

This project models the handler of the `plugin install` command
(`PluginInstallCommand.handle` in `poetry/console/commands/plugin/install.py`).
The handler turns two inputs into the inputs of the package installer:

* the installed-package snapshot of the system environment, and
* the parsed plugin requirement records.

It makes one pass over the snapshot. Packages whose names are in the
resolver's unsafe set are skipped. Each `poetry` record replaces the root
project with a fresh one that has the same name and version and copies the
record's requirements. Every other package goes, unchanged, into a companion
repository. The handler then pops `name` from each plugin record, appends a
dependency built from it to the root, and collects the names. It pins the
root's `python_versions` to the first three components of the interpreter
version, joined with `.`. If no lock file exists at
`$POETRY_HOME/poetry.lock` (or `DATA_DIR/poetry.lock` when `POETRY_HOME` is
unset or empty), it seeds one with the root and the repository. It then makes
four mode calls on the installer and returns what `run()` returns.

Modules:

| file | module | what it holds |
|---|---|---|
| `wrappers.dfy` | `Wrappers` | `Option` and `Result` |
| `packages.dfy` | `Packages` | `Dependency`, `Package`, `ProjectPackage`, plugin records, `add_dependency`, `dict.pop`, the handler's exceptions |
| `snapshot.dfy` | `Snapshot` | the partition loop (lines 79-91) and its reference definitions (`Companions`, `LastHost`) |
| `plugins.dfy` | `Plugins` | the plugin loop (lines 93-97) and its reference definitions (`PluginNames`, `PluginDependencies`) |
| `pythonversion.dfy` | `PythonVersion` | `str` of a natural number, `".".join`, `split(".")`, the version string (lines 99-101) |
| `lock.dfy` | `Lock` | the lock path (lines 106-109) and the lock guard (lines 110-111) |
| `installer.dfy` | `Installer` | the installer mode calls made at lines 122-125, and an assumed reading of them as flag assignments |
| `handle.dfy` | `PluginInstall` | `Handle`, the whole handler, with its end-to-end properties |

Collaborators that the handler only calls are parameters or plain
constructors:
* `Provider.UNSAFE_PACKAGES` is the `unsafe` parameter.
* The environment snapshot and `version_info` are fields of `Invocation`.
* `POETRY_HOME` and `DATA_DIR` are also fields of `Invocation`.
* `Factory.create_dependency` is the constructor `Dependency(name, attributes)`.
* The lock files on disk are a `map<Path, LockData>`.
* `Installer.run()` is a function parameter `Installation -> int`.

Three behaviours of the code are worth stating plainly:
* There is no named host-not-found error. Without a `poetry` record,
  `root_package` stays `None` and the handler raises an attribute error on
  it: at line 96 (`add_dependency`) when there is a plugin, or at line 99
  (`python_versions`) when there is none. If the first plugin record has no
  `name`, its `pop` raises `KeyError` first. In every failure case no lock is
  written and no installer is built (`HandleFailsWithoutHost`).
* Plugins with the same name are not merged: `add_dependency` appends, so a
  plugin named twice gives two dependencies (`DuplicatePluginsKept`), and the
  root's dependency count is always `|requires| + |plugins|`.
* `dry_run()` is called with its default argument, which is not visible
  here. The model keeps it as the parameter `dryRunDefault`
  (`Installer.ConfigurationOverrides`).

## Model

| member | source | states |
|---|---|---|
| Packages.AddDependenciesAppends | poetry/console/commands/plugin/install.py:86-87 | copying requirements one `add_dependency` at a time appends them in order and changes no other field of the project |
| Packages.Pop | poetry/console/commands/plugin/install.py:95 | `pop("name")` succeeds iff the key is present; the remaining record lacks the key, agrees with the original elsewhere, and putting the value back restores the original |
| Packages.NewProject | poetry/console/commands/plugin/install.py:85 | a fresh root project carries exactly the given name and version, with no dependencies and no pinned runtime version |
| Packages.CreateDependency | poetry/console/commands/plugin/install.py:96 | no contract; `Factory.create_dependency` treated as a constructor keeping the name and the rest of the record; characterised through `Plugins.MergeWithRoot` |
| Packages.AddDependency | poetry/console/commands/plugin/install.py:87 | no contract; `add_dependency` as an append; characterised by `Packages.AddDependenciesAppends` |
| Packages.AddDependencies | poetry/console/commands/plugin/install.py:86-87 | no contract; the copy loop; characterised by `Packages.AddDependenciesAppends` |
| Snapshot.Step | poetry/console/commands/plugin/install.py:81-91 | no contract; one iteration of the partition loop; characterised by `Snapshot.FoldCharacterised` |
| Snapshot.Fold | poetry/console/commands/plugin/install.py:80-91 | no contract; the partition loop; characterised by `Snapshot.FoldCharacterised` |
| Snapshot.Partition | poetry/console/commands/plugin/install.py:79-91 | no contract; the loop from no root and an empty repository; characterised by `Snapshot.PartitionSpec` |
| Plugins.MergeOne | poetry/console/commands/plugin/install.py:95-97 | no contract; one iteration of the plugin loop; characterised by `Plugins.MergeWithRoot` and `Plugins.MergeWithoutRoot` |
| Plugins.MergePlugins | poetry/console/commands/plugin/install.py:93-97 | no contract; the plugin loop; characterised by `Plugins.MergeWithRoot` and `Plugins.MergeWithoutRoot` |
| PythonVersion.JoinDot | poetry/console/commands/plugin/install.py:99-100 | no contract; `".".join`; characterised by `PythonVersion.SplitJoin` |
| PythonVersion.Leading3 | poetry/console/commands/plugin/install.py:100 | `version_info[:3]` is a prefix of the tuple of length three, or the whole tuple when it is shorter |
| Lock.IsLocked | poetry/console/commands/plugin/install.py:110 | no contract; `is_locked()` as "a lock exists at the path"; characterised through `Lock.GuardLock` |
| Installer.Configuration | poetry/console/commands/plugin/install.py:122-125 | the handler makes exactly four mode calls; their combined effect is stated by `Installer.ConfigurationOverrides` |
| Installer.Apply | poetry/console/commands/plugin/install.py:122-125 | no contract; the assumed effect of one mode call (a plain flag assignment); characterised by `Installer.ConfigurationOverrides` |
| Snapshot.RootFor | poetry/console/commands/plugin/install.py:85-87 | no contract; the root built from a host record; characterised by `Snapshot.RootForCopies` |
| PythonVersion.Texts | poetry/console/commands/plugin/install.py:100 | one decimal text per component; characterised by `PythonVersion.PythonVersionsRoundTrip` |
| Lock.IsSetNonEmpty | poetry/console/commands/plugin/install.py:107 | no contract; the truthiness test on `POETRY_HOME`; characterised by `Lock.LockPathFromHome` and `Lock.LockPathEmptyHomeIsUnset` |
| PluginInstall.HandleInstallerFlags | poetry/console/commands/plugin/install.py:122-125 | whatever flags the installer starts with, the handler's recorded calls leave it whitelisting exactly the plugin names in argument order, in update mode, not removing untracked packages, in `dry_run()`'s default mode |
| Snapshot.Companions | poetry/console/commands/plugin/install.py:80-91 | the companion subsequence holds only snapshot packages that are neither unsafe nor `poetry`, and it holds every such package |
| Snapshot.CompanionsSnoc | poetry/console/commands/plugin/install.py:80-91 | appending a package to the snapshot appends it to the companions exactly when it is neither unsafe nor `poetry`, so the snapshot order is kept |
| Snapshot.LastHost | poetry/console/commands/plugin/install.py:84-89 | the chosen host record is a surviving `poetry` record of the snapshot; there is none exactly when no record is both named `poetry` and outside the unsafe set |
| Snapshot.LastHostIsLast | poetry/console/commands/plugin/install.py:84-89 | the chosen host record is the one at the last `poetry` position |
| Snapshot.FoldCharacterised | poetry/console/commands/plugin/install.py:79-91 | from any start state, the loop ends with the root built from the last host record (or the start root if none) and with the companions appended to the start repository |
| Snapshot.PartitionSpec | poetry/console/commands/plugin/install.py:79-91 | starting from no root and an empty repository, the repository is exactly the companion subsequence and the root is built from the last host record |
| Snapshot.RootForCopies | poetry/console/commands/plugin/install.py:85-87 | the root gets the host record's name and version, and its dependencies are the record's requirements in order |
| Snapshot.PartitionExcludes | poetry/console/commands/plugin/install.py:80-91 | no unsafe package and no `poetry` package enters the repository; a root exists only with the name `poetry`, and only when `poetry` is not unsafe |
| Snapshot.PartitionRootIsLastHost | poetry/console/commands/plugin/install.py:84-89 | when there are several `poetry` records, the root takes the version and requirements of the last one |
| Snapshot.PartitionWithoutHost | poetry/console/commands/plugin/install.py:79-89 | the root stays `None` exactly when no `poetry` record survives the unsafe filter |
| Plugins.MergeWithRoot | poetry/console/commands/plugin/install.py:93-97 | with a root, the loop succeeds iff every record has `name`; on success it appends one dependency per plugin in argument order, with no merging by name, and the names in the same order |
| Plugins.MergeWithoutRoot | poetry/console/commands/plugin/install.py:93-96 | without a root, the loop fails on the first record: `KeyError` if it has no name, otherwise the attribute error on `None`; with no plugins it succeeds and changes nothing |
| Plugins.DuplicatePluginsKept | poetry/console/commands/plugin/install.py:94-97 | two plugins with the same name produce two dependencies and two whitelist entries |
| PythonVersion.NatToString | poetry/console/commands/plugin/install.py:100 | `str(n)` is a non-empty string of decimal digits, with no leading zero except in "0" |
| PythonVersion.ParseNatToString | poetry/console/commands/plugin/install.py:100 | reading the decimal text of a number gives back the number |
| PythonVersion.SplitJoin | poetry/console/commands/plugin/install.py:99-101 | splitting on "." undoes joining with "." for at least one dot-free piece |
| PythonVersion.PythonVersions | poetry/console/commands/plugin/install.py:99-101 | the version string contains only digits and dots, and it is empty exactly when the version tuple is empty |
| PythonVersion.PythonVersionsRoundTrip | poetry/console/commands/plugin/install.py:99-101 | reading the version string back gives exactly `version_info[:3]` (all components when there are fewer than three) |
| Lock.LockPath | poetry/console/commands/plugin/install.py:106-109 | the lock file is named `poetry.lock`, and its directory is either `DATA_DIR` or the value of `POETRY_HOME` |
| Lock.LockPathFromHome | poetry/console/commands/plugin/install.py:106-109 | a set, non-empty `POETRY_HOME` alone decides the lock directory, whatever `DATA_DIR` is |
| Lock.LockPathEmptyHomeIsUnset | poetry/console/commands/plugin/install.py:106-108 | an empty `POETRY_HOME` gives the same lock path as an unset one, which is under `DATA_DIR` |
| Lock.GuardLock | poetry/console/commands/plugin/install.py:109-111 | after the guard a lock exists at the path; an existing lock is left untouched; an absent lock is seeded with (root, packages); lock files at other paths do not change |
| Lock.GuardLockIdempotent | poetry/console/commands/plugin/install.py:110-111 | a second run of the guard, with any root and packages, changes nothing |
| Installer.ConfigurationOverrides | poetry/console/commands/plugin/install.py:122-125 | whatever flags the installer starts with, after the four calls it whitelists exactly the plugin names, runs in update mode, never removes untracked packages, and uses the dry-run mode that `dry_run()` selects |
| PluginInstall.MergeOutcome | poetry/console/commands/plugin/install.py:93-97 | the plugin loop succeeds iff every record has `name` and either a root exists or there are no plugins; on success the root stays present or absent as it was |
| PluginInstall.Handle | poetry/console/commands/plugin/install.py:47-127 | the handler fails iff a plugin record has no `name` or no `poetry` record survives; on failure no lock is written and no installer is built; on success it returns `run()` of the installer it built |
| PluginInstall.HandleSucceeds | poetry/console/commands/plugin/install.py:79-127 | on success: root = last host's name and version; deps = host requires + one per plugin (count is their sum); runtime version pinned; repository = companions in order; the four calls with the plugin names; lock seeded iff absent |
| PluginInstall.HandleFailsWithoutHost | poetry/console/commands/plugin/install.py:79-101 | without a `poetry` record: no lock written, no installer built, and it raises `KeyError` for an unnamed first record, else the attribute error at line 96 (plugins given) or line 99 (none) |
| PluginInstall.HandleExcludesUnsafe | poetry/console/commands/plugin/install.py:80-91 | the installer never gets an unsafe package or the `poetry` record in the companion repository, and its root is always the `poetry` project |
| PluginInstall.HandleLockIdempotent | poetry/console/commands/plugin/install.py:106-111 | running the handler again on the lock files it left behind writes nothing new |
| PluginInstall.HandleExample | poetry/console/commands/plugin/install.py:69-127 | a worked scenario: poetry 1.0 requiring A>=1.0, A 1.2 and an unsafe pip, plus plugin B on Python 3.9.1, gives root deps [A>=1.0, B], repository [A 1.2], whitelist [B], and a lock seeded under DATA_DIR |

## Left out

- Argument parsing (`self.argument`, `_determine_requirements`, lines 69-70): inherited from `InitCommand`, which is not part of this model. Plugins enter as already-parsed records with string values.
- `EnvManager.get_system_env` and `InstalledRepository.load` (lines 73-76): they read the live environment. The snapshot and the version tuple are inputs.
- `Pool` and `PyPiRepository` (lines 103-104): network clients. `Installation` has no index field.
- The installer's other constructor arguments (`self._io`, `system_env`, `self.poetry.config`, lines 113-121): output and configuration plumbing whose values do not enter the properties above.
- Exceptions raised by collaborators (`Factory.create_dependency`, `Locker`, `is_locked()`, `set_lock_data`, `self.poetry`, `Installer(...)` and its setters) are not modelled: every collaborator call is assumed to return normally. So `PluginInstall.Handle` and `PluginInstall.HandleSucceeds` cover only the handler's own exceptions. A collaborator failure at lines 113-125 would come after the lock was seeded at line 111, leaving a seeded lock and no installer, which the model does not express.
- `Installer.run()` (line 127): resolution and the filesystem install are an opaque function parameter.
- `Factory.create_dependency` (line 96): modelled as a constructor that keeps the name and the rest of the record, without parsing constraints or normalising names.
- `Locker`'s file format and content hash: the lock is `LockData(root, packages)`. `is_locked()` is modelled as "a lock file exists at the path".
- `Provider.UNSAFE_PACKAGES`: its contents are not part of this model. It is the parameter `unsafe`, and every property holds for any set.
- Package-name canonicalisation: names are compared as given, as line 84 compares them.
- The `home`, `bin`, `lib` and `plugins` properties (lines 29-45) and `expanduser`: OS path plumbing that the handler does not use.
- Lock path normalisation by `pathlib`: a path is kept as (directory, file name).
- The `ProjectPackage` constructor's default `python_versions`: it is not visible. Before the handler pins it, `pythonVersions` is `None`.
- The interpreter version tuple is a sequence of naturals: the release-level string a real version tuple carries at index 3 cannot be represented, which does not matter because only the first three components are read.
- Installer setters: `dry_run`, `whitelist`, `update` and `remove_untracked` are not part of this model; `Installer.Apply` assumes each one stores its argument in the matching flag.
- Writes that `Installer.run()` makes to the lock file are not modelled: `Effect.locks` is the lock store after the guard and before `run()`.
- Installer.ConfigurationOverrides: the dry-run flag is stated only relative to `dry_run()`'s default argument, which is not visible, so the model does not say whether the run is a simulation.
