/** The loop that merges the parsed plugin records into the root project
    and collects their names for the installer's whitelist. */
module Plugins {
  import opened Wrappers
  import opened Packages

  /** The state the loop carries: the (possibly absent) root project and the
      plugin names collected so far. */
  datatype Merged = Merged(root: Option<ProjectPackage>, names: seq<string>)

  /** One iteration: pop "name" (a `KeyError` if missing), then dereference
      the root (an attribute error on `None`), add the dependency built from
      the name and the rest of the record, and remember the name. */
  function MergeOne(acc: Merged, plugin: PluginRecord): Result<Merged, Error>
  {
    match Pop(plugin, "name")
    case None => Failure(KeyError("name"))
    case Some((name, rest)) =>
      match acc.root
      case None => Failure(NoneAttribute("add_dependency"))
      case Some(root) =>
        Success(Merged(Some(AddDependency(root, CreateDependency(name, rest))), acc.names + [name]))
  }

  /** The loop over the plugin records in argument order; the first failure
      aborts it. */
  function MergePlugins(acc: Merged, plugins: seq<PluginRecord>): Result<Merged, Error>
    decreases |plugins|
  {
    if |plugins| == 0 then Success(acc)
    else
      var next :- MergeOne(acc, plugins[0]);
      MergePlugins(next, plugins[1..])
  }

  // ---------------------------------------------------------------------
  // Reference definitions

  /** Every plugin record carries a "name" key. */
  predicate AllNamed(plugins: seq<PluginRecord>) {
    forall i :: 0 <= i < |plugins| ==> "name" in plugins[i]
  }

  /** The plugin names, in argument order. */
  function PluginNames(plugins: seq<PluginRecord>): (r: seq<string>)
    requires AllNamed(plugins)
    ensures |r| == |plugins|
  {
    seq(|plugins|, i requires 0 <= i < |plugins| => plugins[i]["name"])
  }

  /** One dependency per plugin, in argument order, built from the plugin's
      name and the rest of its record. */
  function PluginDependencies(plugins: seq<PluginRecord>): (r: seq<Dependency>)
    requires AllNamed(plugins)
    ensures |r| == |plugins|
  {
    seq(|plugins|, i requires 0 <= i < |plugins| =>
      CreateDependency(plugins[i]["name"], plugins[i] - {"name"}))
  }

  // ---------------------------------------------------------------------
  // The loop agrees with the reference definitions

  /** With a root present, the loop succeeds exactly when every record is
      named; it then appends one dependency per plugin to the root, in
      order and without merging by name, and appends the names. */
  lemma {:induction false} MergeWithRoot(root: ProjectPackage, names: seq<string>, plugins: seq<PluginRecord>)
    ensures MergePlugins(Merged(Some(root), names), plugins)
         == if AllNamed(plugins) then
              Success(Merged(
                Some(root.(dependencies := root.dependencies + PluginDependencies(plugins))),
                names + PluginNames(plugins)))
            else Failure(KeyError("name"))
    decreases |plugins|
  {
    if |plugins| > 0 {
      var p := plugins[0];
      var tail := plugins[1..];
      assert forall i :: 0 <= i < |tail| ==> tail[i] == plugins[i + 1];
      if "name" in p {
        var dep := CreateDependency(p["name"], p - {"name"});
        var root' := AddDependency(root, dep);
        MergeWithRoot(root', names + [p["name"]], tail);
        if AllNamed(plugins) {
          assert AllNamed(tail);
          assert PluginDependencies(plugins) == [dep] + PluginDependencies(tail);
          assert PluginNames(plugins) == [p["name"]] + PluginNames(tail);
          assert root.dependencies + [dep] + PluginDependencies(tail)
              == root.dependencies + PluginDependencies(plugins);
          assert names + [p["name"]] + PluginNames(tail) == names + PluginNames(plugins);
        } else {
          var k :| 0 <= k < |plugins| && "name" !in plugins[k];
          assert "name" !in tail[k - 1];
        }
      } else {
        assert !AllNamed(plugins) by { assert "name" !in plugins[0]; }
      }
    } else {
      assert PluginDependencies(plugins) == [];
      assert PluginNames(plugins) == [];
      assert root.dependencies + [] == root.dependencies;
      assert names + [] == names;
    }
  }

  /** Without a root, the loop succeeds only when there are no plugins; the
      first record fails with `KeyError` if unnamed and with the attribute
      error on the root otherwise. */
  lemma MergeWithoutRoot(names: seq<string>, plugins: seq<PluginRecord>)
    ensures MergePlugins(Merged(None, names), plugins)
         == if |plugins| == 0 then Success(Merged(None, names))
            else if "name" in plugins[0] then Failure(NoneAttribute("add_dependency"))
            else Failure(KeyError("name"))
  {
  }

  /** Plugins that share a name each get their own dependency: nothing in
      the merge replaces an earlier entry with a later one. */
  lemma DuplicatePluginsKept(root: ProjectPackage, older: PluginRecord, newer: PluginRecord)
    requires "name" in older && "name" in newer && older["name"] == newer["name"]
    ensures MergePlugins(Merged(Some(root), []), [older, newer]).Success?
    ensures MergePlugins(Merged(Some(root), []), [older, newer]).value.root.Some?
    ensures MergePlugins(Merged(Some(root), []), [older, newer]).value.root.value.dependencies
         == root.dependencies
            + [CreateDependency(older["name"], older - {"name"}),
               CreateDependency(newer["name"], newer - {"name"})]
    ensures MergePlugins(Merged(Some(root), []), [older, newer]).value.names
         == [older["name"], older["name"]]
  {
    MergeWithRoot(root, [], [older, newer]);
  }
}
