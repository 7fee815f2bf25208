/** The entities the plugin installer works with: installed packages, their
    dependencies, the synthetic root project and the parsed plugin records. */
module Packages {
  import opened Wrappers

  /** The distribution name of the host tool itself. */
  const HostName: string := "poetry"

  /** A requirement: the name it is about plus the remaining attributes
      (version constraint, source markers, extras, ...) it was built from. */
  datatype Dependency = Dependency(name: string, attributes: map<string, string>)

  /** An installed distribution as read from the environment snapshot. */
  datatype Package = Package(name: string, version: string, requirements: seq<Dependency>)

  /** The synthetic root project. `pythonVersions` is `None` until the handler
      pins it; the constructor's own default is not part of this model. */
  datatype ProjectPackage = ProjectPackage(
    name: string,
    version: string,
    dependencies: seq<Dependency>,
    pythonVersions: Option<string>)

  /** A parsed plugin requirement: a record of string-valued keys, one of
      which is expected to be "name". */
  type PluginRecord = map<string, string>

  /** The exceptions the handler can raise on its own. */
  datatype Error =
    | KeyError(key: string)            // `dict.pop` of a missing key
    | NoneAttribute(attribute: string)  // attribute access on `None`

  /** A fresh root project with a name and version and nothing else. */
  function NewProject(name: string, version: string): (r: ProjectPackage)
    ensures r.name == name && r.version == version
    ensures r.dependencies == [] && r.pythonVersions.None?
  {
    ProjectPackage(name, version, [], None)
  }

  /** `Factory.create_dependency(name, attributes)`, treated as an opaque
      constructor that keeps both of its arguments. */
  function CreateDependency(name: string, attributes: map<string, string>): Dependency
  {
    Dependency(name, attributes)
  }

  /** `add_dependency`: appends, never merges by name. */
  function AddDependency(root: ProjectPackage, d: Dependency): ProjectPackage
  {
    root.(dependencies := root.dependencies + [d])
  }

  /** The loop that adds each dependency in turn, left to right. */
  function AddDependencies(root: ProjectPackage, deps: seq<Dependency>): ProjectPackage
    decreases |deps|
  {
    if |deps| == 0 then root
    else AddDependencies(AddDependency(root, deps[0]), deps[1..])
  }

  /** Adding dependencies one at a time appends them in order and leaves
      every other field of the project alone. */
  lemma {:induction false} AddDependenciesAppends(root: ProjectPackage, deps: seq<Dependency>)
    ensures AddDependencies(root, deps) == root.(dependencies := root.dependencies + deps)
    decreases |deps|
  {
    if |deps| > 0 {
      AddDependenciesAppends(AddDependency(root, deps[0]), deps[1..]);
      assert root.dependencies + [deps[0]] + deps[1..] == root.dependencies + deps;
    }
  }

  /** `record.pop(key)`: the value and the record without that key, or
      `None` when the key is missing (Python raises `KeyError`). */
  function Pop(rec: PluginRecord, key: string): (r: Option<(string, PluginRecord)>)
    ensures r.Some? <==> key in rec
    ensures r.Some? ==> key !in r.value.1 && r.value.1[key := r.value.0] == rec
    ensures r.Some? ==> forall k :: k in r.value.1 ==> k in rec && r.value.1[k] == rec[k]
  {
    if key in rec then Some((rec[key], rec - {key})) else None
  }
}
