/** The single pass over the installed packages that splits the snapshot
    into the synthetic root project and the companion repository. */
module Snapshot {
  import opened Wrappers
  import opened Packages

  /** The state the loop carries: the root found so far and the packages
      added to the companion repository so far. */
  datatype Partitioned = Partitioned(root: Option<ProjectPackage>, repository: seq<Package>)

  /** A package the loop hands to the host branch (not skipped as unsafe). */
  predicate IsHost(p: Package, unsafe: set<string>) {
    p.name !in unsafe && p.name == HostName
  }

  /** A package the loop adds, unchanged, to the companion repository. */
  predicate IsCompanion(p: Package, unsafe: set<string>) {
    p.name !in unsafe && p.name != HostName
  }

  /** The root project built from a host record: same name and version, and
      the record's requirements copied over in order. */
  function RootFor(host: Package): ProjectPackage
  {
    AddDependencies(NewProject(host.name, host.version), host.requirements)
  }

  /** One iteration of the loop body. */
  function Step(acc: Partitioned, p: Package, unsafe: set<string>): Partitioned
  {
    if p.name in unsafe then acc
    else if p.name == HostName then acc.(root := Some(RootFor(p)))
    else acc.(repository := acc.repository + [p])
  }

  /** The loop, processing the snapshot left to right. */
  function Fold(acc: Partitioned, pkgs: seq<Package>, unsafe: set<string>): Partitioned
    decreases |pkgs|
  {
    if |pkgs| == 0 then acc
    else Fold(Step(acc, pkgs[0], unsafe), pkgs[1..], unsafe)
  }

  /** The whole partition, starting from no root and an empty repository. */
  function Partition(installed: seq<Package>, unsafe: set<string>): Partitioned
  {
    Fold(Partitioned(None, []), installed, unsafe)
  }

  // ---------------------------------------------------------------------
  // Reference definitions, independent of the loop

  /** The companion packages of a snapshot: its subsequence of packages that
      are neither unsafe nor the host, in their original order. */
  function Companions(pkgs: seq<Package>, unsafe: set<string>): (r: seq<Package>)
    ensures |r| <= |pkgs|
    ensures forall q :: q in r ==> q in pkgs && IsCompanion(q, unsafe)
    ensures forall i :: 0 <= i < |pkgs| && IsCompanion(pkgs[i], unsafe) ==> pkgs[i] in r
    decreases |pkgs|
  {
    if |pkgs| == 0 then []
    else if IsCompanion(pkgs[0], unsafe) then [pkgs[0]] + Companions(pkgs[1..], unsafe)
    else Companions(pkgs[1..], unsafe)
  }

  /** `i` is the position of the last host record of the snapshot. */
  ghost predicate IsLastHostAt(pkgs: seq<Package>, unsafe: set<string>, i: int) {
    && 0 <= i < |pkgs|
    && IsHost(pkgs[i], unsafe)
    && forall j :: i < j < |pkgs| ==> !IsHost(pkgs[j], unsafe)
  }

  /** The last host record of the snapshot, if there is one. */
  function LastHost(pkgs: seq<Package>, unsafe: set<string>): (r: Option<Package>)
    ensures r.None? <==> forall i :: 0 <= i < |pkgs| ==> !IsHost(pkgs[i], unsafe)
    ensures r.Some? ==> r.value in pkgs && IsHost(r.value, unsafe)
    decreases |pkgs|
  {
    if |pkgs| == 0 then None
    else
      var rest := LastHost(pkgs[1..], unsafe);
      assert forall i :: 0 < i < |pkgs| ==> pkgs[i] == pkgs[1..][i - 1];
      if rest.Some? then rest
      else if IsHost(pkgs[0], unsafe) then Some(pkgs[0])
      else None
  }

  /** The record `LastHost` picks is the one at the last host position. */
  lemma {:induction false} LastHostIsLast(pkgs: seq<Package>, unsafe: set<string>, i: int)
    requires IsLastHostAt(pkgs, unsafe, i)
    ensures LastHost(pkgs, unsafe) == Some(pkgs[i])
    decreases |pkgs|
  {
    if i > 0 {
      LastHostIsLast(pkgs[1..], unsafe, i - 1);
    } else {
      assert forall j :: 0 <= j < |pkgs[1..]| ==> !IsHost(pkgs[1..][j], unsafe) by {
        forall j | 0 <= j < |pkgs[1..]|
          ensures !IsHost(pkgs[1..][j], unsafe)
        {
          assert pkgs[1..][j] == pkgs[j + 1];
        }
      }
    }
  }

  // ---------------------------------------------------------------------
  // The loop agrees with the reference definitions

  /** From any starting state, the loop ends with the root built from the
      last host record (or the starting root when there is none) and with
      the companions appended to the starting repository. */
  lemma {:induction false} FoldCharacterised(acc: Partitioned, pkgs: seq<Package>, unsafe: set<string>)
    ensures Fold(acc, pkgs, unsafe) == Partitioned(
              match LastHost(pkgs, unsafe)
              case Some(h) => Some(RootFor(h))
              case None => acc.root,
              acc.repository + Companions(pkgs, unsafe))
    decreases |pkgs|
  {
    if |pkgs| > 0 {
      var next := Step(acc, pkgs[0], unsafe);
      FoldCharacterised(next, pkgs[1..], unsafe);
      if IsCompanion(pkgs[0], unsafe) {
        assert acc.repository + [pkgs[0]] + Companions(pkgs[1..], unsafe)
            == acc.repository + ([pkgs[0]] + Companions(pkgs[1..], unsafe));
      }
    }
  }

  /** The partition is exactly (root of the last host record, companions). */
  lemma PartitionSpec(installed: seq<Package>, unsafe: set<string>)
    ensures Partition(installed, unsafe).repository == Companions(installed, unsafe)
    ensures Partition(installed, unsafe).root
         == match LastHost(installed, unsafe)
            case Some(h) => Some(RootFor(h))
            case None => None
  {
    FoldCharacterised(Partitioned(None, []), installed, unsafe);
  }

  /** The root project carries the host record's name and version, and its
      dependencies are the host record's requirements, in order. */
  lemma RootForCopies(host: Package)
    ensures RootFor(host).name == host.name
    ensures RootFor(host).version == host.version
    ensures RootFor(host).dependencies == host.requirements
    ensures RootFor(host).pythonVersions.None?
  {
    AddDependenciesAppends(NewProject(host.name, host.version), host.requirements);
  }

  /** Unsafe packages never reach the repository nor the root; the host
      record never reaches the repository. */
  lemma PartitionExcludes(installed: seq<Package>, unsafe: set<string>)
    ensures forall q :: q in Partition(installed, unsafe).repository ==>
              q.name !in unsafe && q.name != HostName
    ensures Partition(installed, unsafe).root.Some? ==>
              Partition(installed, unsafe).root.value.name == HostName
              && HostName !in unsafe
  {
    PartitionSpec(installed, unsafe);
    match LastHost(installed, unsafe)
    case Some(h) => RootForCopies(h);
    case None =>
  }

  /** A root exists exactly when some host record survives the unsafe
      filter, and it is built from the LAST such record: when several
      "poetry" records exist the earlier roots are discarded. */
  lemma PartitionRootIsLastHost(installed: seq<Package>, unsafe: set<string>, i: int)
    requires IsLastHostAt(installed, unsafe, i)
    ensures Partition(installed, unsafe).root == Some(RootFor(installed[i]))
    ensures Partition(installed, unsafe).root.value.version == installed[i].version
    ensures Partition(installed, unsafe).root.value.dependencies == installed[i].requirements
  {
    PartitionSpec(installed, unsafe);
    LastHostIsLast(installed, unsafe, i);
    RootForCopies(installed[i]);
  }

  /** The loop leaves the root unset exactly when no host record survives
      the unsafe filter. */
  lemma PartitionWithoutHost(installed: seq<Package>, unsafe: set<string>)
    ensures Partition(installed, unsafe).root.None?
        <==> forall i :: 0 <= i < |installed| ==> !IsHost(installed[i], unsafe)
  {
    PartitionSpec(installed, unsafe);
  }

  /** The companion subsequence keeps snapshot order: appending one more
      package to the snapshot appends that package to its companions exactly
      when it is neither unsafe nor the host. */
  lemma {:induction false} CompanionsSnoc(pkgs: seq<Package>, p: Package, unsafe: set<string>)
    ensures Companions(pkgs + [p], unsafe)
         == Companions(pkgs, unsafe) + (if IsCompanion(p, unsafe) then [p] else [])
    decreases |pkgs|
  {
    if |pkgs| == 0 {
      assert pkgs + [p] == [p];
      assert [p][1..] == [];
    } else {
      assert (pkgs + [p])[1..] == pkgs[1..] + [p];
      CompanionsSnoc(pkgs[1..], p, unsafe);
    }
  }
}
