/** The installer configuration the handler applies before `run()`. */
module Installer {

  /** The mode-setting calls made on the installer. `DryRun` is the call
      `dry_run()` with its default argument. */
  datatype InstallerCall =
    | DryRun
    | Whitelist(names: seq<string>)
    | Update(enabled: bool)
    | RemoveUntracked(enabled: bool)

  /** The installer's mode flags. */
  datatype Flags = Flags(dryRun: bool, whitelist: seq<string>, update: bool, removeUntracked: bool)

  /** The effect of one call on the flags; `dryRunDefault` is the default
      argument of `dry_run`, which is not part of this model. */
  function Apply(f: Flags, call: InstallerCall, dryRunDefault: bool): Flags
  {
    match call
    case DryRun => f.(dryRun := dryRunDefault)
    case Whitelist(names) => f.(whitelist := names)
    case Update(b) => f.(update := b)
    case RemoveUntracked(b) => f.(removeUntracked := b)
  }

  /** The effect of a sequence of calls, in order. */
  function ApplyAll(f: Flags, calls: seq<InstallerCall>, dryRunDefault: bool): Flags
    decreases |calls|
  {
    if |calls| == 0 then f
    else ApplyAll(Apply(f, calls[0], dryRunDefault), calls[1..], dryRunDefault)
  }

  /** The four calls the handler makes, in source order. */
  function Configuration(pluginNames: seq<string>): (calls: seq<InstallerCall>)
    ensures |calls| == 4
  {
    [DryRun, Whitelist(pluginNames), Update(true), RemoveUntracked(false)]
  }

  /** Whatever flags the installer starts with, after the handler's calls it
      is restricted to the plugin names, in update mode, never removing
      untracked packages, and in whatever dry-run mode `dry_run()` selects. */
  lemma ConfigurationOverrides(initial: Flags, pluginNames: seq<string>, dryRunDefault: bool)
    ensures ApplyAll(initial, Configuration(pluginNames), dryRunDefault)
         == Flags(dryRunDefault, pluginNames, true, false)
  {
    var calls := Configuration(pluginNames);
    var f1 := Apply(initial, calls[0], dryRunDefault);
    var f2 := Apply(f1, calls[1], dryRunDefault);
    var f3 := Apply(f2, calls[2], dryRunDefault);
    var f4 := Apply(f3, calls[3], dryRunDefault);
    assert ApplyAll(f4, calls[4..], dryRunDefault) == f4;
    assert ApplyAll(f3, calls[3..], dryRunDefault) == f4 by { assert calls[3..][1..] == calls[4..]; }
    assert ApplyAll(f2, calls[2..], dryRunDefault) == f4 by { assert calls[2..][1..] == calls[3..]; }
    assert ApplyAll(f1, calls[1..], dryRunDefault) == f4 by { assert calls[1..][1..] == calls[2..]; }
  }
}
