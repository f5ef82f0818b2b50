/** The observable side effects of the extension's core, recorded in order:
    filesystem writes, network requests and process control. */
module Effects {

  /** POSIX permission bits `0o755`. */
  const ExecutableMode: nat := 493

  datatype Effect =
    | Mkdir(dir: string)
    | FetchJson(url: string)
    | Download(url: string, target: string)
    | CopyFile(source: string, target: string)
    | Chmod(path: string, mode: nat)
    | Spawn(pid: nat, program: string, argv: seq<string>, cwd: string)
    | Signal(pid: nat, signal: string)
    | TaskKill(pid: nat)

  /** Effects that reach the release host. */
  predicate IsNetwork(e: Effect) {
    e.FetchJson? || e.Download?
  }

  predicate NoNetwork(effects: seq<Effect>) {
    forall i :: 0 <= i < |effects| ==> !IsNetwork(effects[i])
  }

  lemma NoNetworkAppend(effects: seq<Effect>, e: Effect)
    requires NoNetwork(effects) && !IsNetwork(e)
    ensures NoNetwork(effects + [e])
  {
    var all := effects + [e];
    assert forall i :: 0 <= i < |effects| ==> all[i] == effects[i];
    assert all[|effects|] == e;
  }

  /** Effects that start or stop a process. */
  predicate IsProcessControl(e: Effect) {
    e.Spawn? || e.Signal? || e.TaskKill?
  }

  predicate NoProcessControl(effects: seq<Effect>) {
    forall i :: 0 <= i < |effects| ==> !IsProcessControl(effects[i])
  }
}
