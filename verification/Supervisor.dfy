/** The command handlers of src/extension.ts as transitions of a supervisor
    record: `startAgent`, `stopAgent`, the `close` handler that
    `wireProcess` installs, the SIGKILL escalation timer, `runOnce`,
    `installOrUpdate` and the `resolveBinary` policy they share.

    The module-level `proc` variable is `proc`; a child process is known by
    the identifier it was spawned with, and identifiers are handed out
    fresh, so "the closing child is the tracked one" is identifier equality.
    Calls are strictly sequential. */
module Supervisor {
  import opened Wrappers
  import opened Text
  import opened Settings
  import opened Installer
  import opened CommandLine
  import opened Effects

  /** What the extension reads from its surroundings: settings, the host and
      its installation storage, the release host, the first workspace folder
      and the home directory. */
  datatype Env = Env(cfg: Config, host: Host, remote: Remote, folder: Option<string>, home: string)

  /** The tracked agent, the next fresh process identifier, the escalation
      timers still pending, and the existing files. */
  datatype State = State(proc: Option<nat>, nextPid: nat, pendingKills: nat, fs: set<string>)

  /** The tracked agent was spawned earlier. */
  predicate Valid(s: State) {
    s.proc.Some? ==> s.proc.value < s.nextPid
  }

  datatype Reply =
    | Done
    | AlreadyRunning
    | NoBinary
    | Failed(error: InstallError)
    | Cancelled
    | Spawned(pid: nat)
    | Installed(path: Option<string>)

  datatype Transition = Transition(state: State, effects: seq<Effect>, reply: Reply)

  /** The outcome of `resolveBinary`: a binary, none (`undefined`), or the
      install error it lets through; and the files and effects of getting there. */
  datatype Resolution = Resolution(binary: Result<Option<string>, InstallError>, fs: set<string>, effects: seq<Effect>)

  /** `resolveBinary`: the override, else an already cached binary (errors
      swallowed), else nothing when `drill.autoInstall` is off, else an
      install whose failure propagates. */
  function ResolveBinary(env: Env, fs: set<string>): (r: Resolution)
    ensures fs <= r.fs
    ensures Override(env.cfg) != "" ==> r == Resolution(Success(Some(Override(env.cfg))), fs, [])
    ensures Override(env.cfg) == "" && BinPath(env.host) in fs ==>
      r.binary == Success(Some(BinPath(env.host))) && NoNetwork(r.effects)
    ensures Override(env.cfg) == "" && BinPath(env.host) !in fs && !IsSet(env.cfg, "drill.autoInstall") ==>
      r.binary == Success(None) && NoNetwork(r.effects)
    ensures r.binary.Failure? ==>
      Override(env.cfg) == "" && BinPath(env.host) !in fs && IsSet(env.cfg, "drill.autoInstall")
    ensures r.binary.Success? && r.binary.value.Some? && Override(env.cfg) == "" ==>
      r.binary.value.value == BinPath(env.host) && BinPath(env.host) in r.fs
    ensures NoProcessControl(r.effects)
  {
    var userPath := Override(env.cfg);
    if userPath != "" then
      Resolution(Success(Some(userPath)), fs, [])
    else
      var cached := EnsureDrill(env.cfg, env.host, fs, env.remote, false);
      if cached.result.Success? && cached.result.value != "" then
        Resolution(Success(Some(cached.result.value)), cached.fs, cached.effects)
      else if !IsSet(env.cfg, "drill.autoInstall") then
        Resolution(Success(None), cached.fs, cached.effects)
      else
        var installed := EnsureDrill(env.cfg, env.host, cached.fs, env.remote, true);
        var binary := match installed.result
          case Success(p) => Success(Some(p))
          case Failure(e) => Failure(e);
        Resolution(binary, installed.fs, cached.effects + installed.effects)
  }

  /** `startAgent`: the compose launch when `drill.composeFile` is set,
      otherwise the resolved binary with the settings' command line. */
  function StartAgent(env: Env, s: State): (t: Transition)
    ensures s.proc.Some? ==> t == Transition(s, [], AlreadyRunning)
    ensures s.proc.None? && t.reply.Spawned? ==>
      t.reply.pid == s.nextPid && t.state.proc == Some(s.nextPid) && t.state.nextPid == s.nextPid + 1
    ensures !t.reply.Spawned? ==> t.state.proc == s.proc && t.state.nextPid == s.nextPid
    ensures t.state.pendingKills == s.pendingKills && s.fs <= t.state.fs
    ensures Valid(s) ==> Valid(t.state) && TargetsBelow(t.effects, t.state.nextPid)
    ensures OnlySpawns(t.effects)
  {
    if s.proc.Some? then
      Transition(s, [], AlreadyRunning)
    else
      var cwd := ResolveCwd(env.cfg, env.folder, env.home);
      var pid := s.nextPid;
      if ComposeFile(env.cfg) != "" then
        Transition(s.(proc := Some(pid), nextPid := pid + 1),
                   [Spawn(pid, "docker", ComposeArgv(env.cfg), cwd)], Spawned(pid))
      else
        var b := ResolveBinary(env, s.fs);
        match b.binary
        case Failure(e) => Transition(s.(fs := b.fs), b.effects, Failed(e))
        case Success(None) => Transition(s.(fs := b.fs), b.effects, NoBinary)
        case Success(Some(bin)) =>
          SpawnAfterInstall(b.effects, Spawn(pid, bin, BuildArgs(env.cfg), cwd), pid);
          Transition(State(Some(pid), pid + 1, s.pendingKills, b.fs),
                     b.effects + [Spawn(pid, bin, BuildArgs(env.cfg), cwd)], Spawned(pid))
  }

  /** `stopAgent`: Windows kills the process tree with `taskkill`; elsewhere
      SIGINT is sent and a SIGKILL timer armed, unless `kill` throws. The
      handle is cleared in every case. */
  function StopAgent(platform: string, s: State, killThrows: bool): (t: Transition)
    ensures t.state.proc.None? && t.state.nextPid == s.nextPid && t.state.fs == s.fs
    ensures s.proc.None? ==> t == Transition(s, [], Done)
    ensures t.state.pendingKills == s.pendingKills + (if s.proc.Some? && platform != "win32" && !killThrows then 1 else 0)
    ensures s.proc.Some? && platform == "win32" ==> t.effects == [TaskKill(s.proc.value)]
    ensures s.proc.Some? && platform != "win32" && !killThrows ==> t.effects == [Signal(s.proc.value, "SIGINT")]
    ensures Valid(s) ==> TargetsBelow(t.effects, t.state.nextPid)
  {
    match s.proc
    case None => Transition(s, [], Done)
    case Some(pid) =>
      if platform == "win32" then
        Transition(s.(proc := None), [TaskKill(pid)], Done)
      else if killThrows then
        Transition(s.(proc := None), [], Done)
      else
        Transition(s.(proc := None, pendingKills := s.pendingKills + 1), [Signal(pid, "SIGINT")], Done)
  }

  /** An escalation timer fires: it sends SIGKILL to whatever agent is
      tracked at that moment, which is never the one `stopAgent` stopped. */
  function FireTimer(s: State): (t: Transition)
    ensures s.pendingKills == 0 ==> t == Transition(s, [], Done)
    ensures s.pendingKills > 0 ==> t.state == s.(pendingKills := s.pendingKills - 1)
    ensures s.pendingKills > 0 && s.proc.Some? ==> t.effects == [Signal(s.proc.value, "SIGKILL")]
    ensures s.proc.None? ==> t.effects == []
    ensures Valid(s) ==> TargetsBelow(t.effects, t.state.nextPid)
  {
    if s.pendingKills == 0 then Transition(s, [], Done)
    else
      var s' := s.(pendingKills := s.pendingKills - 1);
      match s.proc
      case None => Transition(s', [], Done)
      case Some(pid) => Transition(s', [Signal(pid, "SIGKILL")], Done)
  }

  /** The `close` handler of `wireProcess`: the handle is cleared only when
      the child that closed is the tracked one. */
  function Close(s: State, pid: nat): (s': State)
    ensures s'.proc.None? <==> s.proc.None? || s.proc == Some(pid)
    ensures s.proc != Some(pid) ==> s' == s
    ensures s'.nextPid == s.nextPid && s'.pendingKills == s.pendingKills && s'.fs == s.fs
  {
    if s.proc == Some(pid) then s.(proc := None) else s
  }

  /** `runOnce`: after a binary is resolved the user is asked for extra
      arguments (`None` when the box is dismissed); the child gets the
      settings' command line followed by the typed words and is not tracked. */
  function RunOnce(env: Env, s: State, input: Option<string>): (t: Transition)
    ensures t.state.proc == s.proc && t.state.pendingKills == s.pendingKills && s.fs <= t.state.fs
    ensures t.reply.Spawned? ==> t.reply.pid == s.nextPid && t.state.nextPid == s.nextPid + 1 && input.Some?
    ensures !t.reply.Spawned? ==> t.state.nextPid == s.nextPid
    ensures input.None? ==> !t.reply.Spawned?
    ensures TargetsBelow(t.effects, t.state.nextPid) && OnlySpawns(t.effects)
  {
    var cwd := ResolveCwd(env.cfg, env.folder, env.home);
    var b := ResolveBinary(env, s.fs);
    var s' := s.(fs := b.fs);
    match b.binary
    case Failure(e) => Transition(s', b.effects, Failed(e))
    case Success(None) => Transition(s', b.effects, NoBinary)
    case Success(Some(bin)) =>
      match input
      case None => Transition(s', b.effects, Cancelled)
      case Some(line) =>
        var pid := s.nextPid;
        SpawnAfterInstall(b.effects, Spawn(pid, bin, BuildArgs(env.cfg) + RunArgs(line), cwd), pid);
        Transition(s'.(nextPid := pid + 1),
                   b.effects + [Spawn(pid, bin, BuildArgs(env.cfg) + RunArgs(line), cwd)], Spawned(pid))
  }

  /** `installOrUpdate`: `ensureDrill` with installing allowed; a failure is
      reported and yields no path. */
  function InstallOrUpdate(env: Env, s: State): (t: Transition)
    ensures t.state.proc == s.proc && t.state.nextPid == s.nextPid && t.state.pendingKills == s.pendingKills
    ensures t.reply.Installed? && s.fs <= t.state.fs
    ensures t.reply.path.None? <==> EnsureDrill(env.cfg, env.host, s.fs, env.remote, true).result.Failure?
    ensures t.reply.path.Some? && Override(env.cfg) == "" ==>
      t.reply.path.value == BinPath(env.host) && BinPath(env.host) in t.state.fs
    ensures Override(env.cfg) != "" ==> t.reply.path == Some(Override(env.cfg)) && t.effects == []
    ensures NoProcessControl(t.effects)
  {
    var r := EnsureDrill(env.cfg, env.host, s.fs, env.remote, true);
    Transition(s.(fs := r.fs), r.effects, Installed(r.result.ToOption()))
  }

  datatype Event =
    | Start
    | Stop(killThrows: bool)
    | Fire
    | Exit(pid: nat)
    | RunOnceWith(input: Option<string>)
    | InstallUpdate

  function Step(env: Env, s: State, e: Event): (t: Transition)
    ensures Valid(s) ==> Valid(t.state) && TargetsBelow(t.effects, t.state.nextPid)
    ensures s.nextPid <= t.state.nextPid
  {
    match e
    case Start => StartAgent(env, s)
    case Stop(killThrows) => StopAgent(env.host.platform, s, killThrows)
    case Fire => FireTimer(s)
    case Exit(pid) => Transition(Close(s, pid), [], Done)
    case RunOnceWith(input) => RunOnce(env, s, input)
    case InstallUpdate => InstallOrUpdate(env, s)
  }

  /** Every process an effect spawns, signals or kills has an identifier below `bound`. */
  predicate TargetsBelow(effects: seq<Effect>, bound: nat) {
    forall i :: 0 <= i < |effects| && IsProcessControl(effects[i]) ==> effects[i].pid < bound
  }

  /** The only process control among `effects` is starting processes. */
  predicate OnlySpawns(effects: seq<Effect>) {
    forall i :: 0 <= i < |effects| && IsProcessControl(effects[i]) ==> effects[i].Spawn?
  }

  /** Appending a spawn of `pid` to effects that control no process. */
  lemma SpawnAfterInstall(effects: seq<Effect>, spawn: Effect, pid: nat)
    requires NoProcessControl(effects) && spawn.Spawn? && spawn.pid == pid
    ensures TargetsBelow(effects + [spawn], pid + 1) && OnlySpawns(effects + [spawn])
  {
    var all := effects + [spawn];
    assert forall i :: 0 <= i < |effects| ==> all[i] == effects[i];
    assert all[|effects|] == spawn;
  }

  /** A sequence of events, one after the other, with all their effects. */
  function Run(env: Env, s: State, events: seq<Event>): (t: Transition)
    decreases |events|
  {
    if events == [] then Transition(s, [], Done)
    else
      var first := Step(env, s, events[0]);
      var rest := Run(env, first.state, events[1..]);
      Transition(rest.state, first.effects + rest.effects, rest.reply)
  }
  lemma TargetsBelowConcat(a: seq<Effect>, b: seq<Effect>, bound: nat)
    requires TargetsBelow(a, bound) && TargetsBelow(b, bound)
    ensures TargetsBelow(a + b, bound)
  {
    var ab := a + b;
    assert forall i :: 0 <= i < |a| ==> ab[i] == a[i];
    assert forall i :: |a| <= i < |ab| ==> ab[i] == b[i - |a|];
  }

  /** Whatever the events, a valid supervisor stays valid, identifiers only
      grow, and no effect of the run spawns, signals or kills a process
      with an identifier that was not handed out. */
  lemma {:induction false} RunKeepsValid(env: Env, s: State, events: seq<Event>)
    requires Valid(s)
    ensures var t := Run(env, s, events);
      Valid(t.state) && s.nextPid <= t.state.nextPid && TargetsBelow(t.effects, t.state.nextPid)
    decreases |events|
  {
    if events != [] {
      var first := Step(env, s, events[0]);
      var rest := Run(env, first.state, events[1..]);
      RunKeepsValid(env, first.state, events[1..]);
      assert TargetsBelow(first.effects, rest.state.nextPid);
      TargetsBelowConcat(first.effects, rest.effects, rest.state.nextPid);
    }
  }

  /** No SIGKILL among `effects` is addressed to `p`. */
  predicate SparesFromKill(effects: seq<Effect>, p: nat) {
    forall i :: 0 <= i < |effects| ==> effects[i] != Signal(p, "SIGKILL")
  }

  /** One event never sends SIGKILL to an identifier handed out earlier that is
      no longer tracked, and never tracks it again. */
  lemma StepSpares(env: Env, s: State, e: Event, p: nat)
    requires Valid(s) && p < s.nextPid && s.proc != Some(p)
    ensures var t := Step(env, s, e);
      SparesFromKill(t.effects, p) && t.state.proc != Some(p) && p < t.state.nextPid
  {
    var t := Step(env, s, e);
    match e
    case Start =>
      assert OnlySpawns(t.effects);
    case RunOnceWith(input) =>
      assert OnlySpawns(t.effects);
    case InstallUpdate =>
      assert NoProcessControl(t.effects);
    case Stop(killThrows) =>
    case Fire =>
    case Exit(pid) =>
  }

  lemma SparesConcat(a: seq<Effect>, b: seq<Effect>, p: nat)
    requires SparesFromKill(a, p) && SparesFromKill(b, p)
    ensures SparesFromKill(a + b, p)
  {
    var ab := a + b;
    assert forall i :: 0 <= i < |a| ==> ab[i] == a[i];
    assert forall i :: |a| <= i < |ab| ==> ab[i] == b[i - |a|];
  }

  /** From a state in which `p` was handed out and is not tracked, no run of
      events ever sends SIGKILL to `p`. */
  lemma {:induction false} RunSpares(env: Env, s: State, events: seq<Event>, p: nat)
    requires Valid(s) && p < s.nextPid && s.proc != Some(p)
    ensures SparesFromKill(Run(env, s, events).effects, p)
    decreases |events|
  {
    if events != [] {
      var first := Step(env, s, events[0]);
      StepSpares(env, s, events[0], p);
      RunSpares(env, first.state, events[1..], p);
      SparesConcat(first.effects, Run(env, first.state, events[1..]).effects, p);
    }
  }

  /** The escalation never reaches the agent that was stopped: whatever
      happens after `stopAgent`, no SIGKILL is sent to the stopped process. */
  lemma StoppedAgentNeverKilled(env: Env, s: State, killThrows: bool, events: seq<Event>)
    requires Valid(s) && s.proc.Some?
    ensures SparesFromKill(Run(env, s, [Stop(killThrows)] + events).effects, s.proc.value)
  {
    var p := s.proc.value;
    var all := [Stop(killThrows)] + events;
    assert all[0] == Stop(killThrows) && all[1..] == events;
    var first := Step(env, s, Stop(killThrows));
    RunSpares(env, first.state, events, p);
    SparesConcat(first.effects, Run(env, first.state, events).effects, p);
  }

  /** Whatever starts the next agent within the escalation window (compose
      or a binary), that new agent receives the SIGKILL and stays tracked. */
  lemma RestartKillsNewAgent(env: Env, s: State)
    requires Valid(s) && s.proc.Some? && s.pendingKills == 0 && env.host.platform != "win32"
    requires StartAgent(env, StopAgent(env.host.platform, s, false).state).reply.Spawned?
    ensures var t := Run(env, s, [Stop(false), Start, Fire]);
      |t.effects| >= 2 && t.effects[0] == Signal(s.proc.value, "SIGINT") &&
      t.effects[|t.effects| - 1] == Signal(s.nextPid, "SIGKILL") && t.state.proc == Some(s.nextPid)
  {
    var a := StopAgent(env.host.platform, s, false);
    assert a.effects == [Signal(s.proc.value, "SIGINT")];
    assert a.state.nextPid == s.nextPid && a.state.pendingKills == 1;
    var b := StartAgent(env, a.state);
    assert b.state.proc == Some(s.nextPid) && b.state.pendingKills == 1;
    var c := FireTimer(b.state);
    assert c.effects == [Signal(s.nextPid, "SIGKILL")] && c.state.proc == Some(s.nextPid);
    RunThree(env, s, Stop(false), Start, Fire);
    var all := a.effects + (b.effects + (c.effects + []));
    assert all[0] == a.effects[0];
    assert all[|all| - 1] == c.effects[0];
  }

  /** A second `startAgent` while the first agent runs changes nothing. */
  lemma StartTwice(env: Env, s: State)
    requires StartAgent(env, s).reply.Spawned?
    ensures var first := StartAgent(env, s);
      StartAgent(env, first.state) == Transition(first.state, [], AlreadyRunning)
  {
  }

  /** The `close` of a `runOnce` child never clears the tracked agent. */
  lemma RunOnceChildIsNotTracked(env: Env, s: State, input: Option<string>)
    requires Valid(s)
    requires RunOnce(env, s, input).reply.Spawned?
    ensures var t := RunOnce(env, s, input);
      Close(t.state, t.reply.pid) == t.state && t.state.proc == s.proc
  {
  }

  /** With auto-install on and nothing cached, the binary is the outcome of
      the install steps, and their error is passed on unchanged. */
  lemma AutoInstallPropagates(env: Env, fs: set<string>)
    requires Override(env.cfg) == "" && BinPath(env.host) !in fs && IsSet(env.cfg, "drill.autoInstall")
    ensures var f := Fetch(env.host, env.remote);
      var r := ResolveBinary(env, fs);
      (f.result.Failure? ==> r.binary == Failure(f.result.error)) &&
      (f.result.Success? ==> r.binary == Success(Some(BinPath(env.host))))
  {
    var dir := BinDir(env.host);
    var cached := EnsureDrill(env.cfg, env.host, fs, env.remote, false);
    BinPathIsNotDir(env.host);
    assert cached.result == Failure(NotInstalled) && cached.fs == fs + {dir};
    assert BinPath(env.host) !in cached.fs;
    AfterCacheMiss(env.cfg, env.host, cached.fs, env.remote);
  }

  /** With a compose file configured, `startAgent` spawns `docker compose`
      directly: no binary is resolved and nothing is installed. */
  lemma ComposeStart(env: Env, s: State)
    requires s.proc.None? && ComposeFile(env.cfg) != ""
    ensures StartAgent(env, s) ==
      Transition(s.(proc := Some(s.nextPid), nextPid := s.nextPid + 1),
                 [Spawn(s.nextPid, "docker", ComposeArgv(env.cfg), ResolveCwd(env.cfg, env.folder, env.home))],
                 Spawned(s.nextPid))
  {
  }

  lemma StartWithBinary(env: Env, s: State, bin: string)
    requires s.proc.None? && ComposeFile(env.cfg) == "" && ResolveBinary(env, s.fs).binary == Success(Some(bin))
    ensures var b := ResolveBinary(env, s.fs);
      StartAgent(env, s) ==
        Transition(State(Some(s.nextPid), s.nextPid + 1, s.pendingKills, b.fs),
                   b.effects + [Spawn(s.nextPid, bin, BuildArgs(env.cfg), ResolveCwd(env.cfg, env.folder, env.home))],
                   Spawned(s.nextPid))
  {
  }

  /** Once a binary is resolved and the box is answered, `runOnce` spawns
      an untracked child with the settings' command line followed by the
      words of the answer. */
  lemma RunOnceSpawns(env: Env, s: State, bin: string, line: string)
    requires ResolveBinary(env, s.fs).binary == Success(Some(bin))
    ensures RunOnce(env, s, Some(line)).reply == Spawned(s.nextPid)
    ensures RunOnce(env, s, Some(line)).state.proc == s.proc
    ensures RunOnce(env, s, Some(line)).effects ==
      ResolveBinary(env, s.fs).effects +
        [Spawn(s.nextPid, bin, BuildArgs(env.cfg) + RunArgs(line), ResolveCwd(env.cfg, env.folder, env.home))]
  {
  }

  /** Without compose, a cached binary is started with the settings'
      command line whether or not auto-install is on. */
  lemma StartFromCache(env: Env, s: State)
    requires s.proc.None? && ComposeFile(env.cfg) == "" && Override(env.cfg) == "" && BinPath(env.host) in s.fs
    ensures var t := StartAgent(env, s);
      t.reply == Spawned(s.nextPid) && t.state.proc == Some(s.nextPid) && |t.effects| > 0 &&
      t.effects[|t.effects| - 1] ==
        Spawn(s.nextPid, BinPath(env.host), BuildArgs(env.cfg), ResolveCwd(env.cfg, env.folder, env.home))
  {
    var b := ResolveBinary(env, s.fs);
    StartWithBinary(env, s, BinPath(env.host));
    var spawn := Spawn(s.nextPid, BinPath(env.host), BuildArgs(env.cfg), ResolveCwd(env.cfg, env.folder, env.home));
    assert (b.effects + [spawn])[|b.effects|] == spawn;
  }

  /** The escalation does not reach the agent that was stopped: stopping
      and letting the timer fire sends SIGINT and nothing else. */
  lemma StopThenFire(env: Env, s: State)
    requires s.proc.Some? && s.pendingKills == 0 && env.host.platform != "win32"
    ensures var t := Run(env, s, [Stop(false), Fire]);
      t.effects == [Signal(s.proc.value, "SIGINT")] && t.state.proc.None? && t.state.pendingKills == 0
  {
    var a := StopAgent(env.host.platform, s, false);
    var b := FireTimer(a.state);
    assert [Stop(false), Fire][1..] == [Fire];
    assert Run(env, a.state, [Fire]) == Transition(b.state, b.effects + [], Done);
  }

  /** An agent started through compose within the escalation window is the
      one that receives SIGKILL, and it stays tracked. */
  lemma RestartWithinWindow(env: Env, s: State)
    requires Valid(s) && s.proc.Some? && s.pendingKills == 0 && env.host.platform != "win32"
    requires ComposeFile(env.cfg) != ""
    ensures var t := Run(env, s, [Stop(false), Start, Fire]);
      var cwd := ResolveCwd(env.cfg, env.folder, env.home);
      t.effects == [Signal(s.proc.value, "SIGINT"), Spawn(s.nextPid, "docker", ComposeArgv(env.cfg), cwd),
                    Signal(s.nextPid, "SIGKILL")] &&
      s.nextPid != s.proc.value && t.state.proc == Some(s.nextPid)
  {
    var a := StopAgent(env.host.platform, s, false);
    ComposeStart(env, a.state);
    var b := StartAgent(env, a.state);
    var c := FireTimer(b.state);
    RunThree(env, s, Stop(false), Start, Fire);
    assert a.effects + (b.effects + (c.effects + [])) ==
      [Signal(s.proc.value, "SIGINT")] + ([Spawn(s.nextPid, "docker", ComposeArgv(env.cfg), ResolveCwd(env.cfg, env.folder, env.home))] +
      ([Signal(s.nextPid, "SIGKILL")] + []));
  }

  /** Three events in a row. */
  lemma RunThree(env: Env, s: State, e1: Event, e2: Event, e3: Event)
    ensures var t1 := Step(env, s, e1);
      var t2 := Step(env, t1.state, e2);
      var t3 := Step(env, t2.state, e3);
      Run(env, s, [e1, e2, e3]) == Transition(t3.state, t1.effects + (t2.effects + (t3.effects + [])), Done)
  {
    var t1 := Step(env, s, e1);
    var t2 := Step(env, t1.state, e2);
    var t3 := Step(env, t2.state, e3);
    var events := [e1, e2, e3];
    assert events[1..] == [e2, e3] && [e2, e3][1..] == [e3] && [e3][1..] == [];
    assert Run(env, t2.state, [e3]) == Transition(t3.state, t3.effects + [], Done);
    assert Run(env, t1.state, [e2, e3]) == Transition(t3.state, t2.effects + (t3.effects + []), Done);
  }
}
