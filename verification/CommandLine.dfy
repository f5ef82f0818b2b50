/** How src/extension.ts turns settings into a command line for the agent:
    `buildArgsFromSettings` (flags in a fixed order, then the extra
    arguments), `resolveCwd`, the whitespace split of the `runOnce` input box,
    and the `docker compose` argument vector. */
module CommandLine {
  import opened Wrappers
  import opened Text
  import opened Settings

  /** The agent's options after defaults are applied; `None` marks a flag
      that is not emitted. */
  datatype AgentOptions = AgentOptions(
    sshHost: Option<string>,
    sshPort: Option<int>,
    localHost: Option<string>,
    localPort: Option<int>,
    bindPort: int,
    id: Option<string>,
    password: Option<string>,
    keepAlive: bool,
    autoReconnect: bool)

  /** A string setting with `||` fallback, emitted only when non-empty. */
  function HostOption(cfg: Config, key: string, fallback: string): (r: Option<string>)
    requires fallback != ""
    ensures r.Some? && r.value != ""
    ensures GetText(cfg, key).Some? && GetText(cfg, key).value != "" ==> r == GetText(cfg, key)
    ensures GetText(cfg, key).None? || GetText(cfg, key) == Some("") ==> r == Some(fallback)
  {
    var v := TextOr(cfg, key, fallback);
    if v != "" then Some(v) else None
  }

  /** A number setting with `??` fallback, emitted only when non-zero: an
      explicit 0 survives the fallback and then suppresses the flag. */
  function PortOption(cfg: Config, key: string, fallback: int): (r: Option<int>)
    requires fallback != 0
    ensures GetNumber(cfg, key).None? ==> r == Some(fallback)
    ensures GetNumber(cfg, key) == Some(0) ==> r == None
    ensures GetNumber(cfg, key).Some? && GetNumber(cfg, key).value != 0 ==> r == GetNumber(cfg, key)
  {
    var v := GetNumber(cfg, key).GetOr(fallback);
    if v != 0 then Some(v) else None
  }

  /** A string setting that is trimmed and emitted only when something is left. */
  function SecretOption(cfg: Config, key: string): (r: Option<string>)
    ensures r.Some? <==> GetText(cfg, key).Some? && !AllSpace(GetText(cfg, key).value)
    ensures r.Some? ==> r.value == Trim(GetText(cfg, key).value) && r.value != ""
  {
    var v := Trim(TextOr(cfg, key, ""));
    if v != "" then Some(v) else None
  }

  /** The options `buildArgsFromSettings` reads, with their defaults. */
  function Options(cfg: Config): (o: AgentOptions)
    ensures o.sshHost.Some? && o.sshHost.value != "" && o.localHost.Some? && o.localHost.value != ""
  {
    AgentOptions(
      HostOption(cfg, "drill.sshHost", "getexposed.io"),
      PortOption(cfg, "drill.sshPort", 2200),
      HostOption(cfg, "drill.localHost", "localhost"),
      PortOption(cfg, "drill.localPort", 7500),
      GetNumber(cfg, "drill.bindPort").GetOr(0),
      SecretOption(cfg, "drill.id"),
      SecretOption(cfg, "drill.password"),
      IsSet(cfg, "drill.keepAlive"),
      IsSet(cfg, "drill.autoReconnect"))
  }

  /** The host options fall back on an empty or missing setting. */
  lemma OptionsHosts(cfg: Config)
    ensures var o := Options(cfg);
      (GetText(cfg, "drill.sshHost").None? || GetText(cfg, "drill.sshHost") == Some("") ==>
        o.sshHost == Some("getexposed.io")) &&
      (GetText(cfg, "drill.localHost").None? || GetText(cfg, "drill.localHost") == Some("") ==>
        o.localHost == Some("localhost"))
  {
    var o := Options(cfg);
    assert o.sshHost == HostOption(cfg, "drill.sshHost", "getexposed.io");
    assert o.localHost == HostOption(cfg, "drill.localHost", "localhost");
  }

  /** The port options fall back only on a missing setting, and an explicit
      0 drops the flag; `-bp` is always written, 0 by default. */
  lemma OptionsPorts(cfg: Config)
    ensures var o := Options(cfg);
      (o.sshPort.None? <==> GetNumber(cfg, "drill.sshPort") == Some(0)) &&
      (GetNumber(cfg, "drill.sshPort").None? ==> o.sshPort == Some(2200)) &&
      (o.localPort.None? <==> GetNumber(cfg, "drill.localPort") == Some(0)) &&
      (GetNumber(cfg, "drill.localPort").None? ==> o.localPort == Some(7500)) &&
      (GetNumber(cfg, "drill.bindPort").None? ==> o.bindPort == 0)
  {
    var o := Options(cfg);
    assert o.sshPort == PortOption(cfg, "drill.sshPort", 2200);
    assert o.localPort == PortOption(cfg, "drill.localPort", 7500);
  }

  /** A missing, empty or whitespace-only id or password drops its flag;
      otherwise the trimmed value is written. */
  lemma OptionsSecrets(cfg: Config)
    ensures var o := Options(cfg);
      (o.id.Some? <==> GetText(cfg, "drill.id").Some? && !AllSpace(GetText(cfg, "drill.id").value)) &&
      (o.id.Some? ==> o.id.value == Trim(GetText(cfg, "drill.id").value)) &&
      (o.password.Some? <==> GetText(cfg, "drill.password").Some? && !AllSpace(GetText(cfg, "drill.password").value)) &&
      (o.password.Some? ==> o.password.value == Trim(GetText(cfg, "drill.password").value))
  {
    var o := Options(cfg);
    assert o.id == SecretOption(cfg, "drill.id");
    assert o.password == SecretOption(cfg, "drill.password");
  }

  function ValueFlag(flag: string, v: Option<string>): seq<string> {
    if v.Some? then [flag, v.value] else []
  }

  function NumberFlag(flag: string, v: Option<int>): seq<string> {
    if v.Some? then [flag, IntToString(v.value)] else []
  }

  function BoolFlag(flag: string, b: bool): seq<string> {
    if b then [flag] else []
  }

  /** The flags in their fixed order `-s -p -ls -lp -bp -id -pw -a -r`,
      followed by `tail`. */
  function Render(o: AgentOptions, tail: seq<string>): seq<string> {
    ValueFlag("-s", o.sshHost) + (NumberFlag("-p", o.sshPort) +
    (ValueFlag("-ls", o.localHost) + (NumberFlag("-lp", o.localPort) +
    (NumberFlag("-bp", Some(o.bindPort)) +
    (ValueFlag("-id", o.id) + (ValueFlag("-pw", o.password) +
    (BoolFlag("-a", o.keepAlive) + (BoolFlag("-r", o.autoReconnect) + tail))))))))
  }

  /** The entries of `drill.args` that are neither empty nor whitespace only,
      unchanged and in order. */
  function KeepNonBlank(xs: seq<string>): (r: seq<string>)
    ensures |r| <= |xs|
    ensures forall k :: 0 <= k < |r| ==> !AllSpace(r[k])
    ensures forall k :: 0 <= k < |r| ==> r[k] in xs
  {
    if xs == [] then []
    else if xs[0] != "" && Trim(xs[0]) != "" then [xs[0]] + KeepNonBlank(xs[1..])
    else KeepNonBlank(xs[1..])
  }

  function Extras(cfg: Config): seq<string> {
    KeepNonBlank(GetList(cfg, "drill.args"))
  }

  /** `buildArgsFromSettings()`. */
  function BuildArgs(cfg: Config): seq<string> {
    Render(Options(cfg), Extras(cfg))
  }

  // ---------------------------------------------------------------------
  // Reading a command line back: the agent's view of the flags.

  /** The flags that may follow `-bp`; an extra argument equal to one of
      them would be read as that flag. */
  predicate IsTailFlag(t: string) {
    t == "-id" || t == "-pw" || t == "-a" || t == "-r"
  }

  datatype Taken<T> = Taken(value: T, rest: seq<string>)

  function TakeValue(argv: seq<string>, flag: string): Taken<Option<string>> {
    if |argv| >= 2 && argv[0] == flag then Taken(Some(argv[1]), argv[2..]) else Taken(None, argv)
  }

  function TakeNumber(argv: seq<string>, flag: string): Option<Taken<Option<int>>> {
    if |argv| >= 2 && argv[0] == flag then
      match ParseInt(argv[1])
      case Some(n) => Some(Taken(Some(n), argv[2..]))
      case None => None
    else Some(Taken(None, argv))
  }

  function TakeFlag(argv: seq<string>, flag: string): Taken<bool> {
    if |argv| >= 1 && argv[0] == flag then Taken(true, argv[1..]) else Taken(false, argv)
  }

  /** Reads the flags in their fixed order and returns the options and the
      arguments left over; `None` for a missing `-bp` or a malformed number. */
  function Parse(argv: seq<string>): Option<(AgentOptions, seq<string>)> {
    var s := TakeValue(argv, "-s");
    match TakeNumber(s.rest, "-p")
    case None => None
    case Some(p) =>
      var ls := TakeValue(p.rest, "-ls");
      match TakeNumber(ls.rest, "-lp")
      case None => None
      case Some(lp) =>
        match TakeNumber(lp.rest, "-bp")
        case None => None
        case Some(bp) =>
          if bp.value.None? then None
          else
            var t := ParseTail(bp.rest);
            Some((AgentOptions(s.value, p.value, ls.value, lp.value, bp.value.value,
                               t.id, t.password, t.keepAlive, t.autoReconnect), t.rest))
  }

  /** The optional flags after `-bp`, and what follows them. */
  datatype Tail = Tail(id: Option<string>, password: Option<string>, keepAlive: bool, autoReconnect: bool,
                       rest: seq<string>)

  function ParseTail(argv: seq<string>): Tail {
    var id := TakeValue(argv, "-id");
    var pw := TakeValue(id.rest, "-pw");
    var a := TakeFlag(pw.rest, "-a");
    var r := TakeFlag(a.rest, "-r");
    Tail(id.value, pw.value, a.value, r.value, r.rest)
  }

  lemma TakeValueRoundTrip(flag: string, v: Option<string>, rest: seq<string>)
    requires v.None? ==> rest == [] || rest[0] != flag
    ensures TakeValue(ValueFlag(flag, v) + rest, flag) == Taken(v, rest)
  {
    if v.Some? {
      assert (ValueFlag(flag, v) + rest)[2..] == rest;
    }
  }

  lemma TakeNumberRoundTrip(flag: string, v: Option<int>, rest: seq<string>)
    requires v.None? ==> rest == [] || rest[0] != flag
    ensures TakeNumber(NumberFlag(flag, v) + rest, flag) == Some(Taken(v, rest))
  {
    if v.Some? {
      IntToStringRoundTrip(v.value);
      var s := NumberFlag(flag, v) + rest;
      assert s[0] == flag && s[1] == IntToString(v.value);
      assert s[2..] == rest;
      assert ParseInt(s[1]) == Some(v.value);
      assert TakeNumber(s, flag) == Some(Taken(Some(v.value), rest));
    } else {
      assert NumberFlag(flag, v) + rest == rest;
    }
  }

  lemma TakeFlagRoundTrip(flag: string, b: bool, rest: seq<string>)
    requires !b ==> rest == [] || rest[0] != flag
    ensures TakeFlag(BoolFlag(flag, b) + rest, flag) == Taken(b, rest)
  {
    if b {
      assert (BoolFlag(flag, b) + rest)[1..] == rest;
    }
  }

  /** The flags `buildArgsFromSettings` writes read back as the options they
      were written from, followed by the extra arguments untouched, provided
      the first extra argument does not look like one of the trailing flags. */
  lemma ParseRender(o: AgentOptions, extra: seq<string>)
    requires extra == [] || !IsTailFlag(extra[0])
    ensures Parse(Render(o, extra)) == Some((o, extra))
  {
    var r5 := ValueFlag("-id", o.id) + (ValueFlag("-pw", o.password) +
      (BoolFlag("-a", o.keepAlive) + (BoolFlag("-r", o.autoReconnect) + extra)));
    var r4 := NumberFlag("-bp", Some(o.bindPort)) + r5;
    var r3 := NumberFlag("-lp", o.localPort) + r4;
    var r2 := ValueFlag("-ls", o.localHost) + r3;
    var r1 := NumberFlag("-p", o.sshPort) + r2;
    ParseTailRender(o, extra);
    TakeNumberRoundTrip("-bp", Some(o.bindPort), r5);
    TakeNumberRoundTrip("-lp", o.localPort, r4);
    TakeValueRoundTrip("-ls", o.localHost, r3);
    TakeNumberRoundTrip("-p", o.sshPort, r2);
    TakeValueRoundTrip("-s", o.sshHost, r1);
  }

  lemma ParseTailRender(o: AgentOptions, extra: seq<string>)
    requires extra == [] || !IsTailFlag(extra[0])
    ensures ParseTail(ValueFlag("-id", o.id) + (ValueFlag("-pw", o.password) +
      (BoolFlag("-a", o.keepAlive) + (BoolFlag("-r", o.autoReconnect) + extra)))) ==
      Tail(o.id, o.password, o.keepAlive, o.autoReconnect, extra)
  {
    var r8 := BoolFlag("-r", o.autoReconnect) + extra;
    var r7 := BoolFlag("-a", o.keepAlive) + r8;
    var r6 := ValueFlag("-pw", o.password) + r7;
    TakeFlagRoundTrip("-r", o.autoReconnect, extra);
    TakeFlagRoundTrip("-a", o.keepAlive, r8);
    TakeValueRoundTrip("-pw", o.password, r7);
    TakeValueRoundTrip("-id", o.id, r6);
  }

  /** The whole command line of `buildArgsFromSettings` reads back as the
      options derived from the settings followed by the kept extra arguments. */
  lemma BuildArgsParses(cfg: Config)
    requires Extras(cfg) == [] || !IsTailFlag(Extras(cfg)[0])
    ensures Parse(BuildArgs(cfg)) == Some((Options(cfg), Extras(cfg)))
  {
    ParseRender(Options(cfg), Extras(cfg));
  }

  /** An entry is kept exactly when it is in `drill.args` and not blank. */
  lemma {:induction false} KeepNonBlankMembers(xs: seq<string>, x: string)
    ensures x in KeepNonBlank(xs) <==> x in xs && !AllSpace(x)
  {
    if xs != [] {
      KeepNonBlankMembers(xs[1..], x);
      assert xs == [xs[0]] + xs[1..];
    }
  }

  /** Kept entries stay in their given order: filtering distributes over concatenation. */
  lemma {:induction false} KeepNonBlankAppend(xs: seq<string>, ys: seq<string>)
    ensures KeepNonBlank(xs + ys) == KeepNonBlank(xs) + KeepNonBlank(ys)
  {
    if xs == [] {
      assert xs + ys == ys;
    } else {
      assert (xs + ys)[0] == xs[0];
      assert (xs + ys)[1..] == xs[1..] + ys;
      KeepNonBlankAppend(xs[1..], ys);
    }
  }

  /** With nothing configured the agent gets the documented defaults. */
  lemma DefaultCommandLine()
    ensures BuildArgs(map[]) == ["-s", "getexposed.io", "-p", "2200", "-ls", "localhost", "-lp", "7500", "-bp", "0"]
  {
    var none: Config := map[];
    assert Extras(none) == [];
    DefaultOptions();
    RenderDefaults();
    assert BuildArgs(none) == Render(Options(none), []);
  }

  lemma RenderDefaults()
    ensures Render(AgentOptions(Some("getexposed.io"), Some(2200), Some("localhost"), Some(7500), 0, None, None, false, false), [])
      == ["-s", "getexposed.io", "-p", "2200", "-ls", "localhost", "-lp", "7500", "-bp", "0"]
  {
    DefaultNumerals();
  }

  /** The options for empty settings: both hosts and ports at their defaults,
      `-bp 0`, and no id, password or boolean flag. */
  lemma DefaultOptions()
    ensures Options(map[]) == AgentOptions(Some("getexposed.io"), Some(2200), Some("localhost"), Some(7500), 0, None, None, false, false)
  {
    DefaultHosts();
    DefaultPorts();
    DefaultSecrets();
  }

  lemma DefaultHosts()
    ensures Options(map[]).sshHost == Some("getexposed.io") && Options(map[]).localHost == Some("localhost")
  {
    OptionsHosts(map[]);
  }

  lemma DefaultPorts()
    ensures Options(map[]).sshPort == Some(2200) && Options(map[]).localPort == Some(7500) && Options(map[]).bindPort == 0
  {
    OptionsPorts(map[]);
  }

  lemma DefaultSecrets()
    ensures Options(map[]).id == None && Options(map[]).password == None
  {
    OptionsSecrets(map[]);
  }

  lemma DefaultNumerals()
    ensures IntToString(2200) == "2200" && IntToString(7500) == "7500" && IntToString(0) == "0"
  {
    assert NatToString(2) == "2" && NatToString(22) == "22" && NatToString(220) == "220";
    assert NatToString(7) == "7" && NatToString(75) == "75" && NatToString(750) == "750";
  }

  // ---------------------------------------------------------------------
  // resolveCwd

  const Placeholder: string := "${workspaceFolder}"

  /** `resolveCwd()`: `folder` is the first workspace folder, if one is open,
      and `home` the user's home directory. */
  function ResolveCwd(cfg: Config, folder: Option<string>, home: string): string {
    var setting := TextOr(cfg, "drill.cwd", "");
    var hasFolder := folder.Some? && folder.value != "";
    if setting != "" && Contains(setting, Placeholder) then
      (if hasFolder then ReplaceFirst(setting, Placeholder, folder.value) else home)
    else if setting != "" then setting
    else if hasFolder then folder.value
    else home
  }

  /** The working directory: a setting naming the placeholder has its first
      occurrence replaced by the open folder, or gives the home directory
      when none is open; any other setting is used as is; with no setting,
      the open folder, else the home directory. */
  lemma ResolveCwdCases(cfg: Config, folder: Option<string>, home: string)
    ensures var cwd := ResolveCwd(cfg, folder, home);
      var setting := TextOr(cfg, "drill.cwd", "");
      var hasFolder := folder.Some? && folder.value != "";
      (Contains(setting, Placeholder) && !hasFolder ==> cwd == home) &&
      (Contains(setting, Placeholder) && hasFolder ==>
        exists i: nat :: OccursAt(setting, Placeholder, i) &&
          (forall j: nat :: j < i ==> !OccursAt(setting, Placeholder, j)) &&
          cwd == setting[..i] + folder.value + setting[i + |Placeholder|..]) &&
      (!Contains(setting, Placeholder) && setting != "" ==> cwd == setting) &&
      (setting == "" && hasFolder ==> cwd == folder.value) &&
      (setting == "" && !hasFolder ==> cwd == home)
  {
    var setting := TextOr(cfg, "drill.cwd", "");
    if Contains(setting, Placeholder) {
      var i: nat :| i <= |setting| && OccursAt(setting, Placeholder, i);
      assert setting != "";
    }
  }

  // ---------------------------------------------------------------------
  // The extra arguments typed into the `runOnce` input box

  /** Index of the first whitespace character. */
  function FirstSpace(s: string): (r: Option<nat>)
    ensures r.Some? ==> r.value < |s| && IsSpace(s[r.value]) && NoSpace(s[..r.value])
    ensures r.None? ==> NoSpace(s)
  {
    if s == [] then None
    else if IsSpace(s[0]) then Some(0)
    else match FirstSpace(s[1..])
      case Some(k) =>
        assert s[..k + 1] == [s[0]] + s[1..][..k];
        Some(k + 1)
      case None =>
        assert s == [s[0]] + s[1..];
        None
  }

  /** Length of the leading run of whitespace. */
  function SpaceRun(s: string): (n: nat)
    ensures n <= |s| && AllSpace(s[..n])
    ensures n < |s| ==> !IsSpace(s[n])
  {
    if s != [] && IsSpace(s[0]) then
      var n := SpaceRun(s[1..]);
      assert s[..n + 1] == [s[0]] + s[1..][..n];
      n + 1
    else 0
  }

  /** JavaScript `s.split(/\s+/)`: the pieces between maximal runs of whitespace;
      a leading or trailing run yields an empty piece. */
  function SplitSpace(s: string): (r: seq<string>)
    ensures r != []
    decreases |s|
  {
    match FirstSpace(s)
    case None => [s]
    case Some(i) =>
      var j := i + SpaceRun(s[i..]);
      [s[..i]] + SplitSpace(s[j..])
  }

  /** `input.trim() ? input.trim().split(/\s+/) : []`. */
  function RunArgs(input: string): seq<string> {
    var t := Trim(input);
    if t != "" then SplitSpace(t) else []
  }

  /** Splitting a string with no whitespace at either end gives non-empty,
      whitespace-free pieces. */
  lemma {:induction false} SplitTrimmed(s: string)
    requires s != [] && !IsSpace(s[0]) && !IsSpace(s[|s| - 1])
    ensures forall k :: 0 <= k < |SplitSpace(s)| ==> SplitSpace(s)[k] != "" && NoSpace(SplitSpace(s)[k])
    decreases |s|
  {
    match FirstSpace(s)
    case None =>
    case Some(i) =>
      var n := SpaceRun(s[i..]);
      var j := i + n;
      assert n >= 1;
      forall k | i <= k < j
        ensures IsSpace(s[k])
      {
        assert s[k] == s[i..][..n][k - i];
      }
      assert j < |s|;
      assert s[j] == s[i..][n];
      assert s[j..][|s[j..]| - 1] == s[|s| - 1];
      SplitTrimmed(s[j..]);
  }

  /** An all-whitespace input gives no arguments; any other input gives
      non-empty arguments free of whitespace. */
  lemma RunArgsWords(input: string)
    ensures RunArgs(input) == [] <==> AllSpace(input)
    ensures forall k :: 0 <= k < |RunArgs(input)| ==> RunArgs(input)[k] != "" && NoSpace(RunArgs(input)[k])
  {
    var t := Trim(input);
    if t != "" {
      SplitTrimmed(t);
    }
  }

  /** Words joined by single spaces. */
  function JoinWords(ws: seq<string>): string
    requires ws != []
  {
    if |ws| == 1 then ws[0] else ws[0] + " " + JoinWords(ws[1..])
  }

  predicate IsWord(w: string) {
    w != "" && NoSpace(w)
  }

  lemma {:induction false} JoinWordsEnds(ws: seq<string>)
    requires ws != [] && forall k :: 0 <= k < |ws| ==> IsWord(ws[k])
    ensures var s := JoinWords(ws); s != [] && !IsSpace(s[0]) && !IsSpace(s[|s| - 1])
  {
    assert IsWord(ws[0]);
    if |ws| > 1 {
      JoinWordsEnds(ws[1..]);
      var rest := JoinWords(ws[1..]);
      assert (ws[0] + " " + rest)[0] == ws[0][0];
      assert (ws[0] + " " + rest)[|ws[0]| + 1 + |rest| - 1] == rest[|rest| - 1];
    } else {
      assert ws[0][|ws[0]| - 1] in ws[0];
    }
  }

  /** The split is the inverse of joining words with spaces. */
  lemma {:induction false} SplitJoin(ws: seq<string>)
    requires ws != [] && forall k :: 0 <= k < |ws| ==> IsWord(ws[k])
    ensures SplitSpace(JoinWords(ws)) == ws
  {
    var w := ws[0];
    if |ws| == 1 {
      assert FirstSpace(w).None?;
    } else {
      var rest := JoinWords(ws[1..]);
      JoinWordsEnds(ws[1..]);
      var s := w + " " + rest;
      assert s[..|w|] == w;
      assert s[|w|..] == " " + rest;
      assert s == w + (" " + rest);
      FirstSpaceAfterWord(w, " " + rest);
      assert FirstSpace(s) == Some(|w|);
      assert SpaceRun(s[|w|..]) == 1 by {
        assert (" " + rest)[1..] == rest;
      }
      assert s[|w| + 1..] == rest;
      assert JoinWords(ws) == s;
      assert SplitSpace(s) == [w] + SplitSpace(rest);
      SplitJoin(ws[1..]);
      assert [w] + ws[1..] == ws;
    }
  }

  lemma {:induction false} FirstSpaceAfterWord(w: string, t: string)
    requires NoSpace(w) && t != [] && IsSpace(t[0])
    ensures FirstSpace(w + t) == Some(|w|)
  {
    if w == [] {
      assert w + t == t;
    } else {
      assert (w + t)[0] == w[0];
      assert (w + t)[1..] == w[1..] + t;
      FirstSpaceAfterWord(w[1..], t);
    }
  }

  /** The input box round trip: words typed with single spaces and any
      surrounding whitespace come back as exactly those words. */
  lemma RunArgsOfWords(ws: seq<string>, pad: string, pad': string)
    requires ws != [] && forall k :: 0 <= k < |ws| ==> IsWord(ws[k])
    requires AllSpace(pad) && AllSpace(pad')
    ensures RunArgs(pad + JoinWords(ws) + pad') == ws
  {
    var s := JoinWords(ws);
    JoinWordsEnds(ws);
    TrimPadded(pad, s, pad');
    SplitJoin(ws);
  }

  lemma TrimPadded(pad: string, s: string, pad': string)
    requires AllSpace(pad) && AllSpace(pad') && s != [] && !IsSpace(s[0]) && !IsSpace(s[|s| - 1])
    ensures Trim(pad + s + pad') == s
  {
    assert pad + s + pad' == pad + (s + pad');
    TrimStartPadded(pad, s + pad');
    TrimEndPadded(s, pad');
  }

  lemma {:induction false} TrimStartPadded(pad: string, s: string)
    requires AllSpace(pad) && s != [] && !IsSpace(s[0])
    ensures TrimStart(pad + s) == s
  {
    if pad == [] {
      assert pad + s == s;
    } else {
      assert (pad + s)[1..] == pad[1..] + s;
      TrimStartPadded(pad[1..], s);
    }
  }

  lemma {:induction false} TrimEndPadded(s: string, pad: string)
    requires AllSpace(pad) && s != [] && !IsSpace(s[|s| - 1])
    ensures TrimEnd(s + pad) == s
  {
    if pad == [] {
      assert s + pad == s;
    } else {
      var x := s + pad;
      assert x[|x| - 1] == pad[|pad| - 1];
      assert x[..|x| - 1] == s + pad[..|pad| - 1];
      TrimEndPadded(s, pad[..|pad| - 1]);
    }
  }

  // ---------------------------------------------------------------------
  // docker compose

  /** The trimmed `drill.composeFile`; non-empty selects the compose launch. */
  function ComposeFile(cfg: Config): string {
    Trim(TextOr(cfg, "drill.composeFile", ""))
  }

  /** The trimmed `drill.composeService`, `drill` when unset or empty. */
  function ComposeService(cfg: Config): string {
    Trim(TextOr(cfg, "drill.composeService", "drill"))
  }

  /** `["compose", "-f", composeFile, "up", composeService]`. */
  function ComposeArgv(cfg: Config): seq<string> {
    ["compose", "-f", ComposeFile(cfg), "up", ComposeService(cfg)]
  }

  /** The compose launch is selected exactly when `drill.composeFile` holds
      something besides whitespace; the service is `drill` when its setting
      is missing or empty. */
  lemma ComposeSettings(cfg: Config)
    ensures ComposeFile(cfg) != "" <==>
      GetText(cfg, "drill.composeFile").Some? && !AllSpace(GetText(cfg, "drill.composeFile").value)
    ensures GetText(cfg, "drill.composeService").None? || GetText(cfg, "drill.composeService") == Some("") ==>
      ComposeService(cfg) == "drill"
  {
    TrimUnchanged("drill");
    assert AllSpace("");
  }

  /** The default applies before trimming, so a whitespace-only service name
      reaches docker as an empty argument. */
  lemma BlankComposeService(cfg: Config)
    requires GetText(cfg, "drill.composeService").Some?
    requires GetText(cfg, "drill.composeService").value != "" && AllSpace(GetText(cfg, "drill.composeService").value)
    ensures ComposeArgv(cfg)[4] == ""
  {
  }

  /** The compose argument vector: `compose -f <file> up <service>`, with the
      file setting trimmed (empty when missing) and the service setting trimmed
      after an empty or missing one has become `drill`. */
  lemma ComposeArgvContents(cfg: Config)
    ensures var argv := ComposeArgv(cfg);
      |argv| == 5 && argv[0] == "compose" && argv[1] == "-f" && argv[3] == "up"
    ensures GetText(cfg, "drill.composeFile").Some? ==>
      ComposeArgv(cfg)[2] == Trim(GetText(cfg, "drill.composeFile").value)
    ensures GetText(cfg, "drill.composeFile").None? ==> ComposeArgv(cfg)[2] == ""
    ensures GetText(cfg, "drill.composeService").Some? && GetText(cfg, "drill.composeService").value != "" ==>
      ComposeArgv(cfg)[4] == Trim(GetText(cfg, "drill.composeService").value)
    ensures GetText(cfg, "drill.composeService").None? || GetText(cfg, "drill.composeService") == Some("") ==>
      ComposeArgv(cfg)[4] == "drill"
  {
    ComposeSettings(cfg);
    assert AllSpace("");
    if GetText(cfg, "drill.composeFile").Some? && GetText(cfg, "drill.composeFile").value == "" {
      assert ComposeFile(cfg) == Trim("");
    }
  }
}
