# drill-vscode core, modelled in Dafny

drill-vscode is a VS Code extension that runs the Drill tunnelling agent.
It fetches the agent binary from the project's GitHub releases when none is
installed. It builds the agent's command line from the user's settings and
starts, stops and re-runs the agent process. This project models the logic
behind those commands and proves properties of it:

- **`AssetResolver`** (`pickAsset`). It normalises Node's platform and
  architecture names and builds three candidate asset names. Each candidate
  is tried as an exact match, then as a substring match. Failing that, a
  loose test applies. Ties go to list order.
- **`Installer`** (`ensureDrill`). A decision ladder over an abstract file
  system (a set of existing paths), a release-host oracle and a trace of
  effects. The steps are: the `drill.path` override, then the cache path
  `<storage>/bin/drill` (`drill.exe` on Windows), then "not installed",
  then "no asset", then download, copy and `chmod 0o755`.
- **`CommandLine`**. Four pieces:
  - `buildArgsFromSettings` with its JavaScript `||` / `??` / truthiness
    defaults;
  - `resolveCwd`;
  - the whitespace split of the `runOnce` input box;
  - the `docker compose` argument vector.
- **`Supervisor`**. The command handlers as pure transitions of a record
  that holds the tracked process (`proc`):
  - `resolveBinary`;
  - `startAgent` and `stopAgent`;
  - the `close` handler installed by `wireProcess`;
  - the SIGKILL escalation timer;
  - `runOnce` and `installOrUpdate`.

  `Run` folds a sequence of events into one transition.
- **Supporting modules:**
  - `Settings`: the injected, typed configuration map;
  - `Effects`: the effect trace;
  - `Text`: `includes`, `indexOf`, first-occurrence `replace`, ASCII
    `trim`, decimal rendering and parsing;
  - `Wrappers`: `Option` and `Result`.

Settings are a map from keys to typed values. A value of the wrong type
reads as `undefined`. The release host is a parameter: its answer to the
latest-release query, and the download URLs that fail, each with the
status line of its failure. Process
identifiers are handed out fresh from a counter. So "the closing child is
the tracked one" means identifier equality.

The escalation timer is modelled as the code behaves. `stopAgent` sends
SIGINT and arms a timer that sends SIGKILL 1500 ms later.
The timer's closure reads `proc` when it fires, but `stopAgent` has already
cleared `proc` in its `finally` block. As a result:

- The stopped agent never receives SIGKILL, whatever follows
  (`Supervisor.StoppedAgentNeverKilled`).
- An agent started inside the window does receive it
  (`Supervisor.RestartKillsNewAgent`).

The model keeps this behaviour and does not assert that a stopped process
is force-killed.

Settings do not change during a call, so the repeated reads of a setting
(`drill.path` in both `resolveBinary` and `ensureDrill`) agree.

## Model

| member | source | states |
|---|---|---|
| AssetResolver.OsPart | src/installer.ts:15-18 | `win32` becomes `windows`; every other platform, `darwin` and `linux` included, is passed through unchanged |
| AssetResolver.ArchPart | src/installer.ts:20-23 | `x64` becomes `amd64`; every other architecture, `arm64` and `arm` included, is passed through unchanged |
| AssetResolver.NormaliseIdempotent | src/installer.ts:15-23 | normalising an already normalised platform or architecture changes nothing |
| AssetResolver.Candidates | src/installer.ts:25-29 | exactly three candidate names, each containing "drill", the OS part and the architecture part |
| AssetResolver.FindFirst | src/installer.ts:32 | `Array.find`: a returned index is in range and satisfies the test, no earlier element does, and none returned means no element does |
| AssetResolver.PickAsset | src/installer.ts:14-36 | a returned asset is an element of the input list; its name contains the OS part, the architecture part and, ignoring case, "drill" |
| AssetResolver.SearchFromFinds | src/installer.ts:31-35 | every stage of the search (exact, substring, loose) returns only an in-range asset that passes the loose test |
| AssetResolver.LooseAnyCase | src/installer.ts:35 | the loose test holds if and only if the name spells "drill" in any case and contains the OS and architecture parts as written |
| AssetResolver.MatchLoose | src/installer.ts:32-35 | a name containing any candidate passes the loose fallback test |
| AssetResolver.SearchFromIsBest | src/installer.ts:31-35 | if nothing matches below candidate `c`, the search from `c` returns the best asset, or nothing exactly when no asset matches at any level |
| AssetResolver.ExactIsBest | src/installer.ts:32-33 | an exact hit for candidate `c`, with nothing matching lower, is the best asset |
| AssetResolver.SubstringIsBest | src/installer.ts:32-33 | with no exact hit, the first substring hit for candidate `c` is the best asset |
| AssetResolver.NothingAtCandidate | src/installer.ts:31-34 | when both tests of candidate `c` fail, no asset matches at its two levels either |
| AssetResolver.BestWitness | src/installer.ts:31-35 | an asset at the lowest matching level, earliest in the list at that level, is the best one |
| AssetResolver.BestUnique | src/installer.ts:31-35 | the tie-break order singles out at most one asset |
| AssetResolver.PickAssetTieBreak | src/installer.ts:25-35 | `pickAsset` returns the asset of least level (candidate order first, exact before substring, loose last), earliest in list order within a level; it returns nothing exactly when no name equals or contains a candidate and none passes the loose test |
| AssetResolver.SamplePicksWindows | src/installer.ts:14-36 | win32/x64 picks `drill_windows_amd64` out of a five-build release |
| AssetResolver.SamplePicksDarwin | src/installer.ts:14-36 | darwin/arm64 picks `drill_darwin_arm64` |
| AssetResolver.SamplePicksLinux | src/installer.ts:14-36 | linux/x64 picks `drill_linux_amd64` |
| AssetResolver.SamplePicksArm | src/installer.ts:31-33 | on linux/arm the exact `drill_linux_arm` wins over the earlier-listed `drill_linux_arm64` |
| AssetResolver.ArmTakesArm64WhenAlone | src/installer.ts:32 | the substring test is kept as written: when only `drill_linux_arm64` is listed, linux/arm picks it |
| Installer.EnsureDrill | src/installer.ts:66-107 | existing files are kept. A non-blank override is returned trimmed, with no effect and no file written. Without an override, success means the cache path, which then exists. Failure means the cache path does not exist. A cache hit, or a call that may not install, makes no network request. No process is touched |
| Installer.Fetch | src/installer.ts:87-106 | the install steps start with the latest-release request. Success yields the cache path, which then exists. A failure writes nothing and is "no asset" or a remote error, never "not installed". A remote error names the URL of the request that failed, which is the last effect |
| Installer.InstallEffects | src/installer.ts:87-104 | a successful install requests the release, downloads next to the cache path and copies onto the cache path. It runs `chmod 0o755` on the cache path except on win32, where only three effects occur |
| Installer.BinPathIsNotDir | src/installer.ts:74-77 | the cache path differs from the directory holding it |
| Installer.CacheHit | src/installer.ts:74-81 | with no override and an existing cache path, the result is that path. The only effect is the directory creation, and whether installing is allowed does not matter |
| Installer.NotInstalledExactly | src/installer.ts:83-85 | the result is "Drill not installed" if and only if there is no override, no cached binary and installing is not allowed. That failure makes no network request and carries the source's message |
| Installer.NoAssetFound | src/installer.ts:87-91 | with no matching asset, the call fails with "No release asset found for <platform>/<arch>" after exactly a directory creation and one release request |
| Installer.FetchNoAsset | src/installer.ts:87-91 | with no matching asset, the install steps write nothing and make only the release request |
| Installer.AfterCacheMiss | src/installer.ts:74-87 | with no override and no cached binary, an installing call creates the cache directory and then runs the install steps |
| Installer.InstallSteps | src/installer.ts:93-106 | a full install returns the cache path. It writes exactly the directory, the download and the cache path, and performs exactly mkdir followed by the install effects |
| Installer.FetchInstalls | src/installer.ts:93-106 | the install steps of a matching asset with a working download write the download and the cache path |
| Installer.SecondCallHitsCache | src/installer.ts:79-81 | after a successful call, a second call returns the same path and writes nothing new. This holds for any release host and any install flag, and the second call makes no network request |
| Installer.TmpIsNotCachePath | src/installer.ts:76-93 | the downloaded file never lands on the cache path when the cache file name cannot contain the OS part |
| Installer.SupportedPlatformsKeepTmpApart | src/installer.ts:15-18 | on win32, darwin and linux the cache file name does not contain the OS part |
| CommandLine.HostOption | src/extension.ts:46-58 | the host flag is always written: the setting if non-empty, else the fallback |
| CommandLine.PortOption | src/extension.ts:47-59 | a missing port becomes the default, an explicit 0 drops the flag, and any other number is written |
| CommandLine.SecretOption | src/extension.ts:51-62 | the flag is written exactly when the setting holds something besides whitespace, and it carries the trimmed value |
| CommandLine.Options | src/extension.ts:46-54 | `-s` and `-ls` always carry a non-empty host |
| CommandLine.OptionsHosts | src/extension.ts:46-48 | an empty or missing host falls back to `getexposed.io` and `localhost` |
| CommandLine.OptionsPorts | src/extension.ts:47-60 | `-p`/`-lp` are dropped exactly when the port is explicitly 0. Missing ports become 2200 and 7500, and a missing bind port becomes 0 |
| CommandLine.OptionsSecrets | src/extension.ts:51-62 | `-id`/`-pw` are present if and only if the setting is not blank, and they carry the trimmed value |
| CommandLine.KeepNonBlank | src/extension.ts:66-67 | every kept extra argument is an entry of `drill.args` and is not blank |
| CommandLine.KeepNonBlankMembers | src/extension.ts:67 | an entry is passed on if and only if it is in `drill.args` and not blank |
| CommandLine.KeepNonBlankAppend | src/extension.ts:67 | kept entries keep their order: filtering distributes over concatenation |
| CommandLine.TakeValueRoundTrip | src/extension.ts:56-62 | a written `flag value` pair, or its absence, reads back as the option |
| CommandLine.TakeNumberRoundTrip | src/extension.ts:57-60 | a written numeric flag reads back as its number |
| CommandLine.TakeFlagRoundTrip | src/extension.ts:63-64 | a value-less flag reads back as its boolean |
| CommandLine.ParseTailRender | src/extension.ts:61-64 | the optional `-id -pw -a -r` flags read back in order |
| CommandLine.ParseRender | src/extension.ts:56-67 | the flags in the fixed order `-s -p -ls -lp -bp -id -pw -a -r`, followed by the extras, read back as exactly the options and the untouched extras |
| CommandLine.BuildArgsParses | src/extension.ts:44-70 | `buildArgsFromSettings()` reads back as the defaulted options followed by the kept `drill.args` entries, verbatim and in order |
| CommandLine.DefaultCommandLine | src/extension.ts:44-70 | with no settings, the command line is `-s getexposed.io -p 2200 -ls localhost -lp 7500 -bp 0` |
| CommandLine.DefaultOptions | src/extension.ts:46-54 | empty settings give the default hosts and ports, bind port 0, and no id, password or boolean flag |
| CommandLine.ResolveCwdCases | src/extension.ts:35-42 | covers every case. A setting containing `${workspaceFolder}` has its first occurrence replaced by the open folder, or yields the home directory when no folder is open. Any other non-empty setting is used as is. Otherwise the result is the open folder, else the home directory |
| CommandLine.FirstSpace | src/extension.ts:168 | index of the first whitespace character; none means the string has none |
| CommandLine.SpaceRun | src/extension.ts:168 | length of the maximal leading run of whitespace |
| CommandLine.SplitTrimmed | src/extension.ts:168 | splitting a string with no whitespace at either end on `/\s+/` gives non-empty, whitespace-free pieces |
| CommandLine.RunArgsWords | src/extension.ts:168 | the input-box words are empty if and only if the input is all whitespace; otherwise each word is non-empty and has no whitespace |
| CommandLine.JoinWordsEnds | src/extension.ts:168 | words joined by spaces neither start nor end with whitespace |
| CommandLine.SplitJoin | src/extension.ts:168 | splitting on whitespace inverts joining words with single spaces |
| CommandLine.FirstSpaceAfterWord | src/extension.ts:168 | the first whitespace after a word is right after it |
| CommandLine.RunArgsOfWords | src/extension.ts:168 | words typed with single spaces and any surrounding whitespace come back as exactly those words |
| CommandLine.TrimPadded | src/extension.ts:168 | trimming removes exactly the surrounding whitespace of text that has no whitespace at either end |
| CommandLine.ComposeSettings | src/extension.ts:108-115 | the compose launch is chosen if and only if `drill.composeFile` holds something besides whitespace; a missing or empty service is `drill` |
| CommandLine.BlankComposeService | src/extension.ts:109-116 | the default applies before trimming, so a whitespace-only service reaches docker as an empty argument |
| CommandLine.ComposeArgvContents | src/extension.ts:108-116 | the argument vector is `compose -f <file> up <service>`. The file is the trimmed setting, or empty when missing. The service is the trimmed setting, or `drill` when the setting is missing or empty |
| Text.IndexOf | src/extension.ts:39 | the first occurrence, or none exactly when there is none |
| Text.ReplaceFirst | src/extension.ts:39 | `String.replace` with a string pattern replaces only the first occurrence; without an occurrence the string is unchanged |
| Text.CaseInsensitiveContains | src/installer.ts:35 | `/w/i.test(s)`: the case-folded name contains `w` if and only if some window of the name folds to `w` |
| Text.CaseVariantContained | src/installer.ts:35 | any ASCII-case spelling of the word in the name (`DRILL`, `Drill`) passes the case-insensitive search |
| Text.ContainsLowerWord | src/installer.ts:35 | a name containing a lower-case word still contains it after lower-casing |
| Text.Trim | src/installer.ts:71 | the result is empty if and only if the input is all whitespace; otherwise it starts and ends with non-whitespace |
| Text.TrimSlice | src/installer.ts:71 | the trimmed string is a slice of the input with only whitespace cut from each side |
| Text.TrimParts | src/installer.ts:71 | trimming cuts a whitespace prefix and a whitespace suffix |
| Text.TrimUnchanged | src/installer.ts:71 | text without whitespace at either end is left unchanged |
| Text.TrimIdempotent | src/installer.ts:71 | trimming twice is trimming once |
| Text.IntToStringRoundTrip | src/extension.ts:57-60 | `String(n)` reads back as `n` |
| Text.ParseNatToString | src/extension.ts:57-60 | decimal rendering of a natural number parses back to it |
| Supervisor.ResolveBinary | src/extension.ts:83-100 | the override short-circuits everything. A cached binary is used even with auto-install off, with no network request. With nothing cached and auto-install off, there is no binary. An install error occurs only with auto-install on and nothing cached. Any binary without an override is the cache path, which then exists |
| Supervisor.AutoInstallPropagates | src/extension.ts:93-99 | with auto-install on and nothing cached, the install error is passed on unchanged, and a successful install yields the cache path |
| Supervisor.StartAgent | src/extension.ts:102-134 | while a handle is tracked, nothing happens. A spawn tracks the fresh identifier. Without a spawn the handle is unchanged, and validity is preserved |
| Supervisor.StartTwice | src/extension.ts:103-106 | a second `startAgent` while the first agent runs changes nothing and spawns nothing |
| Supervisor.ComposeStart | src/extension.ts:115-118 | with a compose file, `docker compose -f <file> up <service>` is spawned in the resolved directory, with no binary resolution |
| Supervisor.StartWithBinary | src/extension.ts:119-127 | without compose, the resolved binary is spawned with the settings' command line after the resolution's effects |
| Supervisor.StartFromCache | src/extension.ts:87-127 | a cached binary is started and tracked with the settings' command line, whatever the auto-install setting |
| Supervisor.StopAgent | src/extension.ts:136-152 | a stop without a handle does nothing. Otherwise the handle is always cleared: win32 uses `taskkill`, elsewhere SIGINT is sent and a SIGKILL timer armed, unless `kill` throws |
| Supervisor.FireTimer | src/extension.ts:143 | a firing timer sends SIGKILL to whatever handle is current at that moment, and to nothing when none is |
| Supervisor.StopThenFire | src/extension.ts:142-147 | stopping and letting the timer fire sends SIGINT and nothing else to the stopped agent |
| Supervisor.RestartWithinWindow | src/extension.ts:115-147 | an agent started within the escalation window receives the SIGKILL meant for its predecessor |
| Supervisor.StoppedAgentNeverKilled | src/extension.ts:136-147 | whatever events follow `stopAgent`, no SIGKILL is ever sent to the stopped process |
| Supervisor.RunSpares | src/extension.ts:102-188 | from a state where an identifier was handed out and is not tracked, no run of events sends it SIGKILL |
| Supervisor.RestartKillsNewAgent | src/extension.ts:102-147 | whatever starts the next agent within the window, compose or a binary, that agent receives the SIGKILL and stays tracked |
| Supervisor.Close | src/extension.ts:180-187 | a close clears the handle if and only if the closing child is the tracked one; otherwise nothing changes |
| Supervisor.RunOnce | src/extension.ts:154-175 | the handle is never assigned. A dismissed input box spawns nothing, and a spawn uses a fresh identifier |
| Supervisor.RunOnceSpawns | src/extension.ts:168-173 | the child gets the settings' command line followed by the input-box words, in the resolved directory |
| Supervisor.RunOnceChildIsNotTracked | src/extension.ts:173-187 | the close of a `runOnce` child never clears the tracked agent |
| Supervisor.InstallOrUpdate | src/extension.ts:72-81 | the reply carries no path if and only if `ensureDrill` with installing allowed fails. A path without an override is the cache path, which then exists. The handle is untouched |
| Supervisor.Step | src/extension.ts:18-29 | each command or process event keeps the supervisor valid and only targets handed-out identifiers |
| Supervisor.RunKeepsValid | src/extension.ts:102-188 | after any sequence of events, the tracked handle is one that was spawned, identifiers only grow, and no effect signals an identifier not yet handed out |

## Left out

- The VS Code surface: status bar, output channel, command registration, the progress notification and information/warning/error messages. `deactivate` is `stopAgent`, which is `Stop` in the event model.
- `fetch`, HTTP headers and JSON decoding (`httpJson`, `download`). The release host is a parameter giving the latest-release answer or a remote error, and the failing download URLs. A release without `assets` is treated as having an empty list.
- `sha256File` and the `console.log` of the digest. The digest is only logged, never compared.
- Installer.EnsureDrill: the promise that a failed call leaves nothing at the cache path holds only because `copyFile` and `chmod` never fail in the model. In the code, `copyFile` runs before `chmod`. A `chmod` that throws makes the call fail with the file already at the cache path, and the next call returns that file as a cache hit.
- Real filesystem behaviour. `mkdir`, `copyFile` and `chmod` are assumed to succeed. `fs.existsSync` is membership in the path set. `path.join` and `Uri.joinPath` are concatenation with `\` on win32 and `/` elsewhere, without normalisation.
- `spawn`, `kill`, `taskkill`/`spawnSync` and `setTimeout` mechanics, and the stdout/stderr relay. Only handle transitions and abstract process-control effects are modelled. A `taskkill` that fails is not distinguished from one that succeeds. A `kill` that throws inside the timer is not modelled.
- Async interleaving. Two `startAgent` calls could both pass the handle check before either spawns; all calls are modelled as sequential.
- `trim()` and `/\s+/` use the ASCII whitespace set (space, tab, newline, vertical tab, form feed, carriage return), not Unicode's. `/drill/i` uses ASCII case folding.
- Settings of the wrong JSON type read as `undefined`. Numbers are integers: `NaN`, fractions and JavaScript number formatting are not modelled.
- `Text.ReplaceFirst`: does not model `$` substitution patterns in the replacement string, because folder paths containing `$&` or `$1` are not considered.
- `Installer.NoAssetFound`: does not itself restate that the cache path is absent afterwards, because `Installer.EnsureDrill` states this for every failure.
- The round trip of the command line (`CommandLine.ParseRender`) reads the flags with a reader defined here, not the agent's own parser, which is outside this repository. It needs the first extra argument not to be one of `-id -pw -a -r`.
