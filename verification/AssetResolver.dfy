/** Selection of the release asset to download for the running platform
    (`pickAsset` in src/installer.ts). Asset names are matched against three
    candidate names in a fixed order, each first exactly and then as a
    substring; failing that, a loose test on "drill", the OS and the
    architecture. The first asset in list order wins within each test. */
module AssetResolver {
  import opened Wrappers
  import opened Text

  /** One downloadable artifact of a release. */
  datatype Asset = Asset(name: string, url: string)

  /** Node's `process.platform` mapped to the release naming scheme. */
  function OsPart(platform: string): (r: string)
    ensures platform == "win32" ==> r == "windows"
    ensures platform != "win32" ==> r == platform
  {
    if platform == "win32" then "windows"
    else if platform == "darwin" then "darwin"
    else if platform == "linux" then "linux"
    else platform
  }

  /** Node's `process.arch` mapped to the release naming scheme. */
  function ArchPart(arch: string): (r: string)
    ensures arch == "x64" ==> r == "amd64"
    ensures arch != "x64" ==> r == arch
  {
    if arch == "x64" then "amd64"
    else if arch == "arm64" then "arm64"
    else if arch == "arm" then "arm"
    else arch
  }

  /** Normalisation is idempotent: a normalised name is left alone. */
  lemma NormaliseIdempotent(platform: string, arch: string)
    ensures OsPart(OsPart(platform)) == OsPart(platform)
    ensures ArchPart(ArchPart(arch)) == ArchPart(arch)
  {
  }

  /** The three candidate asset names, in the order they are tried. */
  function Candidates(os: string, arch: string): (cs: seq<string>)
    ensures |cs| == 3
    ensures forall k :: 0 <= k < 3 ==> Contains(cs[k], "drill") && Contains(cs[k], os) && Contains(cs[k], arch)
  {
    var cs := ["drill_" + os + "_" + arch, "drill-" + os + "-" + arch, "drill_" + arch + "_" + os];
    CandidateContains("drill_", os, "_", arch);
    CandidateContains("drill-", os, "-", arch);
    CandidateContains("drill_", arch, "_", os);
    cs
  }

  lemma CandidateContains(a: string, b: string, c: string, d: string)
    requires a == "drill_" || a == "drill-"
    ensures Contains(a + b + c + d, "drill") && Contains(a + b + c + d, b) && Contains(a + b + c + d, d)
  {
    ContainsPieces(a, b, c + d);
    ContainsPieces(a + b, c, d);
    assert a + b + (c + d) == a + b + c + d;
    assert OccursAt(a, "drill", 0);
    ContainsTransitive(a + b + c + d, a, "drill");
  }

  /** The loose fallback test: `/drill/i`, the OS part and the architecture part. */
  predicate Loose(name: string, os: string, arch: string) {
    Contains(ToLower(name), "drill") && Contains(name, os) && Contains(name, arch)
  }

  /** The loose test reads `/drill/i` as the case-insensitive search it is:
      a name passes when some window of it spells "drill" in any case, and it
      contains the OS part and the architecture part as written. */
  lemma LooseAnyCase(name: string, os: string, arch: string)
    ensures Loose(name, os, arch) <==>
      (exists i: nat :: FoldsAt(name, "drill", i)) && Contains(name, os) && Contains(name, arch)
  {
    CaseInsensitiveContains(name, "drill");
  }

  /** JavaScript `Array.prototype.find`, returning the index of the first hit. */
  function FindFirst(assets: seq<Asset>, p: Asset -> bool): (r: Option<nat>)
    ensures r.Some? ==> r.value < |assets| && p(assets[r.value])
    ensures r.Some? ==> forall j :: 0 <= j < r.value ==> !p(assets[j])
    ensures r.None? ==> forall j :: 0 <= j < |assets| ==> !p(assets[j])
  {
    if assets == [] then None
    else if p(assets[0]) then Some(0)
    else match FindFirst(assets[1..], p)
      case Some(k) => Some(k + 1)
      case None => None
  }

  /** The three tests `pickAsset` hands to `find`. */
  function NameIs(want: string): Asset -> bool {
    (a: Asset) => a.name == want
  }

  function NameContains(want: string): Asset -> bool {
    (a: Asset) => Contains(a.name, want)
  }

  function LooseTest(os: string, arch: string): Asset -> bool {
    (a: Asset) => Loose(a.name, os, arch)
  }

  /** Match levels in priority order: for candidate `c` of the three, level
      `2c` is an exact name match and `2c + 1` a substring match; level 6 is the
      loose test. */
  predicate MatchesAt(name: string, os: string, arch: string, level: nat)
    requires level <= 6
  {
    var cs := Candidates(os, arch);
    if level == 0 then name == cs[0]
    else if level == 1 then Contains(name, cs[0])
    else if level == 2 then name == cs[1]
    else if level == 3 then Contains(name, cs[1])
    else if level == 4 then name == cs[2]
    else if level == 5 then Contains(name, cs[2])
    else Loose(name, os, arch)
  }

  /** Asset `i` is the one the tie-break order selects: it matches at some level,
      no asset matches at a lower level, and no earlier asset matches at that level. */
  predicate IsBest(assets: seq<Asset>, os: string, arch: string, i: nat) {
    i < |assets| &&
    exists level: nat | level <= 6 ::
      MatchesAt(assets[i].name, os, arch, level) &&
      forall j, l: nat | 0 <= j < |assets| && l <= 6 && MatchesAt(assets[j].name, os, arch, l) ::
        level < l || (level == l && i <= j)
  }

  /** The search over candidates from index `c` on, then the fallback. */
  function SearchFrom(assets: seq<Asset>, os: string, arch: string, c: nat): (r: Option<nat>)
    requires c <= 3
    decreases 3 - c
  {
    var cs := Candidates(os, arch);
    if c == 3 then
      FindFirst(assets, LooseTest(os, arch))
    else
      match FindFirst(assets, NameIs(cs[c]))
      case Some(i) => Some(i)
      case None =>
        match FindFirst(assets, NameContains(cs[c]))
        case Some(i) => Some(i)
        case None => SearchFrom(assets, os, arch, c + 1)
  }

  /** `pickAsset(assets)` for the given OS and architecture parts. */
  function PickAsset(assets: seq<Asset>, os: string, arch: string): (r: Option<Asset>)
    ensures r.Some? ==> r.value in assets
    ensures r.Some? ==> Contains(r.value.name, os) && Contains(r.value.name, arch)
    ensures r.Some? ==> Contains(ToLower(r.value.name), "drill")
  {
    match SearchFrom(assets, os, arch, 0)
    case Some(i) =>
      SearchFromFinds(assets, os, arch, 0);
      Some(assets[i])
    case None => None
  }

  /** Whatever the search returns is an asset that matches at some level, and
      every level matches only names carrying "drill", the OS and the architecture. */
  lemma {:induction false} SearchFromFinds(assets: seq<Asset>, os: string, arch: string, c: nat)
    requires c <= 3
    ensures var r := SearchFrom(assets, os, arch, c);
      r.Some? ==> r.value < |assets| && Loose(assets[r.value].name, os, arch)
    decreases 3 - c
  {
    var cs := Candidates(os, arch);
    var r := SearchFrom(assets, os, arch, c);
    if c < 3 && r.Some? {
      var n := assets[r.value].name;
      if FindFirst(assets, NameIs(cs[c])).Some? {
        ContainsSelf(n);
        MatchLoose(n, cs[c], os, arch);
      } else if FindFirst(assets, NameContains(cs[c])).Some? {
        MatchLoose(n, cs[c], os, arch);
      } else {
        SearchFromFinds(assets, os, arch, c + 1);
      }
    }
  }

  /** A name containing a candidate passes the loose test. */
  lemma MatchLoose(name: string, cand: string, os: string, arch: string)
    requires cand in Candidates(os, arch) && Contains(name, cand)
    ensures Loose(name, os, arch)
  {
    ContainsTransitive(name, cand, "drill");
    ContainsTransitive(name, cand, os);
    ContainsTransitive(name, cand, arch);
    ContainsLowerWord(name, "drill");
  }

  /** If nothing matches below level `2c`, the search from candidate `c`
      returns the best asset, or nothing when no asset matches at all. */
  lemma {:induction false} SearchFromIsBest(assets: seq<Asset>, os: string, arch: string, c: nat)
    requires c <= 3
    requires forall j, l: nat | 0 <= j < |assets| && l < 2 * c :: !MatchesAt(assets[j].name, os, arch, l)
    ensures var r := SearchFrom(assets, os, arch, c);
      (r.Some? ==> IsBest(assets, os, arch, r.value)) &&
      (r.None? ==> forall j, l: nat | 0 <= j < |assets| && l <= 6 :: !MatchesAt(assets[j].name, os, arch, l))
    decreases 3 - c
  {
    var cs := Candidates(os, arch);
    if c == 3 {
      var f := FindFirst(assets, LooseTest(os, arch));
      if f.Some? {
        BestWitness(assets, os, arch, f.value, 6);
      }
    } else if FindFirst(assets, NameIs(cs[c])).Some? {
      ExactIsBest(assets, os, arch, c);
    } else if FindFirst(assets, NameContains(cs[c])).Some? {
      SubstringIsBest(assets, os, arch, c);
    } else {
      NothingAtCandidate(assets, os, arch, c);
      SearchFromIsBest(assets, os, arch, c + 1);
    }
  }

  /** Levels `2c` and `2c + 1` are the exact and the substring test of candidate `c`. */
  lemma LevelsOf(name: string, os: string, arch: string, c: nat)
    requires c < 3
    ensures MatchesAt(name, os, arch, 2 * c) <==> name == Candidates(os, arch)[c]
    ensures MatchesAt(name, os, arch, 2 * c + 1) <==> Contains(name, Candidates(os, arch)[c])
  {
  }

  lemma ExactIsBest(assets: seq<Asset>, os: string, arch: string, c: nat)
    requires c < 3
    requires forall j, l: nat | 0 <= j < |assets| && l < 2 * c :: !MatchesAt(assets[j].name, os, arch, l)
    requires FindFirst(assets, NameIs(Candidates(os, arch)[c])).Some?
    ensures IsBest(assets, os, arch, FindFirst(assets, NameIs(Candidates(os, arch)[c])).value)
  {
    var cs := Candidates(os, arch);
    var i := FindFirst(assets, NameIs(cs[c])).value;
    assert NameIs(cs[c])(assets[i]);
    LevelsOf(assets[i].name, os, arch, c);
    forall j | 0 <= j < i
      ensures !MatchesAt(assets[j].name, os, arch, 2 * c)
    {
      assert !NameIs(cs[c])(assets[j]);
      LevelsOf(assets[j].name, os, arch, c);
    }
    BestWitness(assets, os, arch, i, 2 * c);
  }

  lemma SubstringIsBest(assets: seq<Asset>, os: string, arch: string, c: nat)
    requires c < 3
    requires forall j, l: nat | 0 <= j < |assets| && l < 2 * c :: !MatchesAt(assets[j].name, os, arch, l)
    requires FindFirst(assets, NameIs(Candidates(os, arch)[c])).None?
    requires FindFirst(assets, NameContains(Candidates(os, arch)[c])).Some?
    ensures IsBest(assets, os, arch, FindFirst(assets, NameContains(Candidates(os, arch)[c])).value)
  {
    var cs := Candidates(os, arch);
    var i := FindFirst(assets, NameContains(cs[c])).value;
    assert NameContains(cs[c])(assets[i]);
    LevelsOf(assets[i].name, os, arch, c);
    forall j, l: nat | 0 <= j < |assets| && l < 2 * c + 1
      ensures !MatchesAt(assets[j].name, os, arch, l)
    {
      if l == 2 * c {
        assert !NameIs(cs[c])(assets[j]);
        LevelsOf(assets[j].name, os, arch, c);
      }
    }
    forall j | 0 <= j < i
      ensures !MatchesAt(assets[j].name, os, arch, 2 * c + 1)
    {
      assert !NameContains(cs[c])(assets[j]);
      LevelsOf(assets[j].name, os, arch, c);
    }
    BestWitness(assets, os, arch, i, 2 * c + 1);
  }

  /** When neither test of candidate `c` finds an asset, nothing matches
      below level `2c + 2` either. */
  lemma NothingAtCandidate(assets: seq<Asset>, os: string, arch: string, c: nat)
    requires c < 3
    requires forall j, l: nat | 0 <= j < |assets| && l < 2 * c :: !MatchesAt(assets[j].name, os, arch, l)
    requires FindFirst(assets, NameIs(Candidates(os, arch)[c])).None?
    requires FindFirst(assets, NameContains(Candidates(os, arch)[c])).None?
    ensures forall j, l: nat | 0 <= j < |assets| && l < 2 * c + 2 :: !MatchesAt(assets[j].name, os, arch, l)
  {
    var cs := Candidates(os, arch);
    forall j | 0 <= j < |assets|
      ensures !MatchesAt(assets[j].name, os, arch, 2 * c)
      ensures !MatchesAt(assets[j].name, os, arch, 2 * c + 1)
    {
      assert !NameIs(cs[c])(assets[j]);
      assert !NameContains(cs[c])(assets[j]);
      LevelsOf(assets[j].name, os, arch, c);
    }
  }

  /** Asset `i` matching at `level`, with nothing lower and nothing earlier at
      that level, is the best one. */
  lemma BestWitness(assets: seq<Asset>, os: string, arch: string, i: nat, level: nat)
    requires i < |assets| && level <= 6 && MatchesAt(assets[i].name, os, arch, level)
    requires forall j, l: nat | 0 <= j < |assets| && l < level :: !MatchesAt(assets[j].name, os, arch, l)
    requires forall j :: 0 <= j < i ==> !MatchesAt(assets[j].name, os, arch, level)
    ensures IsBest(assets, os, arch, i)
  {
  }

  /** At most one asset is the best one. */
  lemma BestUnique(assets: seq<Asset>, os: string, arch: string, i: nat, k: nat)
    requires IsBest(assets, os, arch, i) && IsBest(assets, os, arch, k)
    ensures i == k
  {
    var li: nat :| li <= 6 && MatchesAt(assets[i].name, os, arch, li) &&
      forall j, l: nat | 0 <= j < |assets| && l <= 6 && MatchesAt(assets[j].name, os, arch, l) ::
        li < l || (li == l && i <= j);
    var lk: nat :| lk <= 6 && MatchesAt(assets[k].name, os, arch, lk) &&
      forall j, l: nat | 0 <= j < |assets| && l <= 6 && MatchesAt(assets[j].name, os, arch, l) ::
        lk < l || (lk == l && k <= j);
  }

  /** The tie-break order, stated independently of the search: `pickAsset`
      returns the asset of least match level, earliest in list order, and
      returns nothing exactly when no asset matches any candidate name, exactly
      or as a substring, and none passes the loose test. */
  lemma PickAssetTieBreak(assets: seq<Asset>, os: string, arch: string)
    ensures PickAsset(assets, os, arch).Some? ==>
      exists i: nat :: IsBest(assets, os, arch, i) && PickAsset(assets, os, arch).value == assets[i]
    ensures forall i: nat :: IsBest(assets, os, arch, i) ==> PickAsset(assets, os, arch) == Some(assets[i])
    ensures PickAsset(assets, os, arch).None? <==>
      forall j, l: nat | 0 <= j < |assets| && l <= 6 :: !MatchesAt(assets[j].name, os, arch, l)
  {
    SearchFromIsBest(assets, os, arch, 0);
    var r := SearchFrom(assets, os, arch, 0);
    forall i: nat | IsBest(assets, os, arch, i)
      ensures PickAsset(assets, os, arch) == Some(assets[i])
    {
      if r.Some? {
        BestUnique(assets, os, arch, i, r.value);
      }
    }
  }

  /** A release listing every supported build: each platform gets its own. */
  function SampleRelease(): seq<Asset> {
    [Asset("drill_windows_amd64", "w"), Asset("drill_darwin_arm64", "d"),
     Asset("drill_linux_amd64", "l"), Asset("drill_linux_arm64", "l64"), Asset("drill_linux_arm", "l32")]
  }

  /** Each supported platform and architecture picks its own build among the decoys. */
  lemma SamplePicksWindows()
    ensures PickAsset(SampleRelease(), OsPart("win32"), ArchPart("x64")) == Some(Asset("drill_windows_amd64", "w"))
  {
    var xs := SampleRelease();
    assert Candidates("windows", "amd64")[0] == xs[0].name;
    assert NameIs(xs[0].name)(xs[0]);
  }

  lemma SamplePicksDarwin()
    ensures PickAsset(SampleRelease(), OsPart("darwin"), ArchPart("arm64")) == Some(Asset("drill_darwin_arm64", "d"))
  {
    var xs := SampleRelease();
    assert Candidates("darwin", "arm64")[0] == xs[1].name;
    assert !NameIs(xs[1].name)(xs[0]);
    assert NameIs(xs[1].name)(xs[1]);
  }

  lemma SamplePicksLinux()
    ensures PickAsset(SampleRelease(), OsPart("linux"), ArchPart("x64")) == Some(Asset("drill_linux_amd64", "l"))
  {
    var xs := SampleRelease();
    assert Candidates("linux", "amd64")[0] == xs[2].name;
    assert !NameIs(xs[2].name)(xs[0]) && !NameIs(xs[2].name)(xs[1]);
    assert NameIs(xs[2].name)(xs[2]);
  }

  /** On `arm` the exact name wins over the earlier-listed `drill_linux_arm64`. */
  lemma SamplePicksArm()
    ensures PickAsset(SampleRelease(), OsPart("linux"), ArchPart("arm")) == Some(Asset("drill_linux_arm", "l32"))
  {
    var xs := SampleRelease();
    var want := xs[4].name;
    assert Candidates("linux", "arm")[0] == want;
    assert !NameIs(want)(xs[0]) && !NameIs(want)(xs[1]) && !NameIs(want)(xs[2]) && !NameIs(want)(xs[3]);
    assert NameIs(want)(xs[4]);
  }

  /** The loose matching is kept as it is: on `arm`, a release with only the
      64-bit build yields that build, because `drill_linux_arm` is a substring
      of `drill_linux_arm64`. */
  lemma ArmTakesArm64WhenAlone()
    ensures PickAsset([Asset("drill_linux_arm64", "u")], "linux", "arm") == Some(Asset("drill_linux_arm64", "u"))
  {
    var xs := [Asset("drill_linux_arm64", "u")];
    var want := Candidates("linux", "arm")[0];
    assert want == "drill_linux_arm";
    assert !NameIs(want)(xs[0]);
    assert OccursAt(xs[0].name, want, 0);
    assert NameContains(want)(xs[0]);
  }
}
