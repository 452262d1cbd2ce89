/**
 * The newer project model of tools/project/config.py: units, compiler profiles and diffs,
 * and `Lib`, which crosses every profile with every unit into Objects, Diffs and one
 * Archive per profile.
 *
 * config.py reads `config.output_dir` and `config.archive_dir`, which its ProjectConfig
 * does not declare, and names `Object` and `Archive` without importing them; here the two
 * directories are fields of the configuration record and the records are those of
 * tools/project/build.py (module ProjectBuild).
 */
module ProjectLib {
  import opened Wrappers
  import Strings
  import opened Paths
  import opened ProjectBuild

  /** A translation unit; `signed_char` defaults to False. */
  datatype Unit = Unit(name: string, complete: bool, signedChar: bool)

  /** A build variant: name, suffix of its reference archive, and its compiler flags. */
  datatype Profile = Profile(name: string, archiveSuffix: string, cflags: seq<string>)

  /** A comparison task for the diff tool. */
  datatype Diff = Diff(name: string, targetPath: Path, basePath: Path, reverseFnOrder: bool, complete: bool)

  /**
   * The configuration root. `srcDir`, `buildDir`, `origDir` and `mwcc` are class constants in the
   * source ("src", "build", "orig", "GC/1.2.5"); `outputDir` and `archiveDir` are supplied.
   */
  datatype ProjectConfig = ProjectConfig(
    profiles: seq<Profile>, version: Option<string>,
    srcDir: Path, buildDir: Path, origDir: Path, mwcc: Path,
    outputDir: Path, archiveDir: Path)

  /** The configuration with the source's class constants. */
  function DefaultConfig(profiles: seq<Profile>, outputDir: Path, archiveDir: Path): (c: ProjectConfig)
    ensures c.profiles == profiles && c.version.None?
    ensures c.srcDir == SrcPath && c.buildDir == BuildPath && c.origDir == OrigPath && c.mwcc == MwccPath
    ensures c.outputDir == outputDir && c.archiveDir == archiveDir
  {
    ProjectConfig(profiles, None, SrcPath, BuildPath, OrigPath, MwccPath, outputDir, archiveDir)
  }

  /** `Path("src")`, `Path("build")`, `Path("orig")` and `Path("GC/1.2.5")`, and the directory names of `make_dir`. */
  const SrcPath := Path(["src"])
  const BuildPath := Path(["build"])
  const OrigPath := Path(["orig"])
  const MwccPath := Path(["GC", "1.2.5"])
  const ObjPath := Path(["obj"])
  const DwarfDirPath := Path(["dwarf"])

  /** A unit whose source name has a last component, as `with_suffix` demands. */
  predicate ValidUnit(u: Unit)
  {
    Name(FromStr(u.name)) != ""
  }

  predicate ValidUnits(units: seq<Unit>)
  {
    forall i :: 0 <= i < |units| ==> ValidUnit(units[i])
  }

  /** `make_dir(dir_name)`: `output_dir / dir_name / profile.name / name`, `dir` being `Path(dir_name)`. */
  function MakeDir(config: ProjectConfig, dir: Path, profile: Profile, name: string): (r: Path)
    ensures r.parts == config.outputDir.parts + dir.parts + FromStr(profile.name).parts + FromStr(name).parts
    ensures |r.parts| >= |config.outputDir.parts| + |dir.parts|
    ensures r.parts[..|config.outputDir.parts| + |dir.parts|] == config.outputDir.parts + dir.parts
  {
    Div(Div(Join(config.outputDir, dir), profile.name), name)
  }

  /** The object file a unit compiles to, relative to its directory: the source name with suffix ".o". */
  function ObjName(u: Unit): (r: Path)
    requires ValidUnit(u)
    ensures Parent(r) == Parent(FromStr(u.name)) && Name(r) == Stem(Name(FromStr(u.name))) + ".o"
  {
    WithSuffix(FromStr(u.name), ".o")
  }

  /** The first compiler flag: the unit's character signedness. */
  function CharFlag(u: Unit): (f: string)
    ensures f == "-char signed" <==> u.signedChar
    ensures f == "-char unsigned" <==> !u.signedChar
  {
    var f := "-char " + (if u.signedChar then "signed" else "unsigned");
    assert f[6] == (if u.signedChar then 's' else 'u');
    assert "-char signed"[6] == 's' && "-char unsigned"[6] == 'u';
    f
  }

  /** The object's "base": the unit's object name under the profile's obj dir. */
  function BasePath(config: ProjectConfig, name: string, profile: Profile, u: Unit): Path
    requires ValidUnit(u)
  {
    Join(MakeDir(config, ObjPath, profile, name), ObjName(u))
  }

  /** The object's "target": the unit's object name under the profile's src dir. */
  function TargetPath(config: ProjectConfig, name: string, profile: Profile, u: Unit): Path
    requires ValidUnit(u)
  {
    Join(MakeDir(config, SrcPath, profile, name), ObjName(u))
  }

  /** The object's DWARF dump: the source name with suffix ".c" under the profile's dwarf dir. */
  function DwarfPath(config: ProjectConfig, name: string, profile: Profile, u: Unit): (r: Path)
    requires ValidUnit(u)
    ensures Parent(r) == Join(MakeDir(config, DwarfDirPath, profile, name), Parent(FromStr(u.name)))
    ensures Name(r) == Stem(Name(FromStr(u.name))) + ".c"
  {
    var dir := MakeDir(config, DwarfDirPath, profile, name);
    var r := Join(dir, WithSuffix(FromStr(u.name), ".c"));
    assert r.parts[..|r.parts| - 1] == dir.parts + Parent(FromStr(u.name)).parts;
    r
  }

  /** The Diff's name: `(profile.name / name / unit).with_suffix("")` in POSIX form. */
  function DiffName(name: string, profile: Profile, u: Unit): string
    requires ValidUnit(u)
  {
    AsPosix(WithSuffix(Join(Div(FromStr(profile.name), name), FromStr(u.name)), ""))
  }

  /** The Diff's name is `profile/name/unit` with the unit's suffix removed. */
  lemma DiffNameLayout(name: string, profile: Profile, u: Unit)
    requires ValidUnit(u)
    ensures DiffName(name, profile, u) == AsPosix(Path(FromStr(profile.name).parts + FromStr(name).parts
                              + Parent(FromStr(u.name)).parts + [Stem(Name(FromStr(u.name)))]))
  {
    var src := FromStr(u.name);
    var dir := Div(FromStr(profile.name), name);
    JoinParentName(dir, src);
    WithoutSuffix(Join(dir, src));
  }

  /**
   * For a profile and library named by single components, the Object's base is
   * `<output_dir>/obj/<profile>/<lib>/X.o`, its target `<output_dir>/src/<profile>/<lib>/X.o` and
   * its DWARF dump `<output_dir>/dwarf/<profile>/<lib>/X.c`, X being the unit's name without its suffix.
   */
  lemma ObjectPaths(config: ProjectConfig, name: string, profile: Profile, u: Unit)
    requires ValidUnit(u) && ValidPart(profile.name) && ValidPart(name)
    ensures CreateObject(config, name, profile, u).base.parts
         == config.outputDir.parts + ObjPath.parts + [profile.name, name] + ObjName(u).parts
    ensures CreateObject(config, name, profile, u).target.parts
         == config.outputDir.parts + SrcPath.parts + [profile.name, name] + ObjName(u).parts
    ensures CreateObject(config, name, profile, u).dwarf.parts
         == config.outputDir.parts + DwarfDirPath.parts + [profile.name, name] + WithSuffix(FromStr(u.name), ".c").parts
  {
    FromStrAtom(profile.name);
    FromStrAtom(name);
    var obj := CreateObject(config, name, profile, u);
    ObjectLayout(config, name, profile, u);
    assert MakeDir(config, ObjPath, profile, name).parts == config.outputDir.parts + ObjPath.parts + [profile.name, name];
    assert MakeDir(config, SrcPath, profile, name).parts == config.outputDir.parts + SrcPath.parts + [profile.name, name];
    assert MakeDir(config, DwarfDirPath, profile, name).parts
        == config.outputDir.parts + DwarfDirPath.parts + [profile.name, name];
  }

  /** `create_pair(u)`'s Object; `ObjectLayout` states its other fields. */
  function CreateObject(config: ProjectConfig, name: string, profile: Profile, u: Unit): (obj: Object)
    requires ValidUnit(u)
    ensures obj.base == BasePath(config, name, profile, u) && obj.target == TargetPath(config, name, profile, u)
  {
    Object(
      Join(Div(config.srcDir, name), FromStr(u.name)),
      BasePath(config, name, profile, u),
      TargetPath(config, name, profile, u),
      DwarfPath(config, name, profile, u),
      MwccPath,
      [CharFlag(u)] + profile.cflags)
  }

  /**
   * The Object compiles `src_dir/name/unit` with compiler GC/1.2.5, dumps DWARF to the dwarf dir,
   * and passes the unit's "-char signed" or "-char unsigned" before the profile's flags.
   */
  lemma ObjectLayout(config: ProjectConfig, name: string, profile: Profile, u: Unit)
    requires ValidUnit(u)
    ensures var obj := CreateObject(config, name, profile, u);
      && obj.src == Join(Div(config.srcDir, name), FromStr(u.name))
      && obj.dwarf == DwarfPath(config, name, profile, u)
      && obj.mwcc == MwccPath
      && |obj.cflags| == |profile.cflags| + 1 && obj.cflags[1..] == profile.cflags
      && (obj.cflags[0] == "-char signed" <==> u.signedChar)
      && (obj.cflags[0] == "-char unsigned" <==> !u.signedChar)
  {
  }

  /** `create_pair(u)`'s Diff: paired with the Object's target and base, never reversed, completeness copied. */
  function CreateDiff(config: ProjectConfig, name: string, profile: Profile, u: Unit): (diff: Diff)
    requires ValidUnit(u)
    ensures diff.targetPath == TargetPath(config, name, profile, u)
    ensures diff.basePath == BasePath(config, name, profile, u)
    ensures diff.name == DiffName(name, profile, u)
    ensures !diff.reverseFnOrder && diff.complete == u.complete
  {
    Diff(DiffName(name, profile, u), TargetPath(config, name, profile, u), BasePath(config, name, profile, u),
         false, u.complete)
  }

  /** `create_pair(u)`: the unit's Object and Diff under one profile. */
  function CreatePair(config: ProjectConfig, name: string, profile: Profile, u: Unit): (r: (Object, Diff))
    requires ValidUnit(u)
    ensures r.1.targetPath == r.0.target && r.1.basePath == r.0.base
    ensures !r.1.reverseFnOrder && r.1.complete == u.complete
  {
    (CreateObject(config, name, profile, u), CreateDiff(config, name, profile, u))
  }

  /** The profile's Objects, in unit order. */
  function ProfileObjects(config: ProjectConfig, name: string, profile: Profile, units: seq<Unit>): (r: seq<Object>)
    requires ValidUnits(units)
    ensures |r| == |units|
    ensures forall i :: 0 <= i < |units| ==> r[i] == CreateObject(config, name, profile, units[i])
  {
    seq(|units|, i requires 0 <= i < |units| => CreateObject(config, name, profile, units[i]))
  }

  /** The profile's Diffs, in unit order. */
  function ProfileDiffs(config: ProjectConfig, name: string, profile: Profile, units: seq<Unit>): (r: seq<Diff>)
    requires ValidUnits(units)
    ensures |r| == |units|
    ensures forall i :: 0 <= i < |units| ==> r[i] == CreateDiff(config, name, profile, units[i])
  {
    seq(|units|, i requires 0 <= i < |units| => CreateDiff(config, name, profile, units[i]))
  }

  /** The profile's Archive: `archive_dir/<name><suffix>.a`, extracted to the obj dir, with its manifest. */
  function ProfileArchive(config: ProjectConfig, name: string, profile: Profile, units: seq<Unit>): (a: Archive)
    requires ValidUnits(units)
    ensures a.src == Div(config.archiveDir, name + profile.archiveSuffix + ".a")
    ensures a.dst == MakeDir(config, ObjPath, profile, name)
  {
    var baseDir := MakeDir(config, ObjPath, profile, name);
    var objs := ProfileObjects(config, name, profile, units);
    Archive(
      Div(config.archiveDir, name + profile.archiveSuffix + ".a"),
      baseDir,
      set x | x in Relatives(objs, baseDir))
  }

  /** `o.base.relative_to(base_dir)` for each Object, in order; every Object's base lies under `base_dir`. */
  function Relatives(objs: seq<Object>, baseDir: Path): (r: seq<Path>)
    requires forall i :: 0 <= i < |objs| ==> baseDir.parts <= objs[i].base.parts
    ensures |r| == |objs|
    ensures forall i :: 0 <= i < |objs| ==> Join(baseDir, r[i]) == objs[i].base
  {
    seq(|objs|, i requires 0 <= i < |objs| => RelativeTo(objs[i].base, baseDir).value)
  }

  /** The units' object names, in unit order. */
  function ObjNames(units: seq<Unit>): (r: seq<Path>)
    requires ValidUnits(units)
    ensures |r| == |units| && forall i :: 0 <= i < |units| ==> r[i] == ObjName(units[i])
  {
    seq(|units|, i requires 0 <= i < |units| => ObjName(units[i]))
  }

  /** The manifest is exactly the set of the units' object names: each Object's base relative to the obj dir. */
  lemma ManifestIsObjectNames(config: ProjectConfig, name: string, profile: Profile, units: seq<Unit>)
    requires ValidUnits(units)
    ensures ProfileArchive(config, name, profile, units).manifest == set x | x in ObjNames(units)
  {
    RelativesAreObjNames(config, name, profile, units);
  }

  /** Each Object's base, relative to the obj dir, is its unit's object name. */
  lemma RelativesAreObjNames(config: ProjectConfig, name: string, profile: Profile, units: seq<Unit>)
    requires ValidUnits(units)
    ensures Relatives(ProfileObjects(config, name, profile, units), MakeDir(config, ObjPath, profile, name))
            == ObjNames(units)
  {
    var baseDir := MakeDir(config, ObjPath, profile, name);
    var objs := ProfileObjects(config, name, profile, units);
    var r := Relatives(objs, baseDir);
    forall i | 0 <= i < |units|
      ensures r[i] == ObjNames(units)[i]
    {
      RelativeToJoin(baseDir, ObjName(units[i]));
    }
  }

  /** The object names of the units are pairwise distinct. */
  predicate DistinctObjNames(units: seq<Unit>)
    requires ValidUnits(units)
  {
    forall i, j :: 0 <= i < j < |units| ==> ObjName(units[i]) != ObjName(units[j])
  }

  /** The manifest has at most one entry per unit, and exactly one per unit iff the object names are distinct. */
  lemma ManifestSize(config: ProjectConfig, name: string, profile: Profile, units: seq<Unit>)
    requires ValidUnits(units)
    ensures |ProfileArchive(config, name, profile, units).manifest| <= |units|
    ensures |ProfileArchive(config, name, profile, units).manifest| == |units| <==> DistinctObjNames(units)
  {
    ManifestIsObjectNames(config, name, profile, units);
    ElementsSize(ObjNames(units));
  }

  /** The set of a sequence's elements is no larger than the sequence, and as large iff the elements are distinct. */
  lemma {:induction false} ElementsSize<T>(s: seq<T>)
    ensures |set x | x in s| <= |s|
    ensures |set x | x in s| == |s| <==> forall i, j :: 0 <= i < j < |s| ==> s[i] != s[j]
    decreases |s|
  {
    if |s| > 0 {
      var n := |s| - 1;
      var init := s[..n];
      ElementsSize(init);
      var a := set x | x in init;
      var b := set x | x in s;
      assert s == init + [s[n]];
      assert b == a + {s[n]};
      if s[n] in a {
        var i :| 0 <= i < n && s[n] == init[i];
        assert s[i] == s[n];
        assert b == a;
      } else {
        assert |b| == |a| + 1;
        if !(forall i, j :: 0 <= i < j < n ==> init[i] != init[j]) {
          var i, j :| 0 <= i < j < n && init[i] == init[j];
          assert s[i] == s[j];
        } else {
          forall i, j | 0 <= i < j < |s| ensures s[i] != s[j] {
            if j < n { assert init[i] == s[i] && init[j] == s[j]; }
            else { assert init[i] == s[i] && s[i] in a; }
          }
        }
      }
    }
  }

  /** The Archives of the first profiles: one per profile. */
  function LibArchives(config: ProjectConfig, name: string, units: seq<Unit>, profiles: seq<Profile>): seq<Archive>
    requires ValidUnits(units)
  {
    if |profiles| == 0 then []
    else LibArchives(config, name, units, profiles[..|profiles| - 1])
         + [ProfileArchive(config, name, profiles[|profiles| - 1], units)]
  }

  /** The Objects of the first profiles: profile-major, unit order kept. */
  function LibObjects(config: ProjectConfig, name: string, units: seq<Unit>, profiles: seq<Profile>): seq<Object>
    requires ValidUnits(units)
  {
    if |profiles| == 0 then []
    else LibObjects(config, name, units, profiles[..|profiles| - 1])
         + ProfileObjects(config, name, profiles[|profiles| - 1], units)
  }

  /** The Diffs of the first profiles: profile-major, unit order kept. */
  function LibDiffs(config: ProjectConfig, name: string, units: seq<Unit>, profiles: seq<Profile>): seq<Diff>
    requires ValidUnits(units)
  {
    if |profiles| == 0 then []
    else LibDiffs(config, name, units, profiles[..|profiles| - 1])
         + ProfileDiffs(config, name, profiles[|profiles| - 1], units)
  }

  /** One Archive per profile, the Archive of profile p at index p. */
  lemma {:induction false} LibArchivesAt(config: ProjectConfig, name: string, units: seq<Unit>, profiles: seq<Profile>)
    requires ValidUnits(units)
    ensures |LibArchives(config, name, units, profiles)| == |profiles|
    ensures forall p :: 0 <= p < |profiles| ==>
      LibArchives(config, name, units, profiles)[p] == ProfileArchive(config, name, profiles[p], units)
  {
    if |profiles| > 0 {
      var init := profiles[..|profiles| - 1];
      LibArchivesAt(config, name, units, init);
      var prev := LibArchives(config, name, units, init);
      var last := ProfileArchive(config, name, profiles[|profiles| - 1], units);
      assert LibArchives(config, name, units, profiles) == prev + [last];
      forall p | 0 <= p < |profiles|
        ensures (prev + [last])[p] == ProfileArchive(config, name, profiles[p], units)
      {
        if p < |init| {
          assert init[p] == profiles[p];
        }
      }
    }
  }

  /** `len(profiles) * len(units)` Objects and as many Diffs. */
  lemma {:induction false} LibCounts(config: ProjectConfig, name: string, units: seq<Unit>, profiles: seq<Profile>)
    requires ValidUnits(units)
    ensures |LibObjects(config, name, units, profiles)| == |profiles| * |units|
    ensures |LibDiffs(config, name, units, profiles)| == |profiles| * |units|
  {
    if |profiles| > 0 {
      var k := |profiles| - 1;
      LibCounts(config, name, units, profiles[..k]);
      assert (k + 1) * |units| == k * |units| + |units|;
    }
  }

  /** The Object of profile p and unit i sits at index p * len(units) + i: profile-major, unit order kept. */
  lemma {:induction false} LibObjectAt(config: ProjectConfig, name: string, units: seq<Unit>, profiles: seq<Profile>,
                                       p: nat, i: nat)
    requires ValidUnits(units) && p < |profiles| && i < |units|
    ensures p * |units| + i < |LibObjects(config, name, units, profiles)|
    ensures LibObjects(config, name, units, profiles)[p * |units| + i] == CreateObject(config, name, profiles[p], units[i])
  {
    var n := |units|;
    var k := |profiles| - 1;
    var init := profiles[..k];
    LibCounts(config, name, units, init);
    var before := LibObjects(config, name, units, init);
    var last := ProfileObjects(config, name, profiles[k], units);
    assert LibObjects(config, name, units, profiles) == before + last;
    if p < k {
      LibObjectAt(config, name, units, init, p, i);
      assert init[p] == profiles[p];
    } else {
      assert p * n + i == k * n + i;
    }
  }

  /** The Diff of profile p and unit i sits at index p * len(units) + i: profile-major, unit order kept. */
  lemma {:induction false} LibDiffAt(config: ProjectConfig, name: string, units: seq<Unit>, profiles: seq<Profile>,
                                     p: nat, i: nat)
    requires ValidUnits(units) && p < |profiles| && i < |units|
    ensures p * |units| + i < |LibDiffs(config, name, units, profiles)|
    ensures LibDiffs(config, name, units, profiles)[p * |units| + i] == CreateDiff(config, name, profiles[p], units[i])
  {
    var n := |units|;
    var k := |profiles| - 1;
    var init := profiles[..k];
    LibCounts(config, name, units, init);
    var before := LibDiffs(config, name, units, init);
    var last := ProfileDiffs(config, name, profiles[k], units);
    assert LibDiffs(config, name, units, profiles) == before + last;
    if p < k {
      LibDiffAt(config, name, units, init, p, i);
      assert init[p] == profiles[p];
    } else {
      assert p * n + i == k * n + i;
    }
  }

  /** Taking one more profile appends that profile's Archive, Objects and Diffs. */
  lemma LibStep(config: ProjectConfig, name: string, units: seq<Unit>, profiles: seq<Profile>, k: nat)
    requires ValidUnits(units) && k < |profiles|
    ensures LibArchives(config, name, units, profiles[..k + 1])
            == LibArchives(config, name, units, profiles[..k]) + [ProfileArchive(config, name, profiles[k], units)]
    ensures LibObjects(config, name, units, profiles[..k + 1])
            == LibObjects(config, name, units, profiles[..k]) + ProfileObjects(config, name, profiles[k], units)
    ensures LibDiffs(config, name, units, profiles[..k + 1])
            == LibDiffs(config, name, units, profiles[..k]) + ProfileDiffs(config, name, profiles[k], units)
  {
    assert profiles[..k + 1][..k] == profiles[..k];
  }

  /** A library: the Archives, Objects and Diffs of every profile crossed with every unit. */
  class Lib {
    var archives: seq<Archive>
    var objects: seq<Object>
    var diffs: seq<Diff>

    /** `Lib.__init__`: loops over the profiles, appending one Archive and extending Objects and Diffs. */
    constructor (config: ProjectConfig, name: string, units: seq<Unit>)
      requires ValidUnits(units)
      ensures archives == LibArchives(config, name, units, config.profiles)
      ensures objects == LibObjects(config, name, units, config.profiles)
      ensures diffs == LibDiffs(config, name, units, config.profiles)
    {
      archives := [];
      objects := [];
      diffs := [];
      new;
      var k := 0;
      while k < |config.profiles|
        invariant 0 <= k <= |config.profiles|
        invariant archives == LibArchives(config, name, units, config.profiles[..k])
        invariant objects == LibObjects(config, name, units, config.profiles[..k])
        invariant diffs == LibDiffs(config, name, units, config.profiles[..k])
      {
        var profile := config.profiles[k];
        var pairObjects := ProfileObjects(config, name, profile, units);
        var pairDiffs := ProfileDiffs(config, name, profile, units);
        archives := archives + [ProfileArchive(config, name, profile, units)];
        objects := objects + pairObjects;
        diffs := diffs + pairDiffs;
        LibStep(config, name, units, config.profiles, k);
        k := k + 1;
      }
      assert config.profiles[..k] == config.profiles;
    }
  }
}
