/**
 * `generate_objdiff_config`: one objdiff unit per library, profile (release, then debug) and
 * object, naming the extracted object as the target and, when the profile's compiled sources
 * exist, the compiled object as the base together with its `reverse_fn_order` flag.
 */
module Objdiff {
  import opened Wrappers
  import Strings
  import opened Paths
  import opened Project
  import opened Tooling
  import opened NinjaGen

  const MinVersion := "0.4.3"
  const CustomMake := "ninja"
  const WatchPatterns: seq<string> :=
    ["*.c", "*.cp", "*.cpp", "*.h", "*.hpp", "*.inc", "*.py", "*.yml", "*.txt", "*.json"]

  /** The profiles in the order objdiff.json lists them. */
  const ObjdiffProfiles: seq<Profile> := [Release, Debug]

  /** The part of a unit present only when the profile's source directory exists. */
  datatype Base = Base(basePath: Path, reverseFnOrder: bool, complete: bool)

  /** One entry of `units`. */
  datatype Unit = Unit(name: string, targetPath: Path, base: Option<Base>)

  /** The contents of objdiff.json. */
  datatype ObjdiffConfig = ObjdiffConfig(
    minVersion: string,
    customMake: string,
    buildTarget: bool,
    watchPatterns: seq<string>,
    units: seq<Unit>)

  // ---------------------------------------------------------------------------------------
  // reverse_fn_order

  const InlinePrefix := "-inline "

  /** `flag.split(" ")[1].split(",")` of a flag starting with "-inline ". */
  function InlineFlagValues(flag: string): seq<string>
    requires Strings.StartsWith(flag, InlinePrefix)
  {
    var rest := flag[|InlinePrefix|..];
    assert flag == "-inline" + [' '] + rest;
    Strings.SplitAtFirst("-inline", ' ', rest);
    Strings.Split(Strings.Split(flag, ' ')[1], ',')
  }

  /** The values of all "-inline " flags, in flag order. */
  function InlineValues(flags: seq<string>): seq<string>
    decreases |flags|
  {
    if |flags| == 0 then []
    else
      var last := flags[|flags| - 1];
      InlineValues(flags[..|flags| - 1]) + (if Strings.StartsWith(last, InlinePrefix) then InlineFlagValues(last) else [])
  }

  /** One value's effect on the flag: "deferred" sets it, "nodeferred" clears it, others keep it. */
  function Decide(r: bool, value: string): bool
  {
    if value == "deferred" then true else if value == "nodeferred" then false else r
  }

  /** The flag after a sequence of values, starting from False. */
  function LastDecision(values: seq<string>): bool
    decreases |values|
  {
    if |values| == 0 then false else Decide(LastDecision(values[..|values| - 1]), values[|values| - 1])
  }

  /** `reverse_fn_order` for a unit's cflags: False unless they are a list. */
  function ReverseFnOrderOf(cflags: Flags): bool
  {
    match cflags
    case FlagStr(_) => false
    case FlagList(l) => LastDecision(InlineValues(l))
  }

  /** The last decision wins: the flag is set iff some "deferred" is followed by no "nodeferred". */
  lemma {:induction false} LastDecisionIff(values: seq<string>)
    ensures LastDecision(values) <==>
      exists i :: 0 <= i < |values| && values[i] == "deferred" && forall j :: i < j < |values| ==> values[j] != "nodeferred"
    decreases |values|
  {
    if |values| > 0 {
      var n := |values|;
      var init := values[..n - 1];
      LastDecisionIff(init);
      if values[n - 1] == "deferred" {
        assert values[n - 1] == "deferred";
      } else if values[n - 1] == "nodeferred" {
        assert !LastDecision(values);
      } else {
        if LastDecision(init) {
          var i :| 0 <= i < |init| && init[i] == "deferred" && forall j :: i < j < |init| ==> init[j] != "nodeferred";
          assert values[i] == "deferred";
        }
        if exists i :: 0 <= i < n && values[i] == "deferred" && forall j :: i < j < n ==> values[j] != "nodeferred" {
          var i :| 0 <= i < n && values[i] == "deferred" && forall j :: i < j < n ==> values[j] != "nodeferred";
          assert init[i] == "deferred" && forall j :: i < j < |init| ==> init[j] == values[j];
        }
      }
    }
  }

  /** One more value: the decision after it is that value's effect on the decision before. */
  lemma LastDecisionSnoc(values: seq<string>, v: string)
    ensures LastDecision(values + [v]) == Decide(LastDecision(values), v)
  {
    var next := values + [v];
    assert next[..|next| - 1] == values && next[|next| - 1] == v;
  }

  /** One more flag: its values, if it is an "-inline " flag, follow those of the flags before it. */
  lemma InlineValuesSnoc(flags: seq<string>, i: nat)
    requires i < |flags|
    ensures InlineValues(flags[..i + 1]) ==
      InlineValues(flags[..i]) + (if Strings.StartsWith(flags[i], InlinePrefix) then InlineFlagValues(flags[i]) else [])
  {
    assert flags[..i + 1][..i] == flags[..i] && flags[..i + 1][i] == flags[i];
  }

  /** The inner loop of the flag scan: each value of one "-inline " flag, in order. */
  method ScanValues(r0: bool, values: seq<string>, ghost before: seq<string>) returns (r: bool)
    requires r0 == LastDecision(before)
    ensures r == LastDecision(before + values)
  {
    r := r0;
    ghost var seen := before;
    for j := 0 to |values|
      invariant seen == before + values[..j]
      invariant r == LastDecision(seen)
    {
      LastDecisionSnoc(seen, values[j]);
      if values[j] == "deferred" {
        r := true;
      } else if values[j] == "nodeferred" {
        r := false;
      }
      assert values[..j + 1] == values[..j] + [values[j]];
      seen := seen + [values[j]];
    }
    assert values[..|values|] == values;
  }

  /** The flag scan of `add_unit`, over the flags and then over each "-inline " flag's values. */
  method ReverseFnOrder(cflags: Flags) returns (r: bool)
    ensures r == ReverseFnOrderOf(cflags)
  {
    r := false;
    if cflags.FlagList? {
      var flags := cflags.flags;
      assert flags[..0] == [];
      for i := 0 to |flags|
        invariant r == LastDecision(InlineValues(flags[..i]))
      {
        var flag := flags[i];
        InlineValuesSnoc(flags, i);
        if Strings.StartsWith(flag, InlinePrefix) {
          r := ScanValues(r, InlineFlagValues(flag), InlineValues(flags[..i]));
        } else {
          assert InlineValues(flags[..i]) + [] == InlineValues(flags[..i]);
        }
      }
      assert flags[..|flags|] == flags;
    }
  }

  // ---------------------------------------------------------------------------------------
  // Units

  /** Every object of the library has a name with a last component, as `with_suffix` needs. */
  predicate LibObjectsWellFormed(lib: Library)
  {
    forall k :: 0 <= k < |lib.objects| ==> WellFormedObject(lib.objects[k])
  }

  /** The same, for every library. */
  predicate ObjectsWellFormed(libs: seq<Library>)
  {
    forall i :: 0 <= i < |libs| ==> LibObjectsWellFormed(libs[i])
  }

  /** `add_unit(build_obj, lib_name, profile)`: the unit of one object in one profile. */
  function MakeUnit(c: ProjectConfig, h: Host, lib: Library, obj: Object, profile: Profile): (u: Unit)
    requires c.buildDir.Some? && WellFormedObject(obj)
    ensures u.base.Some? <==> LibDir(c, profile, SrcDirName, lib) in h.existing
    ensures u.base.Some? ==>
      u.base.value.reverseFnOrder == ReverseFnOrderOf(EffectiveCflags(lib, obj)) && u.base.value.complete == obj.completed
  {
    var objName := WithSuffix(FromStr(obj.name), ".o");
    var name := AsPosix(Join(Div(ProfileDir(profile), lib.lib), BaseObject(obj)));
    var targetPath := Join(LibDir(c, profile, ObjDirName, lib), objName);
    var srcDir := LibDir(c, profile, SrcDirName, lib);
    if srcDir !in h.existing then Unit(name, targetPath, None)
    else
      Unit(name, targetPath, Some(Base(Join(srcDir, objName), ReverseFnOrderOf(EffectiveCflags(lib, obj)), obj.completed)))
  }

  /** The units of the library's first `n` objects in one profile, in object order. */
  function ObjectUnits(c: ProjectConfig, h: Host, lib: Library, profile: Profile, n: nat): seq<Unit>
    requires c.buildDir.Some? && LibObjectsWellFormed(lib) && n <= |lib.objects|
  {
    seq(n, k requires 0 <= k < n => MakeUnit(c, h, lib, lib.objects[k], profile))
  }

  /** The units of one library over a prefix of the profiles. */
  function LibUnits(c: ProjectConfig, h: Host, lib: Library, ps: seq<Profile>): seq<Unit>
    requires c.buildDir.Some? && LibObjectsWellFormed(lib)
    decreases |ps|
  {
    if |ps| == 0 then []
    else LibUnits(c, h, lib, ps[..|ps| - 1]) + ObjectUnits(c, h, lib, ps[|ps| - 1], |lib.objects|)
  }

  /** The number of objects the libraries declare. */
  function ObjectCount(libs: seq<Library>): nat
    decreases |libs|
  {
    if |libs| == 0 then 0 else ObjectCount(libs[..|libs| - 1]) + |libs[|libs| - 1].objects|
  }

  /** The units of a prefix of the libraries: one per object and profile. */
  function AllUnits(c: ProjectConfig, h: Host, libs: seq<Library>): (r: seq<Unit>)
    requires c.buildDir.Some? && ObjectsWellFormed(libs)
    ensures |r| == 2 * ObjectCount(libs)
    decreases |libs|
  {
    if |libs| == 0 then []
    else
      LibUnitsOrder(c, h, libs[|libs| - 1]);
      AllUnits(c, h, libs[..|libs| - 1]) + LibUnits(c, h, libs[|libs| - 1], ObjdiffProfiles)
  }

  /** objdiff.json as `generate_objdiff_config` writes it: one unit per object and profile, no build target. */
  function ObjdiffSpec(c: ProjectConfig, h: Host): (r: ObjdiffConfig)
    requires c.buildDir.Some? && ObjectsWellFormed(LibsOrEmpty(c))
    ensures |r.units| == 2 * ObjectCount(LibsOrEmpty(c))
    ensures r.minVersion == MinVersion && r.customMake == CustomMake && !r.buildTarget && r.watchPatterns == WatchPatterns
  {
    ObjdiffConfig(MinVersion, CustomMake, false, WatchPatterns, AllUnits(c, h, LibsOrEmpty(c)))
  }

  // ---------------------------------------------------------------------------------------
  // Properties of the units

  /** A one-word "-inline " flag contributes the comma-separated pieces of its word. */
  lemma InlineFlagWord(word: string)
    requires ' ' !in word
    ensures Strings.StartsWith("-inline " + word, InlinePrefix)
    ensures InlineFlagValues("-inline " + word) == Strings.Split(word, ',')
  {
    assert "-inline " + word == "-inline" + [' '] + word;
    Strings.SplitAtFirst("-inline", ' ', word);
    Strings.SplitWithoutSeparator(word, ' ');
  }

  lemma ObjectUnitsAt(c: ProjectConfig, h: Host, lib: Library, profile: Profile, n: nat, k: nat)
    requires c.buildDir.Some? && LibObjectsWellFormed(lib) && k < n <= |lib.objects|
    ensures |ObjectUnits(c, h, lib, profile, n)| == n
    ensures ObjectUnits(c, h, lib, profile, n)[k] == MakeUnit(c, h, lib, lib.objects[k], profile)
  {
  }

  /** One more object appends its unit. */
  lemma ObjectUnitsStep(c: ProjectConfig, h: Host, lib: Library, profile: Profile, n: nat)
    requires c.buildDir.Some? && LibObjectsWellFormed(lib) && n < |lib.objects|
    ensures ObjectUnits(c, h, lib, profile, n + 1)
         == ObjectUnits(c, h, lib, profile, n) + [MakeUnit(c, h, lib, lib.objects[n], profile)]
  {
    var next := ObjectUnits(c, h, lib, profile, n + 1);
    var prev := ObjectUnits(c, h, lib, profile, n);
    forall i | 0 <= i < n
      ensures next[i] == prev[i]
    {
      assert next[i] == MakeUnit(c, h, lib, lib.objects[i], profile) == prev[i];
    }
    SnocEq(next, prev, MakeUnit(c, h, lib, lib.objects[n], profile));
  }

  /** A sequence one longer than `prev` that agrees with it and ends in `x` is `prev + [x]`. */
  lemma SnocEq<T>(next: seq<T>, prev: seq<T>, x: T)
    requires |next| == |prev| + 1 && next[|prev|] == x
    requires forall i :: 0 <= i < |prev| ==> next[i] == prev[i]
    ensures next == prev + [x]
  {
  }

  lemma ObjectUnitsLength(c: ProjectConfig, h: Host, lib: Library, profile: Profile, n: nat)
    requires c.buildDir.Some? && LibObjectsWellFormed(lib) && n <= |lib.objects|
    ensures |ObjectUnits(c, h, lib, profile, n)| == n
  {
  }

  /** Indexing into both halves of a concatenation. */
  lemma AppendIndex<T>(a: seq<T>, b: seq<T>, k: nat)
    requires k < |a| && k < |b|
    ensures (a + b)[k] == a[k] && (a + b)[|a| + k] == b[k]
  {
  }

  /** Unrolls the profile loop of one library. */
  lemma LibUnitsTwo(c: ProjectConfig, h: Host, lib: Library)
    requires c.buildDir.Some? && LibObjectsWellFormed(lib)
    ensures LibUnits(c, h, lib, ObjdiffProfiles) ==
      ObjectUnits(c, h, lib, Release, |lib.objects|) + ObjectUnits(c, h, lib, Debug, |lib.objects|)
  {
    var ps := ObjdiffProfiles;
    assert ps[..1] == [Release] && ps[1] == Debug && [Release][..0] == [];
    var rel := ObjectUnits(c, h, lib, Release, |lib.objects|);
    assert LibUnits(c, h, lib, [Release]) == [] + rel == rel;
  }

  /** A library contributes every object's release unit, in object order, then every debug unit. */
  lemma LibUnitsOrder(c: ProjectConfig, h: Host, lib: Library)
    requires c.buildDir.Some? && LibObjectsWellFormed(lib)
    ensures |LibUnits(c, h, lib, ObjdiffProfiles)| == 2 * |lib.objects|
    ensures forall k :: 0 <= k < |lib.objects| ==>
      LibUnits(c, h, lib, ObjdiffProfiles)[k] == MakeUnit(c, h, lib, lib.objects[k], Release)
    ensures forall k :: 0 <= k < |lib.objects| ==>
      LibUnits(c, h, lib, ObjdiffProfiles)[|lib.objects| + k] == MakeUnit(c, h, lib, lib.objects[k], Debug)
  {
    var n := |lib.objects|;
    ObjectUnitsLength(c, h, lib, Release, n);
    ObjectUnitsLength(c, h, lib, Debug, n);
    var rel, dbg := ObjectUnits(c, h, lib, Release, n), ObjectUnits(c, h, lib, Debug, n);
    LibUnitsTwo(c, h, lib);
    var us := LibUnits(c, h, lib, ObjdiffProfiles);
    forall k | 0 <= k < n
      ensures us[k] == MakeUnit(c, h, lib, lib.objects[k], Release)
      ensures us[n + k] == MakeUnit(c, h, lib, lib.objects[k], Debug)
    {
      ObjectUnitsAt(c, h, lib, Release, n, k);
      ObjectUnitsAt(c, h, lib, Debug, n, k);
      AppendIndex(rel, dbg, k);
    }
  }

  /**
   * A unit's `reverse_fn_order` and `complete` come from its object: when no object's flags
   * set the flag and every object is complete, no unit with a base has it set and all are complete.
   */
  lemma UnitsFromObjects(c: ProjectConfig, h: Host, lib: Library)
    requires c.buildDir.Some? && LibObjectsWellFormed(lib)
    requires forall k :: 0 <= k < |lib.objects| ==>
      !ReverseFnOrderOf(EffectiveCflags(lib, lib.objects[k])) && lib.objects[k].completed
    ensures forall k :: 0 <= k < |LibUnits(c, h, lib, ObjdiffProfiles)| && LibUnits(c, h, lib, ObjdiffProfiles)[k].base.Some? ==>
      !LibUnits(c, h, lib, ObjdiffProfiles)[k].base.value.reverseFnOrder && LibUnits(c, h, lib, ObjdiffProfiles)[k].base.value.complete
  {
    var us := LibUnits(c, h, lib, ObjdiffProfiles);
    var n := |lib.objects|;
    LibUnitsOrder(c, h, lib);
    forall k | 0 <= k < |us| && us[k].base.Some?
      ensures !us[k].base.value.reverseFnOrder && us[k].base.value.complete
    {
      if k < n {
        UnitFromObject(c, h, lib, lib.objects[k], Release);
      } else {
        UnitFromObject(c, h, lib, lib.objects[k - n], Debug);
      }
    }
  }

  lemma UnitFromObject(c: ProjectConfig, h: Host, lib: Library, obj: Object, profile: Profile)
    requires c.buildDir.Some? && WellFormedObject(obj)
    requires !ReverseFnOrderOf(EffectiveCflags(lib, obj)) && obj.completed
    ensures MakeUnit(c, h, lib, obj, profile).base.Some? ==>
      !MakeUnit(c, h, lib, obj, profile).base.value.reverseFnOrder && MakeUnit(c, h, lib, obj, profile).base.value.complete
  {
  }

  /**
   * The unit of a plain object name is called "<profile>/<lib>/<stem>", e.g. "release/os/OSReset".
   */
  lemma UnitName(c: ProjectConfig, h: Host, lib: Library, obj: Object, profile: Profile)
    requires c.buildDir.Some? && ValidPart(lib.lib) && ValidPart(obj.name)
    ensures WellFormedObject(obj)
    ensures MakeUnit(c, h, lib, obj, profile).name == ProfileDir(profile).parts[0] + "/" + lib.lib + "/" + Stem(obj.name)
  {
    FromStrAtom(lib.lib);
    FromStrAtom(obj.name);
    WithoutSuffix(FromStr(obj.name));
    var pd := ProfileDir(profile).parts[0];
    assert Join(Div(ProfileDir(profile), lib.lib), BaseObject(obj)) == Path([pd, lib.lib, Stem(obj.name)]);
    AsPosixThree(pd, lib.lib, Stem(obj.name));
  }

  /**
   * The base object objdiff compares against is the object the build.ninja compile edge
   * produces exactly when the object name has at most one suffix: "a.b.c" (see
   * `Paths.DoubleSuffixStems`) is compared as "a.b.o" while the compile edge writes "a.o".
   */
  lemma BaseIsCompiledObject(c: ProjectConfig, h: Host, lib: Library, obj: Object, profile: Profile)
    requires c.buildDir.Some? && WellFormedObject(obj)
    requires MakeUnit(c, h, lib, obj, profile).base.Some?
    ensures MakeUnit(c, h, lib, obj, profile).base.value.basePath == SrcObjPath(c, lib, obj, profile)
        <==> Suffix(Stem(Name(FromStr(obj.name)))) == ""
  {
    var dir := LibDir(c, profile, SrcDirName, lib);
    var compared, compiled := WithSuffix(FromStr(obj.name), ".o"), WithSuffix(BaseObject(obj), ".o");
    WithSuffixAfterDrop(FromStr(obj.name), ".o");
    RelativeToJoin(dir, compared);
    RelativeToJoin(dir, compiled);
  }

  /**
   * For an object name without directories, the target objdiff reads is the object file the
   * archive extraction writes into the profile's obj directory.
   */
  lemma TargetIsExtractedObject(c: ProjectConfig, h: Host, lib: Library, obj: Object, profile: Profile)
    requires c.buildDir.Some? && WellFormedObject(obj) && |FromStr(obj.name).parts| == 1
    ensures MakeUnit(c, h, lib, obj, profile).targetPath == ObjFile(LibDir(c, profile, ObjDirName, lib), obj)
  {
    assert FromStr(obj.name) == Path([Name(FromStr(obj.name))]);
  }

  /**
   * The unit's target keeps every component of the object's name, while the extract edge
   * writes only its last one: the two agree exactly for a single-component name, and a name
   * such as "dir/x.c" targets `obj/<lib>/dir/x.o` where `obj/<lib>/x.o` is extracted.
   */
  lemma TargetIsExtractedObjectIff(c: ProjectConfig, h: Host, lib: Library, obj: Object, profile: Profile)
    requires c.buildDir.Some? && WellFormedObject(obj)
    ensures MakeUnit(c, h, lib, obj, profile).targetPath == ObjFile(LibDir(c, profile, ObjDirName, lib), obj)
        <==> |FromStr(obj.name).parts| == 1
    ensures |MakeUnit(c, h, lib, obj, profile).targetPath.parts|
        == |LibDir(c, profile, ObjDirName, lib).parts| + |FromStr(obj.name).parts|
  {
    var dir := LibDir(c, profile, ObjDirName, lib);
    var t := MakeUnit(c, h, lib, obj, profile).targetPath;
    assert |ObjFile(dir, obj).parts| == |dir.parts| + 1;
    if |FromStr(obj.name).parts| == 1 {
      TargetIsExtractedObject(c, h, lib, obj, profile);
    }
  }

  // ---------------------------------------------------------------------------------------
  // The imperative generator

  /** `add_unit`, with its flag scan. */
  method AddUnit(c: ProjectConfig, h: Host, lib: Library, obj: Object, profile: Profile) returns (u: Unit)
    requires c.buildDir.Some? && WellFormedObject(obj)
    ensures u == MakeUnit(c, h, lib, obj, profile)
  {
    var objName := WithSuffix(FromStr(obj.name), ".o");
    var name := AsPosix(Join(Div(ProfileDir(profile), lib.lib), BaseObject(obj)));
    var targetPath := Join(LibDir(c, profile, ObjDirName, lib), objName);
    var srcDir := LibDir(c, profile, SrcDirName, lib);
    if srcDir !in h.existing {
      return Unit(name, targetPath, None);
    }
    var reverseFnOrder := ReverseFnOrder(EffectiveCflags(lib, obj));
    u := Unit(name, targetPath, Some(Base(Join(srcDir, objName), reverseFnOrder, obj.completed)));
  }

  /** The object loop of one library and profile: the units it appends, in order. */
  method AddObjects(c: ProjectConfig, h: Host, lib: Library, profile: Profile) returns (units: seq<Unit>)
    requires c.buildDir.Some? && LibObjectsWellFormed(lib)
    ensures units == ObjectUnits(c, h, lib, profile, |lib.objects|)
  {
    units := [];
    assert ObjectUnits(c, h, lib, profile, 0) == [];
    for k := 0 to |lib.objects|
      invariant units == ObjectUnits(c, h, lib, profile, k)
    {
      var u := AddUnit(c, h, lib, lib.objects[k], profile);
      ObjectUnitsStep(c, h, lib, profile, k);
      units := units + [u];
    }
  }

  /** The profile loop of one library (called with `ObjdiffProfiles`): the units it appends. */
  method AddLib(c: ProjectConfig, h: Host, lib: Library, ps: seq<Profile>) returns (units: seq<Unit>)
    requires c.buildDir.Some? && LibObjectsWellFormed(lib)
    ensures units == LibUnits(c, h, lib, ps)
  {
    units := [];
    for p := 0 to |ps|
      invariant units == LibUnits(c, h, lib, ps[..p])
    {
      assert ps[..p + 1][..p] == ps[..p];
      var more := AddObjects(c, h, lib, ps[p]);
      units := units + more;
    }
    assert ps[..|ps|] == ps;
  }

  /** `generate_objdiff_config`: the fixed settings, then the units of every library. */
  method GenerateObjdiffConfig(c: ProjectConfig, h: Host) returns (cfg: ObjdiffConfig)
    requires c.buildDir.Some? && ObjectsWellFormed(LibsOrEmpty(c))
    ensures cfg == ObjdiffSpec(c, h)
  {
    var libs := LibsOrEmpty(c);
    var units: seq<Unit> := [];
    for i := 0 to |libs|
      invariant units == AllUnits(c, h, libs[..i])
    {
      assert libs[..i + 1][..i] == libs[..i];
      var more := AddLib(c, h, libs[i], ObjdiffProfiles);
      units := units + more;
    }
    assert libs[..|libs|] == libs;
    cfg := ObjdiffConfig(MinVersion, CustomMake, false, WatchPatterns, units);
  }
}
