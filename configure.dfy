/**
 * configure.py: the project declaration of the Dolphin SDK OS library. It checks the revision,
 * fills in the ProjectConfig (version, archive directory, paths, tool tags, compiler flags and
 * the "os" library with its 27 objects) and then, by mode, writes build.ninja and objdiff.json
 * or objdiff.json alone.
 */
module Configure {
  import opened Wrappers
  import opened Paths
  import opened Project
  import opened Tooling
  import opened NinjaGen
  import opened Objdiff
  import Strings

  // ---------------------------------------------------------------------------------------
  // Revisions

  const DefaultRevision := 36

  /** REVISIONS: revision number to SDK release date. */
  const Revisions: map<int, string> := map[36 := ReleaseDate]

  /** The release date of revision 36. */
  const ReleaseDate := "2001-05-22"

  /** REVISION_KEYS: the keys in declaration order, as strings. */
  const RevisionKeys: seq<string> := ["36"]

  /** The separators of `revisions_str`. */
  const Comma := ", "
  const Or := " or "

  /** `revisions_str`: the single key, or "a, b or c" for several. */
  function RevisionsStr(keys: seq<string>): (r: string)
    requires |keys| >= 1
    ensures |keys| >= 2 ==> Strings.EndsWith(r, Or + keys[|keys| - 1])
  {
    var last := Or + keys[|keys| - 1];
    assert |keys| >= 2 ==> (Strings.Join(keys[..|keys| - 1], Comma) + last)[|Strings.Join(keys[..|keys| - 1], Comma)|..] == last;
    if |keys| > 1 then Strings.Join(keys[..|keys| - 1], Comma) + last else keys[0]
  }

  /** One key is named alone, two are joined by " or ". */
  lemma RevisionsStrShort(a: string, b: string)
    ensures RevisionsStr([a]) == a
    ensures RevisionsStr([a, b]) == a + " or " + b
  {
    assert [a, b][..1] == [a];
  }

  /**
   * A longer key list names its first key, a comma, then the phrase for the rest. With
   * RevisionsStrShort this fixes the phrase for every length: "a, b, ... or z".
   */
  lemma RevisionsStrCons(k: string, keys: seq<string>)
    requires |keys| >= 2
    ensures RevisionsStr([k] + keys) == k + Comma + RevisionsStr(keys)
  {
    var ks := [k] + keys;
    var init := keys[..|keys| - 1];
    var tail := Or + keys[|keys| - 1];
    assert ks[..|ks| - 1] == [k] + init;
    Strings.JoinCons(k, init, Comma);
    var j := Strings.Join(init, Comma);
    assert RevisionsStr(ks) == (k + Comma + j) + tail;
  }

  /** The keys list names exactly the revisions of the table. */
  lemma RevisionKeysMatchTable()
    ensures forall r :: r in Revisions <==> r == DefaultRevision
    ensures RevisionKeys == [Strings.IntToStr(DefaultRevision)]
    ensures RevisionsStr(RevisionKeys) == "36"
  {
    assert Strings.DigitChar(3) == '3' && Strings.DigitChar(6) == '6';
    assert Strings.NatToStr(36) == Strings.NatToStr(3) + [Strings.DigitChar(6)] == "36";
  }

  /** The exit message for a revision outside the table. */
  function InvalidRevisionMsg(rev: int): (r: string)
    ensures r == "Invalid revision '" + Strings.IntToStr(rev) + "', expected 36"
  {
    RevisionKeysMatchTable();
    "Invalid revision '" + Strings.IntToStr(rev) + "', expected " + RevisionsStr(RevisionKeys)
  }

  // ---------------------------------------------------------------------------------------
  // Compiler flags

  /** `cflags_base` before its one "-inline " flag. */
  const FlagsBeforeInline: seq<string> := [
    "-cwd source", "-nodefaults", "-proc gekko", "-align powerpc", "-enum int", "-fp hardware",
    "-Cpp_exceptions off", "-O4,p"]

  const InlineAuto := InlinePrefix + "auto"

  /** `cflags_base` after "-inline auto", up to the revision define. */
  const FlagsAfterInline: seq<string> := [
    "-pragma \"cats off\"", "-pragma \"warn_notinlined off\"", "-maxerrors 1", "-nosyspath",
    "-RTTI off", "-fp_contract on", "-str reuse", "-multibyte", "-i include"]

  /** The 18 flags of `cflags_base` that precede the revision define. */
  const BaseFlagsHead: seq<string> := FlagsBeforeInline + [InlineAuto] + FlagsAfterInline

  const DebugFlags: seq<string> := ["-sym on", "-DDEBUG=1"]
  const ReleaseFlags: seq<string> := ["-DNDEBUG=1"]
  const RuntimeExtraFlags: seq<string> := ["-use_lmw_stmw on", "-str reuse,pool,readonly", "-gccinc", "-common off", "-inline auto"]
  const RelExtraFlags: seq<string> := ["-sdata 0", "-sdata2 0"]

  function RevisionDefine(rev: int): string
  {
    "-DDOLPHIN_REVISION=" + Strings.IntToStr(rev)
  }

  /** `cflags_base` once the debug or release flags are added. */
  function CflagsBase(rev: int, debug: bool): (r: seq<string>)
    ensures |r| == (if debug then 21 else 20) && r[18] == RevisionDefine(rev)
  {
    BaseFlagsHead + [RevisionDefine(rev)] + (if debug then DebugFlags else ReleaseFlags)
  }

  /** `cflags_runtime`: the base flags, then the Metrowerks runtime's five. */
  function CflagsRuntime(base: seq<string>): (r: seq<string>)
    ensures |r| == |base| + 5 && r[..|base|] == base
  {
    base + RuntimeExtraFlags
  }

  /** `cflags_rel`: the base flags, then no small data sections. */
  function CflagsRel(base: seq<string>): (r: seq<string>)
    ensures |r| == |base| + 2 && r[..|base|] == base && r[|base|..] == ["-sdata 0", "-sdata2 0"]
  {
    base + RelExtraFlags
  }

  /**
   * The base flags are the 18 common ones, the revision define, then "-sym on" and "-DDEBUG=1"
   * in debug mode or "-DNDEBUG=1" otherwise.
   */
  lemma CflagsBaseLayout(rev: int, debug: bool)
    ensures var f := CflagsBase(rev, debug);
      |f| == (if debug then 21 else 20) && f[..18] == BaseFlagsHead && f[18] == "-DDOLPHIN_REVISION=" + Strings.IntToStr(rev)
      && (debug ==> f[19] == "-sym on" && f[20] == "-DDEBUG=1")
      && (!debug ==> f[19] == "-DNDEBUG=1")
  {
    var f := CflagsBase(rev, debug);
    assert f[..18] == BaseFlagsHead;
  }

  // ---------------------------------------------------------------------------------------
  // reverse_fn_order of the declared flags

  /** Whether a flag differs from "-inline " in its second or third character. */
  predicate EarlyMismatch(f: string)
  {
    |f| >= 3 && (f[1] != 'i' || f[2] != 'n')
  }

  /** A flag that differs from "-inline " early is not an "-inline " flag. */
  lemma NotInlineFlag(f: string)
    requires EarlyMismatch(f)
    ensures !Strings.StartsWith(f, InlinePrefix)
  {
    if f[1] != 'i' {
      Strings.NotStartsWith(f, InlinePrefix, 1);
    } else {
      Strings.NotStartsWith(f, InlinePrefix, 2);
    }
  }

  /** Flags without "-inline " contribute no values. */
  lemma {:induction false} NoInlineValues(flags: seq<string>)
    requires forall f :: f in flags ==> EarlyMismatch(f)
    ensures InlineValues(flags) == []
    decreases |flags|
  {
    if |flags| > 0 {
      var init := flags[..|flags| - 1];
      assert forall f :: f in init ==> f in flags;
      NoInlineValues(init);
      NotInlineFlag(flags[|flags| - 1]);
    }
  }

  /** The values of a concatenation are those of each part, in order. */
  lemma {:induction false} InlineValuesConcat(a: seq<string>, b: seq<string>)
    ensures InlineValues(a + b) == InlineValues(a) + InlineValues(b)
    decreases |b|
  {
    if |b| == 0 {
      assert a + b == a;
    } else {
      var last := b[|b| - 1];
      assert (a + b)[..|a + b| - 1] == a + b[..|b| - 1] && (a + b)[|a + b| - 1] == last;
      InlineValuesConcat(a, b[..|b| - 1]);
    }
  }

  /** "-inline auto" contributes "auto". */
  lemma InlineAutoValues()
    ensures InlineValues([InlineAuto]) == ["auto"]
  {
    InlineFlagWord("auto");
    Strings.SplitWithoutSeparator("auto", ',');
    assert [InlineAuto][..0] == [];
  }

  /** The revision define is not an "-inline " flag. */
  lemma RevisionDefineValues(rev: int)
    ensures InlineValues([RevisionDefine(rev)]) == []
  {
    var d := RevisionDefine(rev);
    assert d[1] == 'D' && |d| >= 3;
    NoInlineValues([d]);
  }

  /** Everything after "-inline auto" contributes no values. */
  lemma TailInlineValues(rev: int, debug: bool)
    ensures InlineValues(FlagsAfterInline + [RevisionDefine(rev)] + (if debug then DebugFlags else ReleaseFlags)) == []
  {
    var mode := if debug then DebugFlags else ReleaseFlags;
    NoInlineValues(FlagsAfterInline);
    RevisionDefineValues(rev);
    if debug {
      NoInlineValues(DebugFlags);
    } else {
      NoInlineValues(ReleaseFlags);
    }
    InlineValuesConcat(FlagsAfterInline, [RevisionDefine(rev)]);
    InlineValuesConcat(FlagsAfterInline + [RevisionDefine(rev)], mode);
  }

  /** The base flags hold one "-inline " flag, "-inline auto", so the only value is "auto". */
  lemma BaseInlineValues(rev: int, debug: bool)
    ensures InlineValues(CflagsBase(rev, debug)) == ["auto"]
  {
    var tail := FlagsAfterInline + [RevisionDefine(rev)] + (if debug then DebugFlags else ReleaseFlags);
    assert CflagsBase(rev, debug) == FlagsBeforeInline + [InlineAuto] + tail;
    NoInlineValues(FlagsBeforeInline);
    TailInlineValues(rev, debug);
    InlineAutoValues();
    InlineValuesConcat(FlagsBeforeInline, [InlineAuto]);
    InlineValuesConcat(FlagsBeforeInline + [InlineAuto], tail);
  }

  /** No object compiled with the base flags gets `reverse_fn_order` set. */
  lemma BaseFlagsNotReversed(rev: int, debug: bool)
    ensures !ReverseFnOrderOf(FlagList(CflagsBase(rev, debug)))
  {
    BaseInlineValues(rev, debug);
    assert ["auto"][..0] == [];
  }

  // ---------------------------------------------------------------------------------------
  // The library declaration

  const Matching := true
  const NonMatching := false

  const OrigDir := Path(["orig"])

  /** `DolphinLib(lib_name, objects)`: an SDK archive library built with the base flags. */
  function DolphinLib(archiveDir: Path, cflagsBase: seq<string>, name: string, objects: seq<Object>): (lib: Library)
    requires Name(Div(archiveDir, name)) != ""
    ensures lib.lib == name && lib.objects == objects && lib.cflags == FlagList(cflagsBase) && !lib.host
    ensures lib.mwVersion == "GC/1.2.5" && lib.srcDir.None?
  {
    Library(name, Some(WithSuffix(Div(archiveDir, name), ".a")), "GC/1.2.5", FlagList(cflagsBase), false, None, objects)
  }

  /** The archive of a plain library name is "<archive_dir>/<name>.a" for a name without a suffix. */
  lemma DolphinLibArchive(archiveDir: Path, cflagsBase: seq<string>, name: string, objects: seq<Object>)
    requires ValidPart(name) && Suffix(name) == ""
    ensures Name(Div(archiveDir, name)) != ""
    ensures DolphinLib(archiveDir, cflagsBase, name, objects).archive == Some(Path(archiveDir.parts + [name + ".a"]))
  {
    FromStrAtom(name);
    StemAndSuffix(name);
    assert Stem(name) == name + "" == name;
  }

  /** The `os` objects in declaration order, in three runs of nine. */
  const OsNamesA: seq<string> := [
    "OSAddress.c", "OSAlarm.c", "OSAlloc.c", "OSArena.c", "OSAudioSystem.c", "OSCache.c",
    "OSContext.c", "OSError.c", "OSExiAd16.c"]
  const OsNamesB: seq<string> := [
    "OSExi.c", "OSFont.c", "OSInterrupt.c", "OSLink.c", "OSMemory.c", "OSMessage.c", "OSMutex.c",
    "OS.c", "OSReset.c"]
  const OsNamesC: seq<string> := [
    "OSResetSW.c", "OSRtc.c", "OSSerial.c", "OSStopwatch.c", "OSSync.c", "OSThread.c", "OSTime.c",
    "OSTimer.c", "OSUartExi.c"]
  const OsObjectNames: seq<string> := OsNamesA + OsNamesB + OsNamesC

  lemma OsNamesValidA()
    ensures forall n :: n in OsNamesA ==> ValidPart(n)
  {
  }

  lemma OsNamesValidB()
    ensures forall n :: n in OsNamesB ==> ValidPart(n)
  {
  }

  lemma OsNamesValidC()
    ensures forall n :: n in OsNamesC ==> ValidPart(n)
  {
  }

  /** Every declared name is a single path component. */
  lemma OsNamesValid()
    ensures forall n :: n in OsObjectNames ==> ValidPart(n)
  {
    OsNamesValidA();
    OsNamesValidB();
    OsNamesValidC();
  }

  /** Objects declared with `Object(Matching, name)` and no options. */
  function MatchingObjects(names: seq<string>): (objs: seq<Object>)
    ensures |objs| == |names|
    ensures forall k :: 0 <= k < |names| ==> objs[k] == MakeObject(Matching, names[k], NoOverrides)
  {
    seq(|names|, k requires 0 <= k < |names| => MakeObject(Matching, names[k], NoOverrides))
  }

  /** The declared objects: 27, all Matching, each a plain file name compiled from itself. */
  lemma OsObjects()
    ensures |MatchingObjects(OsObjectNames)| == 27
    ensures forall k :: 0 <= k < 27 ==>
      var o := MatchingObjects(OsObjectNames)[k];
      o.completed && o.name == OsObjectNames[k] && o.options.source == o.name && WellFormedObject(o)
  {
    OsNamesValid();
    forall k | 0 <= k < 27
      ensures WellFormedObject(MatchingObjects(OsObjectNames)[k])
    {
      assert OsObjectNames[k] in OsObjectNames;
      FromStrAtom(OsObjectNames[k]);
    }
  }

  // ---------------------------------------------------------------------------------------
  // The script

  /** The command line after argparse (its defaults: mode "configure", revision 36, build dir "build"). */
  datatype Args = Args(
    mode: string,
    revision: int,
    buildDir: Path,
    compilers: Option<Path>,
    mapFile: bool,
    debug: bool,
    wrapper: Option<Path>,
    buildDtk: Option<Path>,
    sjiswrap: Option<Path>,
    verbose: bool)

  /** How the script ends: an exit message, or the files the selected mode generates. */
  datatype ScriptResult =
    | ScriptExit(msg: string)
    | BuildGenerated(config: ProjectConfig, ninja: Generated, objdiff: Option<ObjdiffConfig>)
    | ObjdiffGenerated(config: ProjectConfig, written: ObjdiffConfig)

  /** The `version` of revision 36, "DOLSDK-2001-05-22". */
  const Version := "DOLSDK-" + ReleaseDate

  /** The configuration the script has built when the mode dispatch starts. */
  function ConfiguredProject(a: Args, h: Host): (c: ProjectConfig)
    requires a.revision in Revisions
    ensures c.version == Some("DOLSDK-" + Revisions[a.revision])
    ensures c.buildDir == Some(a.buildDir) && c.compilersPath == a.compilers && c.debug == a.debug
    ensures c.buildDtkPath == a.buildDtk && c.sjiswrapPath == a.sjiswrap
    ensures c.wrapper == (if h.windows then None else a.wrapper)
    ensures c.dtkTag == Some("v0.7.4") && c.sjiswrapTag == Some("v1.1.1")
    ensures c.compilersTag == Some("20231018") && c.wiboTag == Some("0.6.9")
    ensures !c.warnMissingSource
  {
    var version := "DOLSDK-" + Revisions[a.revision];
    var archiveDir := Div(OrigDir, version);
    FromStrAtom(Version);
    FromStrAtom("os");
    var os := DolphinLib(archiveDir, CflagsBase(a.revision, a.debug), "os", MatchingObjects(OsObjectNames));
    var c := NewProjectConfig();
    c.(version := Some(version), archiveDir := Assigned(Some(archiveDir)),
       buildDir := Some(a.buildDir), buildDtkPath := a.buildDtk, compilersPath := a.compilers,
       debug := a.debug, sjiswrapPath := a.sjiswrap,
       wrapper := if h.windows then c.wrapper else a.wrapper,
       compilersTag := Some("20231018"), dtkTag := Some("v0.7.4"), sjiswrapTag := Some("v1.1.1"),
       wiboTag := Some("0.6.9"), warnMissingSource := false, libs := Some([os]))
  }

  /** The script's run for given arguments and host, by its effect. */
  function ConfigureSpec(a: Args, h: Host): (r: ScriptResult)
    ensures r.ScriptExit? <==> a.revision != DefaultRevision || (a.mode != "configure" && a.mode != "objdiff")
    ensures r.BuildGenerated? ==> (r.objdiff.Some? <==> r.ninja.outcome.Done?)
    ensures r.ObjdiffGenerated? ==> r.config.progressEachModule == a.verbose
  {
    if a.revision !in Revisions then ScriptExit(InvalidRevisionMsg(a.revision))
    else
      var c := ConfiguredProject(a, h);
      ConfiguredWellFormed(a, h);
      if a.mode == "configure" then
        var g := GenerateSpec(c, h);
        BuildGenerated(c, g, if g.outcome.Done? then Some(ObjdiffSpec(c, h)) else None)
      else if a.mode == "objdiff" then
        var c' := c.(progressEachModule := a.verbose);
        ObjdiffGenerated(c', ObjdiffSpec(c', h))
      else ScriptExit("Unknown mode: " + a.mode)
  }

  /** The only revision names the release "DOLSDK-2001-05-22", whose archives are under "orig/DOLSDK-2001-05-22". */
  lemma ArchiveDirOf(rev: int)
    requires rev in Revisions
    ensures "DOLSDK-" + Revisions[rev] == Version
    ensures Div(OrigDir, Version) == Path(["orig", Version])
  {
    FromStrAtom(Version);
  }

  /** The "os" library: archive "orig/DOLSDK-2001-05-22/os.a" and well-formed objects. */
  lemma OsLibWellFormed(cflags: seq<string>)
    ensures Name(Div(Path(["orig", Version]), "os")) != ""
    ensures var lib := DolphinLib(Path(["orig", Version]), cflags, "os", MatchingObjects(OsObjectNames));
      lib.archive == Some(Path(["orig", Version, "os.a"])) && WellFormedLib(lib) && LibObjectsWellFormed(lib)
  {
    var dir := Path(["orig", Version]);
    assert Suffix("os") == "";
    DolphinLibArchive(dir, cflags, "os", MatchingObjects(OsObjectNames));
    OsObjects();
    var archive := "os" + ".a";
    assert archive[0] == 'o' && archive[1] == 's' && archive[2] == '.' && archive[3] == 'a';
    assert archive == "os.a";
    assert dir.parts + [archive] == ["orig", Version, "os.a"];
  }

  /**
   * The declared project passes `validate`, configures every tool, and its library has the
   * archive "orig/DOLSDK-2001-05-22/os.a", the SDK compiler and the base flags.
   */
  lemma ConfiguredWellFormed(a: Args, h: Host)
    requires a.revision in Revisions
    ensures var c := ConfiguredProject(a, h);
      Valid(c) && ToolsConfigured(c) && WellFormedLibs(c) && ObjectsWellFormed(LibsOrEmpty(c))
    ensures var c := ConfiguredProject(a, h);
      c.archiveDir == Assigned(Some(Path(["orig", Version])))
      && c.libs.value == [DolphinLib(Path(["orig", Version]), CflagsBase(a.revision, a.debug), "os", MatchingObjects(OsObjectNames))]
      && c.libs.value[0].archive == Some(Path(["orig", Version, "os.a"]))
  {
    ArchiveDirOf(a.revision);
    OsLibWellFormed(CflagsBase(a.revision, a.debug));
  }

  // ---------------------------------------------------------------------------------------
  // What the script does

  /** Any revision but 36 ends the script, whatever the mode, with a message naming the valid one. */
  lemma InvalidRevisionExits(a: Args, h: Host)
    ensures a.revision in Revisions <==> a.revision == DefaultRevision
    ensures a.revision != DefaultRevision ==>
      ConfigureSpec(a, h) == ScriptExit("Invalid revision '" + Strings.IntToStr(a.revision) + "', expected 36")
  {
    RevisionKeysMatchTable();
  }

  /** With a valid revision the mode picks the outcome: "configure", "objdiff", or an exit naming the mode. */
  lemma ModeDispatch(a: Args, h: Host)
    requires a.revision == DefaultRevision
    ensures ConfigureSpec(a, h).BuildGenerated? <==> a.mode == "configure"
    ensures ConfigureSpec(a, h).ObjdiffGenerated? <==> a.mode == "objdiff"
    ensures ConfigureSpec(a, h).ScriptExit? <==> a.mode != "configure" && a.mode != "objdiff"
    ensures ConfigureSpec(a, h).ScriptExit? ==> ConfigureSpec(a, h).msg == "Unknown mode: " + a.mode
  {
  }

  /** The library the script declares for a revision and debug setting. */
  function DeclaredLib(rev: int, debug: bool): (lib: Library)
    ensures lib.lib == "os" && lib.archive == Some(Path(["orig", Version, "os.a"]))
    ensures lib.objects == MatchingObjects(OsObjectNames) && |lib.objects| == 27 && LibObjectsWellFormed(lib)
    ensures lib.cflags == FlagList(CflagsBase(rev, debug))
  {
    OsLibWellFormed(CflagsBase(rev, debug));
    OsObjects();
    DolphinLib(Path(["orig", Version]), CflagsBase(rev, debug), "os", MatchingObjects(OsObjectNames))
  }

  /**
   * objdiff.json of the declared project: the os library's 54 units (each object under Release,
   * then each under Debug), none with `reverse_fn_order` set and, being Matching, every one complete.
   */
  lemma DeclaredUnits(c: ProjectConfig, h: Host, rev: int, debug: bool)
    requires c.buildDir.Some? && c.libs == Some([DeclaredLib(rev, debug)])
    ensures ObjectsWellFormed(LibsOrEmpty(c))
    ensures var units := ObjdiffSpec(c, h).units;
      units == LibUnits(c, h, DeclaredLib(rev, debug), ObjdiffProfiles) && |units| == 54
      && forall k :: 0 <= k < 54 && units[k].base.Some? ==> !units[k].base.value.reverseFnOrder && units[k].base.value.complete
  {
    var lib := DeclaredLib(rev, debug);
    var libs := [lib];
    assert libs[..0] == [];
    assert AllUnits(c, h, libs) == [] + LibUnits(c, h, lib, ObjdiffProfiles);
    LibUnitsOrder(c, h, lib);
    BaseFlagsNotReversed(rev, debug);
    forall j | 0 <= j < |lib.objects|
      ensures !ReverseFnOrderOf(EffectiveCflags(lib, lib.objects[j])) && lib.objects[j].completed
    {
      DeclaredObject(rev, debug, j);
    }
    UnitsFromObjects(c, h, lib);
  }

  /** A declared object is complete and compiles with the library's flags. */
  lemma DeclaredObject(rev: int, debug: bool, j: int)
    requires 0 <= j < 27
    ensures var lib := DeclaredLib(rev, debug);
      lib.objects[j].completed && EffectiveCflags(lib, lib.objects[j]) == FlagList(CflagsBase(rev, debug))
  {
    OsObjects();
  }

  /**
   * "configure" with revision 36 gets past validation and tool resolution, writes build.ninja,
   * and then writes objdiff.json from the same configuration.
   */
  lemma ConfigureWritesBoth(a: Args, h: Host)
    requires a.revision == DefaultRevision && a.mode == "configure"
    ensures var r := ConfigureSpec(a, h);
      r.BuildGenerated? && r.ninja.outcome == Done && r.ninja.written.Some?
      && r.objdiff.Some? && |r.objdiff.value.units| == 54
  {
    var c := ConfiguredProject(a, h);
    ConfiguredWellFormed(a, h);
    ValidateOutcomes(c);
    ResolveToolsOutcome(c, h);
    DeclaredUnits(c, h, a.revision, a.debug);
  }

  /** "objdiff" writes objdiff.json alone, with the per-module progress switch set from --verbose. */
  lemma ObjdiffModeWritesUnits(a: Args, h: Host)
    requires a.revision == DefaultRevision && a.mode == "objdiff"
    ensures var r := ConfigureSpec(a, h);
      r.ObjdiffGenerated? && r.config.progressEachModule == a.verbose
      && r.config == ConfiguredProject(a, h).(progressEachModule := a.verbose)
      && |r.written.units| == 54
  {
    var c := ConfiguredProject(a, h).(progressEachModule := a.verbose);
    ConfiguredWellFormed(a, h);
    DeclaredUnits(c, h, a.revision, a.debug);
  }

  // ---------------------------------------------------------------------------------------
  // The script, statement by statement

  /**
   * configure.py as it runs: the revision check, the attribute assignments, the flag list built
   * by appending, the library declaration, then the mode dispatch.
   */
  method RunConfigure(a: Args, h: Host) returns (r: ScriptResult)
    ensures r == ConfigureSpec(a, h)
  {
    var config := NewProjectConfig();
    if a.revision !in Revisions {
      return ScriptExit(InvalidRevisionMsg(a.revision));
    }
    config := config.(version := Some("DOLSDK-" + Revisions[a.revision]));
    config := config.(archiveDir := Assigned(Some(Div(OrigDir, config.version.value))));
    config := config.(buildDir := Some(a.buildDir), buildDtkPath := a.buildDtk, compilersPath := a.compilers,
                      debug := a.debug, sjiswrapPath := a.sjiswrap);
    if !h.windows {
      config := config.(wrapper := a.wrapper);
    }
    config := config.(compilersTag := Some("20231018"), dtkTag := Some("v0.7.4"), sjiswrapTag := Some("v1.1.1"),
                      wiboTag := Some("0.6.9"));
    var cflagsBase := BaseFlagsHead + [RevisionDefine(a.revision)];
    if config.debug {
      cflagsBase := cflagsBase + DebugFlags;
    } else {
      cflagsBase := cflagsBase + ReleaseFlags;
    }
    ArchiveDirOf(a.revision);
    OsLibWellFormed(cflagsBase);
    var os := DolphinLib(config.archiveDir.value.value, cflagsBase, "os", MatchingObjects(OsObjectNames));
    config := config.(warnMissingSource := false, libs := Some([os]));
    assert config == ConfiguredProject(a, h);
    ConfiguredWellFormed(a, h);
    if a.mode == "configure" {
      var g := GenerateBuildNinja(config, h);
      var objdiff: Option<ObjdiffConfig> := None;
      if g.outcome.Done? {
        var cfg := GenerateObjdiffConfig(config, h);
        objdiff := Some(cfg);
      }
      r := BuildGenerated(config, g, objdiff);
    } else if a.mode == "objdiff" {
      config := config.(progressEachModule := a.verbose);
      var cfg := GenerateObjdiffConfig(config, h);
      r := ObjdiffGenerated(config, cfg);
    } else {
      r := ScriptExit("Unknown mode: " + a.mode);
    }
  }
}
