/**
 * The build graph of `generate_build_ninja` in tools/project.py, from the `download_tool` rule
 * to the `configure` edge that regenerates build.ninja. The ninja writer is modelled as the
 * sequence of its `rule` and `build` emissions (`Step`); comments, blank lines, plain variables
 * and the command and description texts of rules are not modelled.
 *
 * `add_unit` mutates the sets and lists it closes over; here they are fields of `NinjaBuild`
 * beside the writer's buffer, and its printed warnings are recorded as the missing paths.
 * The `lib` that the closure reads from the enclosing loop is passed as a parameter.
 */
module NinjaGen {
  import opened Wrappers
  import opened Paths
  import opened Project
  import opened Tooling
  import Strings

  /** The two hard-coded build profiles. */
  datatype Profile = Debug | Release

  /** The profile's directory name. */
  function ProfileDir(p: Profile): Path
  {
    match p
    case Debug => Path(["debug"])
    case Release => Path(["release"])
  }

  /** `profiles`, in the order the archive loop visits them. */
  const Profiles: seq<Profile> := [Debug, Release]

  const ObjDirName := Path(["obj"])
  const DwarfDirName := Path(["dwarf"])
  const AsmDirName := Path(["asm"])
  const SrcDirName := Path(["src"])
  const MwccRelPath := Path(["$mw_version", "mwcceppc.exe"])
  const MwccExe := Path(["mwcceppc.exe"])
  const BuildNinjaFile := Path(["build.ninja"])
  const NinjaSyntaxName := Path(["ninja_syntax.py"])

  /** What the generator reads throughout: the configuration, the host and the resolved tools. */
  datatype Env = Env(c: ProjectConfig, h: Host, t: Tools)

  /** An object whose name has a last component, as `with_suffix` needs. */
  predicate WellFormedObject(o: Object)
  {
    Name(FromStr(o.name)) != ""
  }

  /** A library whose objects are well formed and whose archive, if any, has a valid name. */
  predicate WellFormedLib(lib: Library)
  {
    (forall k :: 0 <= k < |lib.objects| ==> WellFormedObject(lib.objects[k]))
    && (lib.archive.Some? ==> ValidPart(Name(lib.archive.value)))
  }

  predicate WellFormedLibs(c: ProjectConfig)
  {
    c.libs.Some? ==> forall k :: 0 <= k < |c.libs.value| ==> WellFormedLib(c.libs.value[k])
  }

  function Opt(p: Option<Path>): seq<Path>
  {
    if p.Some? then [p.value] else []
  }

  /** `mwcc`: `compilers / "$mw_version" / "mwcceppc.exe"`. */
  function Mwcc(t: Tools): Path
  {
    Join(t.compilers, MwccRelPath)
  }

  function TransformDep(e: Env): seq<Path>
    requires e.c.toolsDir.Some?
  {
    if e.h.windows then [] else [Join(e.c.toolsDir.value, TransformDepName)]
  }

  /** `mwcc_implicit`: the fetched compilers (else the compiler itself), a fetched wrapper, and transform_dep.py off Windows. */
  function MwccImplicit(e: Env): (r: seq<Path>)
    requires e.c.toolsDir.Some?
    ensures |r| == 1 + |Opt(e.t.wrapperImplicit)| + (if e.h.windows then 0 else 1)
    ensures r[0] == (if e.t.compilersImplicit.Some? then e.t.compilersImplicit.value else Mwcc(e.t))
    ensures e.t.wrapperImplicit.Some? ==> r[1] == e.t.wrapperImplicit.value
    ensures !e.h.windows ==> r[|r| - 1] == Join(e.c.toolsDir.value, TransformDepName)
  {
    [if e.t.compilersImplicit.Some? then e.t.compilersImplicit.value else Mwcc(e.t)]
    + Opt(e.t.wrapperImplicit) + TransformDep(e)
  }

  /** `mwcc_sjis_implicit`: as `mwcc_implicit`, with sjiswrap before transform_dep.py. */
  function MwccSjisImplicit(e: Env): (r: seq<Path>)
    requires e.c.toolsDir.Some?
    ensures e.t.sjiswrap in r
    ensures var m, n := MwccImplicit(e), |TransformDep(e)|;
      |r| == |m| + 1 && r[..|m| - n] == m[..|m| - n] && r[|m| - n] == e.t.sjiswrap && r[|m| - n + 1..] == m[|m| - n..]
  {
    [if e.t.compilersImplicit.Some? then e.t.compilersImplicit.value else Mwcc(e.t)]
    + Opt(e.t.wrapperImplicit) + [e.t.sjiswrap] + TransformDep(e)
  }

  /** The steps before the per-library edges: the tooling, then the rules. */
  function PreambleSteps(toolSteps: seq<Step>): seq<Step>
  {
    [RuleStep("download_tool")] + toolSteps
    + [RuleStep("mwcc")] + [RuleStep("mwcc_sjis")] + [RuleStep("host_cc")] + [RuleStep("host_cpp")]
    + [RuleStep("ar_extract")] + [RuleStep("elf_disasm")] + [RuleStep("dwarf_dump")]
  }

  /** The steps after the per-library edges: objdiff.json and build.ninja regeneration. */
  function FinalSteps(h: Host): seq<Step>
  {
    [RuleStep("objdiff_config"),
     BuildStep([h.objdiffConfigPath], "objdiff_config", [], [h.configureScript, h.pythonLib], []),
     RuleStep("configure"),
     BuildStep([BuildNinjaFile], "configure", [],
               [h.configureScript, h.pythonLib, Join(Parent(h.pythonLib), NinjaSyntaxName)], [])]
  }

  // ---------------------------------------------------------------------------------------
  // add_unit

  /** The writer's buffer and the state `add_unit` closes over. */
  datatype GenState = GenState(
    steps: seq<Step>,            // the writer's emissions, in order
    sourceAdded: set<Path>,      // `source_added`
    sourceInputs: seq<Path>,     // `source_inputs`
    usedVersions: set<string>,   // `used_compiler_versions`
    warnings: seq<Path>)         // the sources reported missing, in order

  /** `src_dir / lib_name / source`, where the library's `src_dir` overrides the configuration's. */
  function UnitSrcPath(e: Env, lib: Library, obj: Object): Path
    requires e.c.srcDir.Some?
  {
    Div(Div(if lib.srcDir.Some? then lib.srcDir.value else e.c.srcDir.value, lib.lib), obj.options.source)
  }

  /** `options["mw_version"] or lib["mw_version"]`. */
  function UnitMwVersion(lib: Library, obj: Object): (r: string)
    ensures StrTruthy(obj.options.mwVersion) ==> r == obj.options.mwVersion.value
    ensures !StrTruthy(obj.options.mwVersion) ==> r == lib.mwVersion
  {
    if StrTruthy(obj.options.mwVersion) then obj.options.mwVersion.value else lib.mwVersion
  }

  /** `options["cflags"] or lib["cflags"]`: the object's flags unless they are None, "" or []. */
  function EffectiveCflags(lib: Library, obj: Object): (r: Flags)
    ensures FlagsTruthy(obj.options.cflags) ==> r == obj.options.cflags.value
    ensures !FlagsTruthy(obj.options.cflags) ==> r == lib.cflags
  {
    if FlagsTruthy(obj.options.cflags) then obj.options.cflags.value else lib.cflags
  }

  /** The cflags string: the effective flags, then any extra cflags after a space. */
  function UnitCflags(lib: Library, obj: Object): (r: string)
    ensures obj.options.extraCflags.None? ==> r == MakeCflagsStr(EffectiveCflags(lib, obj))
    ensures obj.options.extraCflags.Some? ==>
      r == MakeCflagsStr(EffectiveCflags(lib, obj)) + " " + MakeCflagsStr(obj.options.extraCflags.value)
  {
    var base := MakeCflagsStr(EffectiveCflags(lib, obj));
    if obj.options.extraCflags.Some? then base + " " + MakeCflagsStr(obj.options.extraCflags.value) else base
  }

  /**
   * For space-free flag lists, the cflags string splits back into the effective flags followed
   * by the extra flags: nothing is lost or reordered on the way to the compiler.
   */
  lemma UnitCflagsWords(lib: Library, obj: Object, flags: seq<string>, extra: seq<string>)
    requires EffectiveCflags(lib, obj) == FlagList(flags)
    requires flags != [] && forall k :: 0 <= k < |flags| ==> ' ' !in flags[k]
    requires obj.options.extraCflags.Some? ==>
      obj.options.extraCflags.value == FlagList(extra) && extra != [] && forall k :: 0 <= k < |extra| ==> ' ' !in extra[k]
    ensures obj.options.extraCflags.None? ==> Strings.Split(UnitCflags(lib, obj), ' ') == flags
    ensures obj.options.extraCflags.Some? ==> Strings.Split(UnitCflags(lib, obj), ' ') == flags + extra
  {
    JoinSplitsBack(flags);
    if obj.options.extraCflags.Some? {
      JoinSplitsBack(extra);
      Strings.SplitConcat(MakeCflagsStr(FlagList(flags)), ' ', MakeCflagsStr(FlagList(extra)));
    }
  }

  /** `out_path() / profile / kind / lib_name`. */
  function LibDir(c: ProjectConfig, profile: Profile, kind: Path, lib: Library): Path
    requires c.buildDir.Some?
  {
    Div(Join(Join(OutPath(c), ProfileDir(profile)), kind), lib.lib)
  }

  /** `Path(obj.name).with_suffix("")`. */
  function BaseObject(obj: Object): (r: Path)
    requires WellFormedObject(obj)
    ensures Name(r) != ""
  {
    WithSuffix(FromStr(obj.name), "")
  }

  /** `src_obj_path`: the compiled object under the profile's src directory. */
  function SrcObjPath(c: ProjectConfig, lib: Library, obj: Object, profile: Profile): Path
    requires c.buildDir.Some? && WellFormedObject(obj)
  {
    Join(LibDir(c, profile, SrcDirName, lib), WithSuffix(BaseObject(obj), ".o"))
  }

  /** `src_base_path`: the compiled object without its suffix. */
  function SrcBasePath(c: ProjectConfig, lib: Library, obj: Object, profile: Profile): Path
    requires c.buildDir.Some? && WellFormedObject(obj)
  {
    Join(LibDir(c, profile, SrcDirName, lib), BaseObject(obj))
  }

  /** The compile edge of one object. */
  function CompileStep(e: Env, lib: Library, obj: Object, profile: Profile): (st: Step)
    requires Valid(e.c) && WellFormedObject(obj)
    ensures st.BuildStep? && (st.rule == "mwcc" || st.rule == "mwcc_sjis") && st.outputs == [SrcObjPath(e.c, lib, obj, profile)]
  {
    var basePath := SrcBasePath(e.c, lib, obj, profile);
    BuildStep([SrcObjPath(e.c, lib, obj, profile)],
              if obj.options.shiftjis then "mwcc_sjis" else "mwcc",
              [UnitSrcPath(e, lib, obj)],
              if obj.options.shiftjis then MwccSjisImplicit(e) else MwccImplicit(e),
              [("mw_version", VPath(FromStr(UnitMwVersion(lib, obj)))),
               ("cflags", VStr(UnitCflags(lib, obj))),
               ("basedir", VPath(Parent(basePath))),
               ("basefile", VPath(basePath))])
  }

  /**
   * The bookkeeping of a compile edge: the compiler version is recorded, and the edge is emitted
   * (and its output added to `source_added`, and to `source_inputs` if it is built by "all")
   * unless its output already has one.
   */
  function Record(s: GenState, version: string, out: Path, step: Step, addToAll: bool): (t: GenState)
    ensures t.usedVersions == s.usedVersions + {version} && t.warnings == s.warnings
    ensures t.sourceAdded == s.sourceAdded + {out}
    ensures out in s.sourceAdded ==> t.steps == s.steps && t.sourceInputs == s.sourceInputs
    ensures out !in s.sourceAdded ==>
      (t.steps == s.steps + [step]
       && (t.sourceInputs == s.sourceInputs + [out] <==> addToAll)
       && (t.sourceInputs == s.sourceInputs <==> !addToAll))
  {
    var used := s.usedVersions + {version};
    if out in s.sourceAdded then s.(usedVersions := used)
    else
      assert |s.sourceInputs + [out]| != |s.sourceInputs|;
      s.(steps := s.steps + [step],
         sourceAdded := s.sourceAdded + {out},
         sourceInputs := s.sourceInputs + (if addToAll then [out] else []),
         usedVersions := used)
  }

  /** `add_unit(obj, lib_name, profile)`. */
  function AddUnitSpec(e: Env, s: GenState, lib: Library, obj: Object, profile: Profile): GenState
    requires Valid(e.c) && WellFormedObject(obj)
  {
    var src := UnitSrcPath(e, lib, obj);
    if src !in e.h.existing then
      if e.c.warnMissingSource || obj.completed then s.(warnings := s.warnings + [src]) else s
    else
      Record(s, UnitMwVersion(lib, obj), SrcObjPath(e.c, lib, obj, profile), CompileStep(e, lib, obj, profile),
             obj.options.addToAll)
  }

  /**
   * A unit whose source is missing adds no edge and changes nothing but the warnings, which gain
   * the path exactly when `warn_missing_source` is set or the object is completed.
   */
  lemma MissingSource(e: Env, s: GenState, lib: Library, obj: Object, profile: Profile)
    requires Valid(e.c) && WellFormedObject(obj) && UnitSrcPath(e, lib, obj) !in e.h.existing
    ensures var t := AddUnitSpec(e, s, lib, obj, profile);
      t.(warnings := s.warnings) == s
      && (t.warnings == s.warnings + [UnitSrcPath(e, lib, obj)] <==> e.c.warnMissingSource || obj.completed)
      && (t.warnings == s.warnings <==> !(e.c.warnMissingSource || obj.completed))
  {
    var src := UnitSrcPath(e, lib, obj);
    assert |s.warnings + [src]| != |s.warnings|;
  }

  /**
   * The compile edge: output `src_obj_path`, input the unit's source, rule `mwcc_sjis` iff the
   * unit is Shift JIS with the matching implicit dependencies, and the variables carrying the
   * fallback version and cflags.
   */
  lemma CompileStepShape(e: Env, lib: Library, obj: Object, profile: Profile)
    requires Valid(e.c) && WellFormedObject(obj)
    ensures var st := CompileStep(e, lib, obj, profile);
      st.outputs == [SrcObjPath(e.c, lib, obj, profile)] && st.inputs == [UnitSrcPath(e, lib, obj)]
      && (st.rule == "mwcc_sjis" <==> obj.options.shiftjis) && (st.rule == "mwcc" <==> !obj.options.shiftjis)
      && (obj.options.shiftjis ==> e.t.sjiswrap in st.implicit)
      && st.vars[0] == ("mw_version", VPath(FromStr(UnitMwVersion(lib, obj))))
      && st.vars[1] == ("cflags", VStr(UnitCflags(lib, obj)))
  {
  }

  // ---------------------------------------------------------------------------------------
  // The archive loop

  /** The archive a profile extracts: the debug profile's stem gains a "D". */
  function ProfileArchive(lib: Library, profile: Profile): (r: Path)
    requires lib.archive.Some? && ValidPart(Name(lib.archive.value))
    ensures profile == Release ==> r == lib.archive.value
    ensures profile == Debug ==>
      (Parent(r) == Parent(lib.archive.value)
       && Name(r) == Stem(Name(lib.archive.value)) + "D" + Suffix(Name(lib.archive.value)))
  {
    var archive := lib.archive.value;
    if profile == Debug then
      MarkedStemValid(Name(archive), "D");
      WithStem(archive, Stem(Name(archive)) + "D")
    else archive
  }

  /** `(target_dir / Path(obj.name).name).with_suffix(".o")`. */
  function ObjFile(targetDir: Path, obj: Object): (r: Path)
    requires WellFormedObject(obj)
    ensures Name(r) != ""
  {
    // `Path(obj.name).name` is a single component, so the division appends exactly it.
    WithSuffix(Join(targetDir, Path([Name(FromStr(obj.name))])), ".o")
  }

  /** `obj_files`, one per object in order. */
  function ObjFiles(targetDir: Path, objs: seq<Object>): seq<Path>
    requires forall k :: 0 <= k < |objs| ==> WellFormedObject(objs[k])
    decreases |objs|
  {
    if |objs| == 0 then []
    else ObjFiles(targetDir, objs[..|objs| - 1]) + [ObjFile(targetDir, objs[|objs| - 1])]
  }

  lemma {:induction false} ObjFilesIndex(targetDir: Path, objs: seq<Object>)
    requires forall k :: 0 <= k < |objs| ==> WellFormedObject(objs[k])
    ensures |ObjFiles(targetDir, objs)| == |objs|
    ensures forall k :: 0 <= k < |objs| ==> ObjFiles(targetDir, objs)[k] == ObjFile(targetDir, objs[k])
    decreases |objs|
  {
    if |objs| > 0 {
      var init := objs[..|objs| - 1];
      ObjFilesIndex(targetDir, init);
      var r, q := ObjFiles(targetDir, objs), ObjFiles(targetDir, init);
      assert r == q + [ObjFile(targetDir, objs[|objs| - 1])];
      forall k | 0 <= k < |objs|
        ensures r[k] == ObjFile(targetDir, objs[k])
      {
        if k < |init| {
          assert r[k] == q[k] && init[k] == objs[k];
        } else {
          assert k == |objs| - 1;
        }
      }
    }
  }

  /** The extract edge of one library and profile. */
  function ExtractStep(e: Env, lib: Library, profile: Profile): Step
    requires Valid(e.c) && lib.archive.Some? && WellFormedLib(lib)
  {
    var targetDir := LibDir(e.c, profile, ObjDirName, lib);
    BuildStep(ObjFiles(targetDir, lib.objects), "ar_extract", [ProfileArchive(lib, profile)], [e.t.dtk],
              [("basedir", VPath(targetDir))])
  }

  /** The two post-processing passes over an extracted object. */
  datatype Pass = Disasm | DwarfDump

  function PassRule(pass: Pass): string
  {
    match pass
    case Disasm => "elf_disasm"
    case DwarfDump => "dwarf_dump"
  }

  function PassSuffix(pass: Pass): string
  {
    match pass
    case Disasm => ".s"
    case DwarfDump => ".c"
  }

  function PassDirName(pass: Pass): Path
  {
    match pass
    case Disasm => AsmDirName
    case DwarfDump => DwarfDirName
  }

  /** `dir / obj_file.with_suffix(suffix).name` built from `obj_file` by the pass's rule. */
  function PassStep(pass: Pass, dir: Path, objFile: Path): Step
    requires Name(objFile) != ""
  {
    BuildStep([Div(dir, Name(WithSuffix(objFile, PassSuffix(pass))))], PassRule(pass), [objFile], [], [])
  }

  /** The edges for one object of an extracted archive: disassembly, DWARF dump, then `add_unit`. */
  function PerObject(e: Env, s: GenState, lib: Library, profile: Profile, obj: Object): GenState
    requires Valid(e.c) && WellFormedObject(obj)
  {
    var objFile := ObjFile(LibDir(e.c, profile, ObjDirName, lib), obj);
    var steps := s.steps + [PassStep(Disasm, LibDir(e.c, profile, AsmDirName, lib), objFile)]
                         + [PassStep(DwarfDump, LibDir(e.c, profile, DwarfDirName, lib), objFile)];
    AddUnitSpec(e, s.(steps := steps), lib, obj, profile)
  }

  /** The per-object edges for a prefix of the objects. */
  function ObjectsSpec(e: Env, s: GenState, lib: Library, profile: Profile, objs: seq<Object>): GenState
    requires Valid(e.c) && forall k :: 0 <= k < |objs| ==> WellFormedObject(objs[k])
    decreases |objs|
  {
    if |objs| == 0 then s
    else PerObject(e, ObjectsSpec(e, s, lib, profile, objs[..|objs| - 1]), lib, profile, objs[|objs| - 1])
  }

  /** One profile of one library: the extract edge, then the per-object edges. */
  function ProfileSpec(e: Env, s: GenState, lib: Library, profile: Profile): GenState
    requires Valid(e.c) && lib.archive.Some? && WellFormedLib(lib)
  {
    ObjectsSpec(e, s.(steps := s.steps + [ExtractStep(e, lib, profile)]), lib, profile, lib.objects)
  }

  /** A prefix of the profiles of one library. */
  function ProfilesSpec(e: Env, s: GenState, lib: Library, ps: seq<Profile>): GenState
    requires Valid(e.c) && lib.archive.Some? && WellFormedLib(lib)
    decreases |ps|
  {
    if |ps| == 0 then s
    else ProfileSpec(e, ProfilesSpec(e, s, lib, ps[..|ps| - 1]), lib, ps[|ps| - 1])
  }

  /** A prefix of the libraries; those without an archive are skipped. */
  function LibsSpec(e: Env, s: GenState, libs: seq<Library>): GenState
    requires Valid(e.c) && forall k :: 0 <= k < |libs| ==> WellFormedLib(libs[k])
    decreases |libs|
  {
    if |libs| == 0 then s
    else
      var s' := LibsSpec(e, s, libs[..|libs| - 1]);
      var lib := libs[|libs| - 1];
      if lib.archive.None? then s' else ProfilesSpec(e, s', lib, Profiles)
  }

  // ---------------------------------------------------------------------------------------
  // The whole generator

  /** The end of a run: its outcome, build.ninja's steps if it was written, and the warnings printed. */
  datatype Generated = Generated(outcome: Outcome, written: Option<seq<Step>>, warnings: seq<Path>)

  /** The initial state of the archive loop. */
  function StartState(toolSteps: seq<Step>): GenState
  {
    GenState(PreambleSteps(toolSteps), {}, [], {}, [])
  }

  /**
   * `generate_build_ninja`: validate, resolve the tools, emit the rules, walk the libraries with
   * archives, add the objdiff and configure edges; build.ninja is written only when nothing exited.
   * The compiler-existence check runs before any unit is added, so it never exits.
   */
  function GenerateSpec(c: ProjectConfig, h: Host): (g: Generated)
    requires WellFormedLibs(c)
    ensures g.written.Some? <==> g.outcome.Done?
    ensures g.outcome.Done? ==> Valid(c) && ToolsConfigured(c)
    ensures !g.outcome.Done? ==>
      (g.outcome == CheckFrom(c, 0)
       || (g.outcome.Exit? && Valid(c) && ResolveTools(c, h) == Failure(g.outcome.msg)))
  {
    ValidateOutcomes(c);
    var v := CheckFrom(c, 0);
    if v != Done then Generated(v, None, [])
    else
      ResolveToolsOutcome(c, h);
      match ResolveTools(c, h)
      case Failure(msg) => Generated(Exit(msg), None, [])
      case Success((t, toolSteps)) =>
        var s := Run(Env(c, h, t), toolSteps);
        Generated(Done, Some(s.steps + FinalSteps(h)), s.warnings)
  }

  /** A run that writes build.ninja got past validation and tool resolution and wrote the archive loop's edges, then the final ones. */
  lemma GenerateWritten(c: ProjectConfig, h: Host)
    requires WellFormedLibs(c) && GenerateSpec(c, h).written.Some?
    ensures Valid(c) && ResolveTools(c, h).Success?
    ensures var s := Run(Env(c, h, ResolveTools(c, h).value.0), ResolveTools(c, h).value.1);
      GenerateSpec(c, h).written.value == s.steps + FinalSteps(h) && GenerateSpec(c, h).warnings == s.warnings
  {
    ValidateOutcomes(c);
  }

  /** The state after the archive loop, from the rules and the tooling edges. */
  function Run(e: Env, toolSteps: seq<Step>): GenState
    requires Valid(e.c) && WellFormedLibs(e.c)
  {
    LibsSpec(e, StartState(toolSteps), e.c.libs.value)
  }

  /** `validate` succeeds exactly on a valid configuration. */
  lemma ValidateOutcomes(c: ProjectConfig)
    ensures CheckFrom(c, 0).Done? <==> Valid(c)
  {
    ValidIffAllPresent(c);
    CheckFromDone(c, 0);
  }

  lemma {:induction false} CheckFromDone(c: ProjectConfig, i: nat)
    requires i <= |RequiredAttrs|
    ensures CheckFrom(c, i).Done? <==> forall j :: i <= j < |RequiredAttrs| ==> LookupAttr(c, j) == Present
    decreases |RequiredAttrs| - i
  {
    if i < |RequiredAttrs| {
      CheckFromDone(c, i + 1);
    }
  }

  // ---------------------------------------------------------------------------------------
  // The imperative generator

  /** `CompilerMissing`: compilers given by path but `compilers / version / mwcceppc.exe` absent. */
  predicate CompilerMissing(c: ProjectConfig, h: Host, compilers: Path, version: string)
  {
    c.compilersPath.Some? && Join(Div(compilers, version), MwccExe) !in h.existing
  }

  /**
   * The compiler-existence check over a set of versions: None when every compiler is present
   * (or the compilers are downloaded), else the exit message for a missing one.
   */
  method CheckCompilers(c: ProjectConfig, h: Host, compilers: Path, used: set<string>) returns (missing: Option<string>)
    ensures missing.None? <==> forall v :: v in used ==> !CompilerMissing(c, h, compilers, v)
    ensures missing.Some? ==>
      exists v :: (v in used && CompilerMissing(c, h, compilers, v)
                   && missing.value == "Compiler " + AsPosix(Join(Div(compilers, v), MwccExe)) + " does not exist")
  {
    var pending := used;
    while pending != {}
      invariant pending <= used
      invariant forall v :: v in used && v !in pending ==> !CompilerMissing(c, h, compilers, v)
      decreases |pending|
    {
      var v :| v in pending;
      if CompilerMissing(c, h, compilers, v) {
        return Some("Compiler " + AsPosix(Join(Div(compilers, v), MwccExe)) + " does not exist");
      }
      pending := pending - {v};
    }
    return None;
  }

  /** The ninja writer's buffer together with the state `add_unit` closes over. */
  class NinjaBuild {
    var steps: seq<Step>
    var sourceAdded: set<Path>
    var sourceInputs: seq<Path>
    var usedVersions: set<string>
    var warnings: seq<Path>

    function State(): GenState
      reads this
    {
      GenState(steps, sourceAdded, sourceInputs, usedVersions, warnings)
    }

    constructor ()
      ensures State() == GenState([], {}, [], {}, [])
    {
      steps := [];
      sourceAdded := {};
      sourceInputs := [];
      usedVersions := {};
      warnings := [];
    }

    /** `n.rule(...)` or `n.build(...)`. */
    method Emit(st: Step)
      modifies this
      ensures State() == old(State()).(steps := old(State()).steps + [st])
    {
      steps := steps + [st];
    }

    /** `add_unit(obj, lib_name, profile)`. */
    method AddUnit(e: Env, lib: Library, obj: Object, profile: Profile)
      requires Valid(e.c) && WellFormedObject(obj)
      modifies this
      ensures State() == AddUnitSpec(e, old(State()), lib, obj, profile)
    {
      var unitSrcPath := UnitSrcPath(e, lib, obj);
      if unitSrcPath !in e.h.existing {
        if e.c.warnMissingSource || obj.completed {
          warnings := warnings + [unitSrcPath];
        }
        return;
      }
      var mwVersion := UnitMwVersion(lib, obj);
      var srcObjPath := SrcObjPath(e.c, lib, obj, profile);
      RecordCompile(mwVersion, srcObjPath, CompileStep(e, lib, obj, profile), obj.options.addToAll);
    }

    /** The part of `add_unit` after the source check. */
    method RecordCompile(mwVersion: string, srcObjPath: Path, step: Step, addToAll: bool)
      modifies this
      ensures State() == Record(old(State()), mwVersion, srcObjPath, step, addToAll)
    {
      usedVersions := usedVersions + {mwVersion};
      if srcObjPath !in sourceAdded {
        sourceAdded := sourceAdded + {srcObjPath};
        steps := steps + [step];
        if addToAll {
          sourceInputs := sourceInputs + [srcObjPath];
        }
      }
    }
  }

  /** `obj_files`, built one object at a time. */
  method MakeObjFiles(targetDir: Path, objects: seq<Object>) returns (objFiles: seq<Path>)
    requires forall k :: 0 <= k < |objects| ==> WellFormedObject(objects[k])
    ensures objFiles == ObjFiles(targetDir, objects)
  {
    objFiles := [];
    for k := 0 to |objects|
      invariant objFiles == ObjFiles(targetDir, objects[..k])
    {
      assert objects[..k + 1][..k] == objects[..k];
      objFiles := objFiles + [ObjFile(targetDir, objects[k])];
    }
    assert objects[..|objects|] == objects;
  }

  /** The edges of one extracted object: disassembly, DWARF dump, then `add_unit`. */
  method EmitObject(n: NinjaBuild, e: Env, lib: Library, profile: Profile, obj: Object, objFile: Path)
    requires Valid(e.c) && WellFormedObject(obj) && objFile == ObjFile(LibDir(e.c, profile, ObjDirName, lib), obj)
    modifies n
    ensures n.State() == PerObject(e, old(n.State()), lib, profile, obj)
  {
    n.Emit(PassStep(Disasm, LibDir(e.c, profile, AsmDirName, lib), objFile));
    n.Emit(PassStep(DwarfDump, LibDir(e.c, profile, DwarfDirName, lib), objFile));
    n.AddUnit(e, lib, obj, profile);
  }

  lemma ObjectsStep(e: Env, s: GenState, lib: Library, profile: Profile, objs: seq<Object>, k: nat)
    requires Valid(e.c) && k < |objs| && forall j :: 0 <= j < |objs| ==> WellFormedObject(objs[j])
    ensures ObjectsSpec(e, s, lib, profile, objs[..k + 1])
         == PerObject(e, ObjectsSpec(e, s, lib, profile, objs[..k]), lib, profile, objs[k])
  {
    assert objs[..k + 1][..k] == objs[..k];
  }

  /** The extract edge and the per-object loop of one library and profile. */
  method EmitProfile(n: NinjaBuild, e: Env, lib: Library, profile: Profile)
    requires Valid(e.c) && lib.archive.Some? && WellFormedLib(lib)
    modifies n
    ensures n.State() == ProfileSpec(e, old(n.State()), lib, profile)
  {
    var targetDir := LibDir(e.c, profile, ObjDirName, lib);
    var objects := lib.objects;
    var objFiles := MakeObjFiles(targetDir, objects);
    ObjFilesIndex(targetDir, objects);
    n.Emit(BuildStep(objFiles, "ar_extract", [ProfileArchive(lib, profile)], [e.t.dtk], [("basedir", VPath(targetDir))]));
    ghost var s0 := n.State();
    for k := 0 to |objects|
      invariant n.State() == ObjectsSpec(e, s0, lib, profile, objects[..k])
    {
      ObjectsStep(e, s0, lib, profile, objects, k);
      EmitObject(n, e, lib, profile, objects[k], objFiles[k]);
    }
    assert objects[..|objects|] == objects;
  }

  lemma ProfilesStep(e: Env, s: GenState, lib: Library, ps: seq<Profile>, p: nat)
    requires Valid(e.c) && lib.archive.Some? && WellFormedLib(lib) && p < |ps|
    ensures ProfilesSpec(e, s, lib, ps[..p + 1]) == ProfileSpec(e, ProfilesSpec(e, s, lib, ps[..p]), lib, ps[p])
  {
    assert ps[..p + 1][..p] == ps[..p];
  }

  /** The profile loop of one library with an archive (called with `Profiles`). */
  method EmitLib(n: NinjaBuild, e: Env, lib: Library, ps: seq<Profile>)
    requires Valid(e.c) && lib.archive.Some? && WellFormedLib(lib)
    modifies n
    ensures n.State() == ProfilesSpec(e, old(n.State()), lib, ps)
  {
    ghost var s0 := n.State();
    for p := 0 to |ps|
      invariant n.State() == ProfilesSpec(e, s0, lib, ps[..p])
    {
      ProfilesStep(e, s0, lib, ps, p);
      EmitProfile(n, e, lib, ps[p]);
    }
    assert ps[..|ps|] == ps;
  }

  /** The library loop: `filter(lambda l: l.get("archive") is not None, config.libs or [])`. */
  method EmitLibs(n: NinjaBuild, e: Env, libs: seq<Library>)
    requires Valid(e.c) && forall k :: 0 <= k < |libs| ==> WellFormedLib(libs[k])
    modifies n
    ensures n.State() == LibsSpec(e, old(n.State()), libs)
  {
    ghost var s0 := n.State();
    for i := 0 to |libs|
      invariant n.State() == LibsSpec(e, s0, libs[..i])
    {
      var lib := libs[i];
      assert libs[..i + 1][..i] == libs[..i];
      if lib.archive.Some? {
        EmitLib(n, e, lib, Profiles);
      }
    }
    assert libs[..|libs|] == libs;
  }

  /** The tool-download edges, in order. */
  method EmitAll(n: NinjaBuild, steps: seq<Step>)
    modifies n
    ensures n.State() == old(n.State()).(steps := old(n.State()).steps + steps)
  {
    ghost var s0 := n.State();
    for k := 0 to |steps|
      invariant n.State() == s0.(steps := s0.steps + steps[..k])
    {
      n.Emit(steps[k]);
      assert steps[..k + 1] == steps[..k] + [steps[k]];
    }
    assert steps[..|steps|] == steps;
  }

  /**
   * The tooling edges and the rules, with the compiler check between them; no unit has been
   * added yet, so `used_compiler_versions` is empty and the check cannot exit.
   */
  method EmitPreamble(n: NinjaBuild, c: ProjectConfig, h: Host, t: Tools, toolSteps: seq<Step>)
    requires n.State() == GenState([], {}, [], {}, [])
    modifies n
    ensures n.State() == StartState(toolSteps)
  {
    n.Emit(RuleStep("download_tool"));
    assert n.steps == [RuleStep("download_tool")];
    EmitAll(n, toolSteps);
    n.Emit(RuleStep("mwcc"));
    n.Emit(RuleStep("mwcc_sjis"));
    n.Emit(RuleStep("host_cc"));
    n.Emit(RuleStep("host_cpp"));
    var missing := CheckCompilers(c, h, t.compilers, n.usedVersions);
    if missing.Some? {
      assert false;
    }
    n.Emit(RuleStep("ar_extract"));
    n.Emit(RuleStep("elf_disasm"));
    n.Emit(RuleStep("dwarf_dump"));
  }

  /**
   * `generate_build_ninja`: the run's outcome, what it writes to build.ninja and what it prints
   * are those of `GenerateSpec`.
   */
  method GenerateBuildNinja(c: ProjectConfig, h: Host) returns (g: Generated)
    requires WellFormedLibs(c)
    ensures g == GenerateSpec(c, h)
  {
    var v := Validate(c);
    if v != Done {
      return Generated(v, None, []);
    }
    var tools := ResolveTools(c, h);
    if tools.Failure? {
      return Generated(Exit(tools.error), None, []);
    }
    var (t, toolSteps) := tools.value;
    var e := Env(c, h, t);
    var n := new NinjaBuild();
    EmitPreamble(n, c, h, t, toolSteps);
    EmitLibs(n, e, c.libs.value);
    var s := n.State();
    assert CheckFrom(c, 0) == Done && ResolveTools(c, h) == Success((t, toolSteps));
    return Generated(Done, Some(s.steps + FinalSteps(h)), s.warnings);
  }
}
