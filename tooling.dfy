/**
 * The "Tooling" part of `generate_build_ninja` in tools/project.py: where dtk, sjiswrap, the
 * Windows-executable wrapper (wibo or wine) and the compilers come from, and the ninja steps
 * that fetch or build them. Each tool comes from a local path, else from a download tag, else
 * the run ends with "ProjectConfig.<tag> missing".
 *
 * The host facts the source probes (`os.name`, `sys.platform`, `platform.machine()`, the
 * locations of the scripts, which files exist) are the fields of `Host`.
 */
module Tooling {
  import opened Wrappers
  import opened Paths
  import opened Project

  /** The host facts the generators read. */
  datatype Host = Host(
    windows: bool,              // `os.name == "nt"`
    platform: string,           // `sys.platform`
    machine: string,            // `platform.machine()`
    configureScript: Path,      // `sys.argv[0]`, relative to the working directory
    pythonLib: Path,            // tools/project.py, relative to the working directory
    objdiffConfigPath: Path,    // objdiff.json next to the tools directory
    existing: set<Path>)        // the paths `exists()` reports

  /** A ninja variable value: a string or a path. */
  datatype Var = VStr(s: string) | VPath(p: Path)

  /** One emission of the ninja writer: a `rule` (by name) or a `build` edge. */
  datatype Step =
    | RuleStep(name: string)
    | BuildStep(outputs: seq<Path>, rule: string, inputs: seq<Path>, implicit: seq<Path>, vars: seq<(string, Var)>)

  /** The resolved tools. */
  datatype Tools = Tools(
    dtk: Path,
    sjiswrap: Path,
    wrapper: Option<Path>,
    wrapperImplicit: Option<Path>,   // the wrapper, when this run downloads it
    compilers: Path,
    compilersImplicit: Option<Path>) // the compilers directory, when this run downloads it

  /** `EXE`: the native executable extension. */
  function Exe(h: Host): (r: string)
    ensures r == ".exe" <==> h.windows
    ensures r == "" <==> !h.windows
  {
    if h.windows then ".exe" else ""
  }

  const ToolsDirName := Path(["tools"])
  const ReleaseDirName := Path(["release"])
  const DownloadToolName := Path(["download_tool.py"])
  const TransformDepName := Path(["transform_dep.py"])
  const CargoToml := Path(["Cargo.toml"])
  const CargoLock := Path(["Cargo.lock"])
  const SjiswrapExe := Path(["sjiswrap.exe"])
  const WiboName := Path(["wibo"])
  const CompilersName := Path(["compilers"])
  const Wine := Path(["wine"])

  /** `build_tools_path`: `build_dir / "tools"`. */
  function BuildToolsPath(c: ProjectConfig): Path
    requires c.buildDir.Some?
  {
    Join(c.buildDir.value, ToolsDirName)
  }

  /** `download_tool`: `tools_dir / "download_tool.py"`. */
  function DownloadTool(c: ProjectConfig): Path
    requires c.toolsDir.Some?
  {
    Join(c.toolsDir.value, DownloadToolName)
  }

  /** A `download_tool` edge fetching `tool` at `tag` into `out`. */
  function DownloadStep(c: ProjectConfig, out: Path, tool: string, tag: string): (st: Step)
    requires c.toolsDir.Some?
    ensures st.BuildStep? && st.outputs == [out] && st.rule == "download_tool" && st.inputs == []
    ensures st.implicit == [DownloadTool(c)] && st.vars == [("tool", VStr(tool)), ("tag", VStr(tag))]
  {
    BuildStep([out], "download_tool", [], [DownloadTool(c)], [("tool", VStr(tool)), ("tag", VStr(tag))])
  }

  /** The dtk executable and the steps that produce it, or the exit message. */
  function ResolveDtk(c: ProjectConfig, h: Host): (r: Result<(Path, seq<Step>), string>)
    requires c.buildDir.Some? && c.toolsDir.Some?
    ensures c.buildDtkPath.Some? ==>
      (r.Success? && r.value.0 == Join(Join(BuildToolsPath(c), ReleaseDirName), Path(["dtk" + Exe(h)]))
       && r.value.1 == [RuleStep("cargo"),
                        BuildStep([r.value.0], "cargo", [Join(c.buildDtkPath.value, CargoToml)],
                                  [Join(c.buildDtkPath.value, CargoLock)],
                                  [("bin", VStr("dtk")), ("target", VPath(BuildToolsPath(c)))])])
    ensures c.buildDtkPath.None? && StrTruthy(c.dtkTag) ==>
      (r.Success? && r.value.0 == Join(BuildToolsPath(c), Path(["dtk" + Exe(h)]))
       && r.value.1 == [DownloadStep(c, r.value.0, "dtk", c.dtkTag.value)])
    ensures c.buildDtkPath.None? && !StrTruthy(c.dtkTag) ==> r == Failure("ProjectConfig.dtk_tag missing")
  {
    if c.buildDtkPath.Some? then
      var dtk := Join(Join(BuildToolsPath(c), ReleaseDirName), Path(["dtk" + Exe(h)]));
      Success((dtk, [RuleStep("cargo"),
                     BuildStep([dtk], "cargo", [Join(c.buildDtkPath.value, CargoToml)],
                               [Join(c.buildDtkPath.value, CargoLock)],
                               [("bin", VStr("dtk")), ("target", VPath(BuildToolsPath(c)))])]))
    else if StrTruthy(c.dtkTag) then
      var dtk := Join(BuildToolsPath(c), Path(["dtk" + Exe(h)]));
      Success((dtk, [DownloadStep(c, dtk, "dtk", c.dtkTag.value)]))
    else
      Failure("ProjectConfig.dtk_tag missing")
  }

  /** The sjiswrap executable and the steps that fetch it, or the exit message. */
  function ResolveSjiswrap(c: ProjectConfig): (r: Result<(Path, seq<Step>), string>)
    requires c.buildDir.Some? && c.toolsDir.Some?
    ensures c.sjiswrapPath.Some? ==> r == Success((c.sjiswrapPath.value, []))
    ensures c.sjiswrapPath.None? && StrTruthy(c.sjiswrapTag) ==>
      r == Success((Join(BuildToolsPath(c), SjiswrapExe),
                    [DownloadStep(c, Join(BuildToolsPath(c), SjiswrapExe), "sjiswrap", c.sjiswrapTag.value)]))
    ensures c.sjiswrapPath.None? && !StrTruthy(c.sjiswrapTag) ==> r == Failure("ProjectConfig.sjiswrap_tag missing")
  {
    if c.sjiswrapPath.Some? then
      Success((c.sjiswrapPath.value, []))
    else if StrTruthy(c.sjiswrapTag) then
      var sjiswrap := Join(BuildToolsPath(c), SjiswrapExe);
      Success((sjiswrap, [DownloadStep(c, sjiswrap, "sjiswrap", c.sjiswrapTag.value)]))
    else
      Failure("ProjectConfig.sjiswrap_tag missing")
  }

  /** Whether wibo is downloaded: a wibo tag, a Linux x86 host and no configured wrapper. */
  predicate WiboApplies(c: ProjectConfig, h: Host)
  {
    c.wiboTag.Some? && h.platform == "linux" && h.machine in ["i386", "x86_64"] && c.wrapper.None?
  }

  /**
   * The wrapper, the wrapper as an implicit dependency, and the steps that fetch it: a downloaded
   * wibo, else the configured wrapper, else "wine" off Windows.
   */
  function ResolveWrapper(c: ProjectConfig, h: Host): (r: (Option<Path>, Option<Path>, seq<Step>))
    requires c.buildDir.Some? && c.toolsDir.Some?
    ensures WiboApplies(c, h) ==>
      r == (Some(Join(BuildToolsPath(c), WiboName)), Some(Join(BuildToolsPath(c), WiboName)),
            [DownloadStep(c, Join(BuildToolsPath(c), WiboName), "wibo", c.wiboTag.value)])
    ensures !WiboApplies(c, h) ==> r.1.None? && r.2 == []
    ensures !WiboApplies(c, h) && c.wrapper.Some? ==> r.0 == c.wrapper
    ensures !WiboApplies(c, h) && c.wrapper.None? ==> (r.0 == Some(Wine) <==> !h.windows) && (r.0.None? <==> h.windows)
  {
    var (wrapper, implicit, steps) :=
      if WiboApplies(c, h) then
        var wibo := Join(BuildToolsPath(c), WiboName);
        (Some(wibo), Some(wibo), [DownloadStep(c, wibo, "wibo", c.wiboTag.value)])
      else (c.wrapper, None, []);
    if !h.windows && wrapper.None? then (Some(Wine), implicit, steps) else (wrapper, implicit, steps)
  }

  /** The compilers directory, the directory as an implicit dependency when fetched, and the steps, or the exit message. */
  function ResolveCompilers(c: ProjectConfig): (r: Result<(Path, Option<Path>, seq<Step>), string>)
    requires c.buildDir.Some? && c.toolsDir.Some?
    ensures c.compilersPath.Some? ==> r == Success((c.compilersPath.value, None, []))
    ensures c.compilersPath.None? && StrTruthy(c.compilersTag) ==>
      r == Success((Join(c.buildDir.value, CompilersName), Some(Join(c.buildDir.value, CompilersName)),
                    [DownloadStep(c, Join(c.buildDir.value, CompilersName), "compilers", c.compilersTag.value)]))
    ensures c.compilersPath.None? && !StrTruthy(c.compilersTag) ==> r == Failure("ProjectConfig.compilers_tag missing")
  {
    if c.compilersPath.Some? then
      Success((c.compilersPath.value, None, []))
    else if StrTruthy(c.compilersTag) then
      var compilers := Join(c.buildDir.value, CompilersName);
      Success((compilers, Some(compilers), [DownloadStep(c, compilers, "compilers", c.compilersTag.value)]))
    else
      Failure("ProjectConfig.compilers_tag missing")
  }

  /**
   * All of the tooling in the source's order (dtk, sjiswrap, wrapper, compilers) with the steps
   * emitted after the `download_tool` rule, or the first exit message.
   */
  function ResolveTools(c: ProjectConfig, h: Host): (r: Result<(Tools, seq<Step>), string>)
    requires c.buildDir.Some? && c.toolsDir.Some?
    ensures r.Success? <==> ToolsConfigured(c)
  {
    match ResolveDtk(c, h)
    case Failure(e) => Failure(e)
    case Success((dtk, dtkSteps)) =>
      match ResolveSjiswrap(c)
      case Failure(e) => Failure(e)
      case Success((sjiswrap, sjisSteps)) =>
        var (wrapper, wrapperImplicit, wrapperSteps) := ResolveWrapper(c, h);
        match ResolveCompilers(c)
        case Failure(e) => Failure(e)
        case Success((compilers, compilersImplicit, compilerSteps)) =>
          Success((Tools(dtk, sjiswrap, wrapper, wrapperImplicit, compilers, compilersImplicit),
                   dtkSteps + sjisSteps + wrapperSteps + compilerSteps))
  }

  /** The tools resolve exactly when each of dtk, sjiswrap and the compilers has a path or a tag. */
  predicate ToolsConfigured(c: ProjectConfig)
  {
    (c.buildDtkPath.Some? || StrTruthy(c.dtkTag))
    && (c.sjiswrapPath.Some? || StrTruthy(c.sjiswrapTag))
    && (c.compilersPath.Some? || StrTruthy(c.compilersTag))
  }

  /**
   * Tool resolution succeeds iff every tool is configured; otherwise it exits naming the first
   * missing tag in the order dtk, sjiswrap, compilers. A tool given by path is never downloaded,
   * and the wrapper is absent only on Windows with no wrapper configured.
   */
  lemma ResolveToolsOutcome(c: ProjectConfig, h: Host)
    requires c.buildDir.Some? && c.toolsDir.Some?
    ensures ResolveTools(c, h).Success? <==> ToolsConfigured(c)
    ensures c.buildDtkPath.None? && !StrTruthy(c.dtkTag) ==> ResolveTools(c, h) == Failure("ProjectConfig.dtk_tag missing")
    ensures (c.buildDtkPath.Some? || StrTruthy(c.dtkTag)) && c.sjiswrapPath.None? && !StrTruthy(c.sjiswrapTag) ==>
      ResolveTools(c, h) == Failure("ProjectConfig.sjiswrap_tag missing")
    ensures ((c.buildDtkPath.Some? || StrTruthy(c.dtkTag)) && (c.sjiswrapPath.Some? || StrTruthy(c.sjiswrapTag))
             && c.compilersPath.None? && !StrTruthy(c.compilersTag)) ==>
      ResolveTools(c, h) == Failure("ProjectConfig.compilers_tag missing")
    ensures ResolveTools(c, h).Success? ==>
      var t := ResolveTools(c, h).value.0;
      (c.sjiswrapPath.Some? ==> t.sjiswrap == c.sjiswrapPath.value)
      && (c.compilersPath.Some? ==> t.compilers == c.compilersPath.value && t.compilersImplicit.None?)
      && (t.wrapper.None? <==> h.windows && c.wrapper.None? && !WiboApplies(c, h))
  {
  }
}
