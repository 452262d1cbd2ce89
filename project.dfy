/**
 * The configuration side of tools/project.py: per-object options, library declarations,
 * `ProjectConfig` with `validate`, `find_object` and `out_path`, and the small helpers the
 * generators share (`make_cflags_str`, Python truthiness of option values).
 *
 * A library is the source's dictionary with its keys as fields; the optional keys
 * ("archive", "src_dir") are `Option`s. `ProjectConfig` is a record: its methods only read it.
 */
module Project {
  import opened Wrappers
  import opened Strings
  import opened Paths

  /** A compiler flag option: a ready-made string or a list of flags. */
  datatype Flags = FlagStr(s: string) | FlagList(flags: seq<string>)

  /** Whether an optional flag value counts as true in Python: None, "" and [] do not. */
  predicate FlagsTruthy(f: Option<Flags>)
  {
    match f
    case None => false
    case Some(FlagStr(s)) => s != ""
    case Some(FlagList(l)) => l != []
  }

  /** Whether an optional string counts as true in Python: None and "" do not. */
  predicate StrTruthy(s: Option<string>)
  {
    s.Some? && s.value != ""
  }

  /** `make_cflags_str`: a list is joined with single spaces, a string is used as is. */
  function MakeCflagsStr(cflags: Flags): string
  {
    match cflags
    case FlagStr(s) => s
    case FlagList(l) => Strings.Join(l, " ")
  }

  /** A non-empty list of space-free flags is recovered by splitting its flags string at the spaces. */
  lemma {:induction false} JoinSplitsBack(l: seq<string>)
    ensures l != [] && (forall k :: 0 <= k < |l| ==> ' ' !in l[k]) ==> Split(MakeCflagsStr(FlagList(l)), ' ') == l
    decreases |l|
  {
    if |l| > 1 && forall k :: 0 <= k < |l| ==> ' ' !in l[k] {
      assert ' ' !in l[0];
      JoinSplitsBack(l[1..]);
      assert forall k :: 0 <= k < |l[1..]| ==> ' ' !in l[1..][k];
      SplitAtFirst(l[0], ' ', Strings.Join(l[1..], " "));
      assert Strings.Join(l, " ") == l[0] + [' '] + Strings.Join(l[1..], " ");
      assert l == [l[0]] + l[1..];
    } else if |l| == 1 && ' ' !in l[0] {
      SplitWithoutSeparator(l[0], ' ');
    }
  }

  /** An Object's options after `options.update(...)`. */
  datatype Options = Options(
    addToAll: bool,
    cflags: Option<Flags>,
    extraCflags: Option<Flags>,
    mwVersion: Option<string>,
    shiftjis: bool,
    source: string)

  /** The keyword options a caller passes to `Object(...)`; `Some(None)` passes an explicit None. */
  datatype Overrides = Overrides(
    addToAll: Option<bool>,
    cflags: Option<Option<Flags>>,
    extraCflags: Option<Option<Flags>>,
    mwVersion: Option<Option<string>>,
    shiftjis: Option<bool>,
    source: Option<string>)

  const NoOverrides := Overrides(None, None, None, None, None, None)

  /** A source object: completion status, name and options. */
  datatype Object = Object(completed: bool, name: string, options: Options)

  /** `Object(completed, name, **options)`: the defaults, each replaced by the caller's value if given. */
  function MakeObject(completed: bool, name: string, ov: Overrides): (o: Object)
    ensures o.completed == completed && o.name == name
    ensures o.options.addToAll == ov.addToAll.GetOr(true)
    ensures o.options.cflags == ov.cflags.GetOr(None)
    ensures o.options.extraCflags == ov.extraCflags.GetOr(None)
    ensures o.options.mwVersion == ov.mwVersion.GetOr(None)
    ensures o.options.shiftjis == ov.shiftjis.GetOr(true)
    ensures o.options.source == ov.source.GetOr(name)
  {
    var defaults := Options(true, None, None, None, true, name);
    Object(completed, name, Options(
      if ov.addToAll.Some? then ov.addToAll.value else defaults.addToAll,
      if ov.cflags.Some? then ov.cflags.value else defaults.cflags,
      if ov.extraCflags.Some? then ov.extraCflags.value else defaults.extraCflags,
      if ov.mwVersion.Some? then ov.mwVersion.value else defaults.mwVersion,
      if ov.shiftjis.Some? then ov.shiftjis.value else defaults.shiftjis,
      if ov.source.Some? then ov.source.value else defaults.source))
  }

  /** Without keyword options an Object is added to "all", uses Shift JIS, compiles its own name and sets no flags. */
  lemma DefaultObject(completed: bool, name: string)
    ensures MakeObject(completed, name, NoOverrides).options == Options(true, None, None, None, true, name)
  {
  }

  /** A library declaration: `lib`, `archive`, `mw_version`, `cflags`, `host`, `src_dir` and `objects`. */
  datatype Library = Library(
    lib: string,
    archive: Option<Path>,
    mwVersion: string,
    cflags: Flags,
    host: bool,
    srcDir: Option<Path>,
    objects: seq<Object>)

  /** An attribute that is declared but may never have been assigned (`archive_dir`). */
  datatype Attr<T> = Unassigned | Assigned(value: T)

  /** `ProjectConfig`: the attributes the generators read. */
  datatype ProjectConfig = ProjectConfig(
    buildDir: Option<Path>,
    srcDir: Option<Path>,
    toolsDir: Option<Path>,
    archiveDir: Attr<Option<Path>>,
    dtkTag: Option<string>,
    buildDtkPath: Option<Path>,
    compilersTag: Option<string>,
    compilersPath: Option<Path>,
    wiboTag: Option<string>,
    wrapper: Option<Path>,
    sjiswrapTag: Option<string>,
    sjiswrapPath: Option<Path>,
    debug: bool,
    libs: Option<seq<Library>>,
    version: Option<string>,
    warnMissingSource: bool,
    progressEachModule: bool)

  const BuildPath := Path(["build"])
  const SrcPath := Path(["src"])
  const ToolsPath := Path(["tools"])

  /** `ProjectConfig()`: build, src and tools directories set, `archive_dir` declared only, everything else None or its default. */
  function NewProjectConfig(): (c: ProjectConfig)
    ensures c.buildDir == Some(BuildPath) && c.srcDir == Some(SrcPath) && c.toolsDir == Some(ToolsPath)
    ensures c.archiveDir.Unassigned? && c.libs.None? && c.version.None?
  {
    ProjectConfig(Some(BuildPath), Some(SrcPath), Some(ToolsPath), Unassigned,
                  None, None, None, None, None, None, None, None,
                  false, None, None, false, true)
  }

  /** What the generators end with: success, `sys.exit(msg)`, or an uncaught exception. */
  datatype Outcome = Done | Exit(msg: string) | Raised(error: string)

  /** `getattr(self, attr)` for a required attribute: assigned and not None, None, or never assigned. */
  datatype Lookup = Present | IsNone | NotAssigned

  /** The attributes `validate` requires, in the order it checks them. */
  const RequiredAttrs: seq<string> := ["build_dir", "src_dir", "tools_dir", "archive_dir", "libs", "version"]

  function LookupAttr(c: ProjectConfig, i: nat): Lookup
    requires i < |RequiredAttrs|
  {
    if i == 0 then (if c.buildDir.Some? then Present else IsNone)
    else if i == 1 then (if c.srcDir.Some? then Present else IsNone)
    else if i == 2 then (if c.toolsDir.Some? then Present else IsNone)
    else if i == 3 then
      (match c.archiveDir
       case Unassigned => NotAssigned
       case Assigned(d) => if d.Some? then Present else IsNone)
    else if i == 4 then (if c.libs.Some? then Present else IsNone)
    else (if c.version.Some? then Present else IsNone)
  }

  /** All the required attributes are set: what a successful `validate` guarantees. */
  predicate Valid(c: ProjectConfig)
  {
    c.buildDir.Some? && c.srcDir.Some? && c.toolsDir.Some? && c.archiveDir.Assigned? && c.archiveDir.value.Some?
    && c.libs.Some? && c.version.Some?
  }

  lemma ValidIffAllPresent(c: ProjectConfig)
    ensures Valid(c) <==> forall i :: 0 <= i < |RequiredAttrs| ==> LookupAttr(c, i) == Present
  {
    if !Valid(c) {
      if c.buildDir.None? { assert LookupAttr(c, 0) != Present; }
      else if c.srcDir.None? { assert LookupAttr(c, 1) != Present; }
      else if c.toolsDir.None? { assert LookupAttr(c, 2) != Present; }
      else if c.archiveDir.Unassigned? || c.archiveDir.value.None? { assert LookupAttr(c, 3) != Present; }
      else if c.libs.None? { assert LookupAttr(c, 4) != Present; }
      else { assert LookupAttr(c, 5) != Present; }
    }
  }

  /** The outcome of checking the required attributes from index `i` on, in order. */
  function CheckFrom(c: ProjectConfig, i: nat): Outcome
    requires i <= |RequiredAttrs|
    decreases |RequiredAttrs| - i
  {
    if i == |RequiredAttrs| then Done
    else match LookupAttr(c, i)
      case NotAssigned => Raised("AttributeError")
      case IsNone => Exit("ProjectConfig." + RequiredAttrs[i] + " missing")
      case Present => CheckFrom(c, i + 1)
  }

  /**
   * `validate`: checks the required attributes in order; the first that is None ends the run with
   * "ProjectConfig.<attr> missing", and an `archive_dir` that was never assigned raises AttributeError.
   */
  method Validate(c: ProjectConfig) returns (r: Outcome)
    ensures r == CheckFrom(c, 0)
    ensures r.Done? <==> Valid(c)
    ensures r.Exit? ==> exists i :: (0 <= i < |RequiredAttrs| && LookupAttr(c, i) == IsNone
                                     && r.msg == "ProjectConfig." + RequiredAttrs[i] + " missing"
                                     && forall j :: 0 <= j < i ==> LookupAttr(c, j) == Present)
    ensures r.Raised? ==> (r.error == "AttributeError" && LookupAttr(c, 3) == NotAssigned
                           && forall j :: 0 <= j < 3 ==> LookupAttr(c, j) == Present)
  {
    ValidIffAllPresent(c);
    var i := 0;
    while i < |RequiredAttrs|
      invariant 0 <= i <= |RequiredAttrs|
      invariant forall j :: 0 <= j < i ==> LookupAttr(c, j) == Present
      invariant CheckFrom(c, i) == CheckFrom(c, 0)
    {
      var value := LookupAttr(c, i);
      if value == NotAssigned {
        return Raised("AttributeError");
      }
      if value == IsNone {
        return Exit("ProjectConfig." + RequiredAttrs[i] + " missing");
      }
      i := i + 1;
    }
    return Done;
  }

  /** `self.libs or {}`: no libraries when `libs` is None or empty. */
  function LibsOrEmpty(c: ProjectConfig): seq<Library>
  {
    if c.libs.Some? then c.libs.value else []
  }

  /** Whether library `i` declares an object named `name` at position `j`. */
  predicate MatchAt(libs: seq<Library>, name: string, i: int, j: int)
  {
    0 <= i < |libs| && 0 <= j < |libs[i].objects| && libs[i].objects[j].name == name
  }

  /**
   * `find_object(name)`: the first library and object, scanning libraries in order and each
   * library's objects in order, whose object has the name; None if there is none.
   */
  method FindObject(c: ProjectConfig, name: string) returns (r: Option<(Library, Object)>)
    ensures r.None? <==> forall i, j :: !MatchAt(LibsOrEmpty(c), name, i, j)
    ensures r.Some? ==> exists i, j :: (MatchAt(LibsOrEmpty(c), name, i, j)
                                        && r.value == (LibsOrEmpty(c)[i], LibsOrEmpty(c)[i].objects[j])
                                        && forall i', j' :: MatchAt(LibsOrEmpty(c), name, i', j') ==> i < i' || (i == i' && j <= j'))
  {
    var libs := LibsOrEmpty(c);
    var i := 0;
    while i < |libs|
      invariant 0 <= i <= |libs|
      invariant forall i', j' :: 0 <= i' < i ==> !MatchAt(libs, name, i', j')
    {
      var lib := libs[i];
      var j := 0;
      while j < |lib.objects|
        invariant 0 <= j <= |lib.objects|
        invariant forall j' :: 0 <= j' < j ==> !MatchAt(libs, name, i, j')
      {
        if lib.objects[j].name == name {
          assert MatchAt(libs, name, i, j);
          assert forall i', j' :: MatchAt(libs, name, i', j') ==> i < i' || (i == i' && j <= j');
          return Some((lib, lib.objects[j]));
        }
        j := j + 1;
      }
      i := i + 1;
    }
    return None;
  }

  /** `str(self.version)`: the version, or "None". */
  function VersionStr(version: Option<string>): string
  {
    if version.Some? then version.value else "None"
  }

  /** `out_path()`: `build_dir / str(version)`. */
  function OutPath(c: ProjectConfig): (r: Path)
    requires c.buildDir.Some?
    ensures |r.parts| >= |c.buildDir.value.parts| && r.parts[..|c.buildDir.value.parts|] == c.buildDir.value.parts
  {
    Div(c.buildDir.value, VersionStr(c.version))
  }

  /** For a version that is one path component, the output directory is that component under the build directory. */
  lemma OutPathLayout(c: ProjectConfig)
    requires c.buildDir.Some? && (c.version.Some? ==> ValidPart(c.version.value))
    ensures c.version.Some? ==> OutPath(c) == Path(c.buildDir.value.parts + [c.version.value])
    ensures c.version.None? ==> OutPath(c) == Path(c.buildDir.value.parts + ["None"])
  {
    FromStrAtom(VersionStr(c.version));
  }
}
