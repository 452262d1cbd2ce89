# A model of the Dolphin SDK decompilation's build configuration and two OS drivers

This project is a Dafny model of the core of a decompilation project for the Nintendo
GameCube Dolphin SDK, built on the dtk-template layout. The model covers four parts.

- **`configure.py`.** It declares the SDK revision (36, released 2001-05-22) and the compiler flags. It declares the `os` library of 27 objects, extracted from `orig/DOLSDK-2001-05-22/os.a`. It then runs one of two modes. "configure" writes `build.ninja` and `objdiff.json`. "objdiff" writes `objdiff.json` only.
- **The generator in `tools/project.py`.**
  - `ProjectConfig.validate` checks the required attributes.
  - The tooling edges download dtk, sjiswrap, wibo and the compilers.
  - The archive loop emits, for each library with an archive and for both profiles, an extract edge. It then emits, per object, a disassembly edge, a DWARF-dump edge and a compile edge. `source_added` keeps compile outputs unique.
  - The objdiff unit list scans `-inline` flags for `deferred`/`nodeferred`.
- **The declarative records of `tools/project/build.py` and `tools/project/config.py`.**
  - Rule equality and hashing.
  - The `Lib` constructor, which crosses profiles with units into Archives, Objects and Diffs.
- **The runtime sources.**
  - The download URL builders of `tools/download_tool.py`.
  - The reset-switch driver `src/os/OSResetSW.c`.
  - The C library time hooks `src/os/time.dolphin.c`.

Python's `pathlib` is modelled by `Paths` as a sequence of components, with the `stem`, `suffix`, `with_suffix`, `with_stem`, `relative_to` and `as_posix` semantics of `PurePosixPath`. `str.split`, `" ".join`, `str(int)` and `lower()` are modelled by `Strings`.

The host is a parameter (`Tooling.Host`): the operating system, the machine, and the set of paths that exist. Writing files becomes the value a generator returns: the edges of `build.ninja`, and the units of `objdiff.json`.

The state-changing code keeps its imperative form, each proved against a specification function:
- `NinjaGen.NinjaBuild` holds the ninja writer's buffer and the sets that `add_unit` closes over.
- `ProjectLib.Lib` has a looping constructor.
- `OSResetSW.ResetSwitch` holds the driver's statics.
- `Configure.RunConfigure` is the script itself.

## Model

| member | source | states |
|---|---|---|
| Strings.Split | tools/project.py:602 | `str.split(c)` never returns an empty list |
| Strings.SplitJoin | tools/project.py:602 | joining the pieces of a split with the separator gives back the string |
| Strings.SplitConcat | tools/project.py:602 | splitting `a + c + b` gives the pieces of `a` followed by those of `b` |
| Strings.NatToStr | configure.py:35 | `str(n)` is a non-empty string of decimal digits without a leading zero |
| Strings.IntToStr | configure.py:111 | `str(i)` starts with a minus sign exactly for a negative number |
| Strings.NatToStrRoundTrip | configure.py:35 | reading the digits of `str(n)` back gives `n` |
| Strings.Lower | tools/download_tool.py:28-33 | `lower()` maps each character to its lower case: an ASCII capital's code point rises by 32 (to its lower-case letter), every other character is kept, so the length is kept and no ASCII capital is left |
| Strings.LowerIdempotent | tools/download_tool.py:28-33 | lower-casing twice equals lower-casing once |
| Paths.FromStrAtom | tools/project.py:581 | `Path(s)` of a single valid component is that one component |
| Paths.Stem | tools/project.py:442 | a non-empty name has a non-empty stem |
| Paths.WithSuffix | tools/project.py:357-358 | `with_suffix` keeps the parent and the depth and renames the last component to stem + suffix |
| Paths.WithoutSuffix | tools/project.py:357 | `with_suffix("")` is the parent followed by the stem |
| Paths.WithStem | tools/project.py:442 | `with_stem` keeps the parent and the suffix and replaces the stem |
| Paths.RelativeTo | tools/project/config.py:102 | `relative_to` succeeds iff the base is a prefix, and joining the base to the result gives the path back |
| Paths.RelativeToJoin | tools/project/config.py:102 | a path joined below a base, taken relative to that base, is the joined part |
| Paths.StemAndSuffix | tools/project.py:442 | a name is its stem followed by its suffix, and neither gains a separator |
| Paths.MarkedStemValid | tools/project.py:442 | a stem extended by a marker and given back its suffix is again a valid component |
| Paths.WithSuffixAfterDrop | tools/project.py:357-358 | `with_suffix("").with_suffix(s)` equals `with_suffix(s)` iff the stem has no suffix of its own |
| Paths.DoubleSuffixStems | tools/project.py:357-358 | a name with two one-dot suffixes (such as "a.b.c") keeps the first on its stem, so its stem has a suffix of its own |
| Project.JoinSplitsBack | tools/project.py:325-329 | a non-empty list of space-free flags is recovered by splitting `make_cflags_str` at spaces |
| Project.MakeObject | tools/project.py:31-43 | each option is the caller's value if given, else the default (`add_to_all` and `shiftjis` True, `source` the name, the rest None) |
| Project.DefaultObject | tools/project.py:35-42 | without keyword options an Object is added to "all", uses Shift JIS, compiles its own name and sets no flags |
| Project.NewProjectConfig | tools/project.py:46-82 | the build, src and tools directories are set, `archive_dir` is declared but unassigned, `libs` and `version` are None |
| Project.ValidIffAllPresent | tools/project.py:84-95 | a configuration is valid iff each required attribute is assigned and not None |
| Project.Validate | tools/project.py:84-95 | success iff valid; otherwise `sys.exit` names the first None attribute in order, or an AttributeError for the never-assigned `archive_dir` |
| Project.FindObject | tools/project.py:97-102 | None iff no library declares an object of that name; otherwise a library and object that match, the first in library-then-object order |
| Project.OutPath | tools/project.py:104-105 | `out_path()` lies under the build directory |
| Project.OutPathLayout | tools/project.py:104-105 | the output directory is `build_dir / version`, or `build_dir / "None"` when no version is set |
| ProjectBuild.RuleEquals | tools/project/build.py:21-24 | two values are equal iff the other is a Rule with the same name; the command is ignored |
| ProjectBuild.EqualRulesHashEqually | tools/project/build.py:21-27 | Rules that compare equal hash equally, whatever the string hash |
| ProjectBuild.RuleEqualsIsEquivalence | tools/project/build.py:21-24 | Rule equality is reflexive, symmetric and transitive |
| ProjectBuild.RuleWrite | tools/project/build.py:18-19 | `write` emits exactly one rule, carrying the record's name and command |
| ProjectBuild.ObjectWrite | tools/project/build.py:39-40 | `Object.write` emits nothing |
| ProjectLib.DefaultConfig | tools/project/config.py:34-41 | the given profiles, no version, the class constants "src", "build", "orig" and "GC/1.2.5", and the supplied output and archive directories |
| ProjectLib.ObjName | tools/project/config.py:66-67 | the object name keeps the unit's parent and replaces its suffix with ".o" |
| ProjectLib.CharFlag | tools/project/config.py:77 | "-char signed" iff the unit is signed-char, "-char unsigned" otherwise |
| ProjectLib.DwarfPath | tools/project/config.py:74 | the DWARF dump is the unit with suffix ".c" under the profile's dwarf directory |
| ProjectLib.MakeDir | tools/project/config.py:57-58 | `make_dir(d)` is `output_dir / d / profile.name / name`, component by component |
| ProjectLib.DiffNameLayout | tools/project/config.py:83-87 | the Diff's name is `profile/name/unit` in POSIX form with the unit's suffix removed |
| ProjectLib.ObjectPaths | tools/project/config.py:57-74 | for single-component profile and library names the base is `<output_dir>/obj/<profile>/<lib>/X.o`, the target `<output_dir>/src/<profile>/<lib>/X.o` and the DWARF dump `<output_dir>/dwarf/<profile>/<lib>/X.c` |
| ProjectLib.CreateObject | tools/project/config.py:65-80 | the Object's base and target are the unit's object name under the obj and src directories |
| ProjectLib.ObjectLayout | tools/project/config.py:70-80 | the Object compiles `src_dir/name/unit` with GC/1.2.5 and dumps DWARF to the dwarf directory; its flags are the char flag, then the profile's flags |
| ProjectLib.CreatePair | tools/project/config.py:65-94 | the pair's Diff compares exactly its Object's target and base, is never reversed, and copies the unit's completeness |
| ProjectLib.CreateDiff | tools/project/config.py:82-92 | the Diff pairs the Object's target and base, is never reversed, and copies the unit's completeness |
| ProjectLib.ProfileObjects | tools/project/config.py:96 | one Object per unit, in unit order |
| ProjectLib.ProfileDiffs | tools/project/config.py:96 | one Diff per unit, in unit order |
| ProjectLib.ProfileArchive | tools/project/config.py:60 | the Archive reads `archive_dir/<name><suffix>.a` and extracts into the obj directory |
| ProjectLib.Relatives | tools/project/config.py:102 | each base taken relative to the obj directory, joined back, is the base |
| ProjectLib.ManifestIsObjectNames | tools/project/config.py:98-104 | the manifest is exactly the set of the units' object names |
| ProjectLib.RelativesAreObjNames | tools/project/config.py:102 | each Object's base, relative to the obj directory, is its unit's object name |
| ProjectLib.ManifestSize | tools/project/config.py:102 | the manifest has at most one entry per unit, and exactly one per unit iff the object names are distinct |
| ProjectLib.LibArchivesAt | tools/project/config.py:98-104 | one Archive per profile, in profile order |
| ProjectLib.LibCounts | tools/project/config.py:105-106 | `len(profiles) * len(units)` Objects and as many Diffs |
| ProjectLib.LibObjectAt | tools/project/config.py:105 | the Object of profile p and unit i is at index `p * len(units) + i` |
| ProjectLib.LibDiffAt | tools/project/config.py:106 | the Diff of profile p and unit i is at index `p * len(units) + i` |
| ProjectLib.Lib.constructor | tools/project/config.py:50-106 | the profile loop leaves exactly the Archives, Objects and Diffs of every profile crossed with every unit |
| Tooling.Exe | tools/project.py:115 | ".exe" iff the host is Windows, else "" |
| Tooling.DownloadStep | tools/project.py:179-189 | a `download_tool` edge with one output, no inputs, `download_tool.py` as implicit dependency, and the tool and tag as variables |
| Tooling.ResolveDtk | tools/project.py:160-191 | a cargo build from the source path if one is given, else a download by tag, else the "dtk_tag missing" exit |
| Tooling.ResolveSjiswrap | tools/project.py:193-207 | the configured path, else a download by tag, else the "sjiswrap_tag missing" exit |
| Tooling.ResolveWrapper | tools/project.py:209-231 | wibo is downloaded iff there is a tag, a Linux x86 host and no wrapper; otherwise the configured wrapper, else "wine" off Windows, else none |
| Tooling.ResolveCompilers | tools/project.py:233-249 | the configured path, else a download by tag that is also the implicit dependency, else the "compilers_tag missing" exit |
| Tooling.ResolveTools | tools/project.py:150-249 | the tools resolve iff dtk, sjiswrap and the compilers each have a path or a tag |
| Tooling.ResolveToolsOutcome | tools/project.py:150-249 | the tools resolve iff dtk, sjiswrap and the compilers each have a path or a tag; otherwise the first missing one's exit message |
| NinjaGen.MwccImplicit | tools/project.py:256-272 | the implicit dependencies are the downloaded compilers (else the compiler itself), then the downloaded wrapper if any, then transform_dep.py exactly off Windows |
| NinjaGen.MwccSjisImplicit | tools/project.py:264-272 | the Shift JIS compile depends on `mwcc_implicit` with sjiswrap inserted before transform_dep.py |
| NinjaGen.UnitMwVersion | tools/project.py:347 | the object's compiler version unless it is None or "", else the library's |
| NinjaGen.EffectiveCflags | tools/project.py:348 | the object's flags unless they are None, "" or [], else the library's |
| NinjaGen.UnitCflags | tools/project.py:348-351 | the effective flags string, followed by a space and the extra flags when they are not None |
| NinjaGen.UnitCflagsWords | tools/project.py:348-351 | splitting the cflags string at spaces gives the flags, then the extra flags |
| NinjaGen.BaseObject | tools/project.py:357 | the suffix-less object name is not empty |
| NinjaGen.CompileStep | tools/project.py:365-376 | a compile edge is built by `mwcc` or `mwcc_sjis` and outputs `src_obj_path` |
| NinjaGen.Record | tools/project.py:352-381 | the version is always recorded; a new output adds its edge, joins `source_added`, and joins `source_inputs` when `add_to_all`; a repeated output adds nothing |
| NinjaGen.MissingSource | tools/project.py:342-345 | a missing source adds no edge; the path is warned about iff `warn_missing_source` is set or the object is completed |
| NinjaGen.CompileStepShape | tools/project.py:365-376 | the edge reads the unit's source, uses `mwcc_sjis` iff Shift JIS (then depending on sjiswrap), and carries the fallback version and the cflags |
| NinjaGen.ProfileArchive | tools/project.py:434-442 | release extracts the library's archive; debug extracts the same directory's archive with "D" appended to the stem, suffix kept |
| NinjaGen.ObjFile | tools/project.py:452 | every extracted object file has a name |
| NinjaGen.ObjFilesIndex | tools/project.py:450-453 | `obj_files` has one entry per object, in object order |
| NinjaGen.GenerateSpec | tools/project.py:129-554 | build.ninja is written iff the run completes; that needs a valid configuration with configured tools; otherwise the outcome is the validation's exit or the tools' exit message |
| NinjaGen.GenerateWritten | tools/project.py:426-554 | a written build.ninja is the archive loop's edges followed by the objdiff and configure edges |
| NinjaGen.ValidateOutcomes | tools/project.py:84-95 | `validate` succeeds exactly on a valid configuration |
| NinjaGen.CheckFromDone | tools/project.py:93-95 | checking from the i-th attribute succeeds iff every later attribute is present |
| NinjaGen.CheckCompilers | tools/project.py:390-394 | no exit iff no used version's `mwcceppc.exe` is missing under a configured compilers path; otherwise the exit message names a missing one |
| NinjaGen.NinjaBuild.constructor | tools/project.py:318-323 | empty buffer, `source_added`, `source_inputs` and `used_compiler_versions` |
| NinjaGen.NinjaBuild.Emit | tools/project.py:365 | appends one edge and nothing else |
| NinjaGen.NinjaBuild.AddUnit | tools/project.py:331-384 | the new state is `add_unit`'s effect on the old one |
| NinjaGen.NinjaBuild.RecordCompile | tools/project.py:352-381 | the new state is Record of the old one |
| NinjaGen.MakeObjFiles | tools/project.py:444-453 | the loop builds exactly `obj_files` |
| NinjaGen.EmitObject | tools/project.py:463-475 | a disassembly edge, a DWARF-dump edge, then `add_unit` |
| NinjaGen.EmitProfile | tools/project.py:429-475 | the extract edge and then every object's edges, in object order |
| NinjaGen.EmitLib | tools/project.py:429 | every profile of one library, in order |
| NinjaGen.EmitLibs | tools/project.py:426 | the libraries with an archive, in order; those without are skipped |
| NinjaGen.EmitAll | tools/project.py:150-249 | the tooling edges, in order |
| NinjaGen.EmitPreamble | tools/project.py:154-424 | the download rule, the tooling edges and the rules; the compiler check runs while no version is used, so it cannot exit |
| NinjaGen.GenerateBuildNinja | tools/project.py:129-554 | the run's outcome, its build.ninja edges and its warnings are those of GenerateSpec |
| NinjaProps.CompileOutputsAppend | tools/project.py:365-376 | an appended edge adds its outputs to the compile outputs iff it is a compile edge |
| NinjaProps.RuleInputsAppend | tools/project.py:463-474 | an appended edge adds its inputs to a rule's inputs iff it is built by that rule |
| NinjaProps.CompileOutputsOthers | tools/project.py:503-538 | edges that are not compile edges leave the compile outputs unchanged |
| NinjaProps.RecordKeepsInv | tools/project.py:361-381 | recording a compile keeps compile outputs distinct and equal to `source_added`, and `source_inputs` distinct and within it |
| NinjaProps.AddUnitKeepsInv | tools/project.py:331-384 | `add_unit` keeps that invariant |
| NinjaProps.PerObjectKeepsInv | tools/project.py:463-475 | one object's edges keep the invariant |
| NinjaProps.ObjectsKeepInv | tools/project.py:463-475 | the object loop keeps the invariant |
| NinjaProps.ProfileKeepsInv | tools/project.py:429-475 | one profile's edges keep the invariant |
| NinjaProps.ProfilesKeepInv | tools/project.py:429-475 | the profile loop keeps the invariant |
| NinjaProps.LibsKeepInv | tools/project.py:426-475 | the library loop keeps the invariant |
| NinjaProps.ToolStepsNotCompile | tools/project.py:160-249 | the tooling edges are never compile edges |
| NinjaProps.StartInv | tools/project.py:318-323 | no compile edge precedes the archive loop, so the invariant holds at its start |
| NinjaProps.CompileOutputsUnique | tools/project.py:361-362 | the written build.ninja has at most one compile edge per output path |
| NinjaProps.FinalKeepsDistinct | tools/project.py:503-538 | the objdiff and configure edges keep the compile outputs distinct |
| NinjaProps.RunInv | tools/project.py:426-475 | after validation and tool resolution the whole archive loop keeps the invariant |
| NinjaProps.ObjFileLayout | tools/project.py:452 | the extracted object is `<target_dir>/<stem>.o` |
| NinjaProps.PassLayout | tools/project.py:465-474 | a pass over `<stem>.o` writes `<dir>/<stem>.s` (disassembly) or `<dir>/<stem>.c` (DWARF), reading only that object |
| NinjaProps.ObjFilesLayout | tools/project.py:450-453 | `obj_files[k]` is `<target_dir>/<stem of object k>.o` |
| NinjaProps.TwoPasses | tools/project.py:465-474 | a disassembly edge then a DWARF edge over `f` add `f` once to each pass's inputs |
| NinjaProps.CompileNotPass | tools/project.py:365-376 | a compile edge is read by no pass |
| NinjaProps.PerObjectPasses | tools/project.py:463-475 | one object adds exactly its extracted file to each pass's inputs |
| NinjaProps.ObjectsPasses | tools/project.py:463-475 | every extracted object, in object order, is the input of exactly one edge of each pass |
| NinjaProps.ExtractLayout | tools/project.py:454-460 | the extract edge unpacks the profile's archive into one `<stem>.o` per object, in order |
| NinjaProps.ProfilePasses | tools/project.py:449-475 | each file that the extract edge produces is read once by each pass, in the extract edge's order |
| Objdiff.LastDecisionIff | tools/project.py:597-606 | the flag is set iff some "deferred" is followed by no "nodeferred" |
| Objdiff.ScanValues | tools/project.py:602-606 | the inner loop leaves the last decision over the values scanned so far |
| Objdiff.ReverseFnOrder | tools/project.py:595-606 | the flag scan returns the last decision over every "-inline " flag's values, and False for string flags |
| Objdiff.MakeUnit | tools/project.py:580-611 | a unit has a base iff the profile's src directory exists; the base then carries the scanned `reverse_fn_order` flag and the object's completion |
| Objdiff.InlineFlagWord | tools/project.py:600-602 | "-inline w" contributes the comma-separated pieces of `w` |
| Objdiff.ObjectUnitsAt | tools/project.py:617-618 | unit k of a profile is object k's unit |
| Objdiff.ObjectUnitsStep | tools/project.py:617-618 | one more object appends its unit |
| Objdiff.LibUnitsOrder | tools/project.py:613-618 | a library contributes every object's release unit, in object order, then every debug unit |
| Objdiff.UnitsFromObjects | tools/project.py:595-611 | if no object's flags set `reverse_fn_order` and all are completed, no unit with a base is reversed and each is complete |
| Objdiff.UnitName | tools/project.py:587 | a unit's name is `profile/lib/stem` |
| Objdiff.BaseIsCompiledObject | tools/project.py:608 | the unit's base is the object that build.ninja compiles iff the name's stem has no suffix of its own |
| Objdiff.TargetIsExtractedObject | tools/project.py:588 | for a single-component object name, the unit's target is the object that build.ninja extracts |
| Objdiff.TargetIsExtractedObjectIff | tools/project.py:452 | the unit's target keeps every component of the name while the extract edge keeps only the last: they agree iff the name has one component |
| Objdiff.AddUnit | tools/project.py:580-611 | `add_unit` returns MakeUnit |
| Objdiff.AddObjects | tools/project.py:617-618 | the object loop appends each object's unit in order |
| Objdiff.AddLib | tools/project.py:616-618 | the profile loop appends the library's units in profile order |
| Objdiff.ObjdiffSpec | tools/project.py:558-618 | the fixed settings (min_version 0.4.3, custom_make ninja, no build target, the watch patterns) and one unit per object and profile |
| Objdiff.GenerateObjdiffConfig | tools/project.py:558-624 | the fixed settings, then the units of every library in order |
| Configure.RevisionsStr | configure.py:37-40 | with several keys the phrase ends with " or " and the last key |
| Configure.RevisionsStrShort | configure.py:37-40 | one key is named alone; two are joined by " or " |
| Configure.RevisionsStrCons | configure.py:37-38 | with three or more keys the phrase is the first key, a comma, then the phrase for the rest: "a, b, ... or z" for any length |
| Configure.InvalidRevisionMsg | configure.py:111 | the exit message names the revision and the only accepted one, 36 |
| Configure.RevisionKeysMatchTable | configure.py:30-40 | the table holds revision 36 only, the keys list is ["36"], and `revisions_str` is "36" |
| Configure.CflagsRuntime | configure.py:164-171 | the base flags, then five more |
| Configure.CflagsRel | configure.py:174-178 | the base flags, then "-sdata 0" and "-sdata2 0" |
| Configure.CflagsBase | configure.py:133-161 | 20 flags in release and 21 in debug, the 19th being the revision define |
| Configure.CflagsBaseLayout | configure.py:133-161 | 18 fixed flags, the revision define, then "-sym on" and "-DDEBUG=1" for debug or "-DNDEBUG=1" otherwise |
| Configure.NotInlineFlag | configure.py:133-155 | a flag differing from "-inline " early is not an inline flag |
| Configure.NoInlineValues | configure.py:133-155 | flags without "-inline " contribute no values |
| Configure.InlineValuesConcat | tools/project.py:599-602 | the values of concatenated flags are those of each part, in order |
| Configure.InlineAutoValues | configure.py:143 | "-inline auto" contributes "auto" |
| Configure.RevisionDefineValues | configure.py:154 | the revision define contributes no values |
| Configure.TailInlineValues | configure.py:144-161 | the flags after "-inline auto" contribute no values |
| Configure.BaseInlineValues | configure.py:133-161 | the base flags' only inline value is "auto" |
| Configure.BaseFlagsNotReversed | configure.py:133-161 | no object compiled with the base flags gets `reverse_fn_order` |
| Configure.DolphinLib | configure.py:181-189 | the library has the given name and objects, the base flags, GC/1.2.5, and is not a host library |
| Configure.DolphinLibArchive | configure.py:184 | the archive of a plain name is `<archive_dir>/<name>.a` |
| Configure.OsNamesValid | configure.py:200-226 | every declared object name is one path component |
| Configure.MatchingObjects | configure.py:200-226 | `Object(Matching, name)` with no options, for each name in order |
| Configure.OsObjects | configure.py:196-233 | 27 objects, all Matching, each well formed |
| Configure.ConfiguredProject | configure.py:109-128 | the version, the arguments applied (wrapper only off Windows), the four tool tags, no missing-source warning |
| Configure.ArchiveDirOf | configure.py:112-113 | the version is "DOLSDK-2001-05-22" and the archive directory is `orig/DOLSDK-2001-05-22` |
| Configure.OsLibWellFormed | configure.py:181-233 | the os library's archive is `orig/DOLSDK-2001-05-22/os.a` and all its objects are well formed |
| Configure.ConfiguredWellFormed | configure.py:109-233 | the declared project passes `validate`, configures every tool, and declares the single os library |
| Configure.InvalidRevisionExits | configure.py:110-111 | a revision is accepted iff it is 36; any other exits with "Invalid revision '<n>', expected 36" |
| Configure.ModeDispatch | configure.py:242-254 | "configure" generates build.ninja, "objdiff" generates objdiff.json, anything else exits with "Unknown mode: " + mode |
| Configure.DeclaredLib | configure.py:196-233 | the declared library is "os" with its archive, the 27 Matching objects and the base flags |
| Configure.DeclaredObject | configure.py:200-226 | every declared object is completed and compiles with the base flags |
| Configure.DeclaredUnits | tools/project.py:613-618 | the declared project has 54 objdiff units; none with a base is reversed, and all are complete |
| Configure.ConfigureWritesBoth | configure.py:242-244 | "configure" with revision 36 writes build.ninja and then objdiff.json, with 54 units |
| Configure.ObjdiffModeWritesUnits | configure.py:245-248 | "objdiff" sets the per-module progress switch from `--verbose` and writes 54 units |
| Configure.ConfigureSpec | configure.py:109-254 | the script exits iff the revision is not 36 or the mode is neither "configure" nor "objdiff"; objdiff.json follows build.ninja only when that generation succeeds; objdiff mode copies `verbose` into `progress_each_module` |
| Configure.RunConfigure | configure.py:109-254 | the script, statement by statement, ends as ConfigureSpec says |
| DownloadTool.GhSystem | tools/download_tool.py:28-30 | the lower-cased system, "darwin" published as "macos" |
| DownloadTool.GhSuffix | tools/download_tool.py:27-32 | ".exe" iff the system is Windows, else "" |
| DownloadTool.GhArch | tools/download_tool.py:33-35 | the lower-cased machine, "amd64" published as "x86_64" |
| DownloadTool.GhUrl | tools/download_tool.py:25-37 | the repository's release asset for the tag, named `<bin>-<system>-<arch><suffix>` after the host |
| DownloadTool.DtkUrl | tools/download_tool.py:40-41 | the host's `dtk` asset of encounter/decomp-toolkit |
| DownloadTool.ObjdiffCliUrl | tools/download_tool.py:44-45 | the host's `objdiff-cli` asset of ribbanya/objdiff |
| DownloadTool.SjiswrapUrl | tools/download_tool.py:48-50 | the `sjiswrap-windows-x86.exe` asset of encounter/sjiswrap, on every host |
| DownloadTool.WiboUrl | tools/download_tool.py:53-55 | the `wibo` asset of decompals/wibo |
| DownloadTool.CompilersUrl | tools/download_tool.py:58-59 | the compilers URL names a zip archive |
| DownloadTool.ToolUrl | tools/download_tool.py:62-78 | the compilers come from files.decomp.dev as a zip; every other tool from a GitHub release |
| DownloadTool.LookupTool | tools/download_tool.py:62-68 | exactly dtk, sjiswrap, wibo, compilers and objdiff-cli are known |
| DownloadTool.GhUrlTail | tools/download_tool.py:37 | a release URL ends with `-<arch><suffix>` |
| DownloadTool.GhUrlCaseInsensitive | tools/download_tool.py:25-37 | a release URL depends on the host's names only up to case |
| DownloadTool.HostIndependentUrls | tools/download_tool.py:48-55 | the sjiswrap and wibo URLs are the same on every host |
| DownloadTool.ZipUrls | tools/download_tool.py:78-88 | the compilers URL is always a zip, sjiswrap and wibo never are, and dtk or objdiff-cli only off Windows when the machine name ends in ".zip" |
| DownloadTool.GhZip | tools/download_tool.py:37 | a URL ending in `-<arch><suffix>` ends in ".zip" iff there is no ".exe" and the architecture ends in ".zip" |
| OSResetSW.Wrap64 | src/os/OSResetSW.c:61 | 64-bit two's-complement wrap: the identity in range, and congruent modulo 2^64 |
| OSResetSW.Initial | src/os/OSResetSW.c:4-6 | the statics start at zero: not down, no hold time, no callback |
| OSResetSW.HandleInterrupt | src/os/OSResetSW.c:8-21 | the switch is down, 2 is written to the cause register, 0x200 is masked, and an installed callback is uninstalled and fired once |
| OSResetSW.SetCallback | src/os/OSResetSW.c:23-39 | returns the previous callback; a callback acknowledges and unmasks 0x200, NULL masks it |
| OSResetSW.Poll | src/os/OSResetSW.c:41-69 | the state is 1 iff the switch is pressed, or was down, or is within the debounce time after release |
| OSResetSW.PressedReadsDown | src/os/OSResetSW.c:49-51 | a pressed switch is recorded down and reads 1 |
| OSResetSW.ReleaseStartsHold | src/os/OSResetSW.c:52-60 | a release after down reads 1; a pending interrupt is acknowledged, otherwise the hold time starts |
| OSResetSW.DebounceWindow | src/os/OSResetSW.c:57-66 | after a release at t0 the switch reads 1 for `debounce` ticks, then 0, and the hold time is cleared |
| OSResetSW.FiresAtMostOncePerInstall | src/os/OSResetSW.c:16-20 | over any events, the callbacks fired are at most the installs plus one initially installed |
| OSResetSW.NoFireWithoutInstall | src/os/OSResetSW.c:4-20 | from the zero-initialised statics, never more firings than installs |
| OSResetSW.ResetSwitch.constructor | src/os/OSResetSW.c:4-6 | the driver starts in the initial state |
| OSResetSW.ResetSwitch.InterruptHandler | src/os/OSResetSW.c:8-21 | the new state is HandleInterrupt of the old |
| OSResetSW.ResetSwitch.SetResetCallback | src/os/OSResetSW.c:23-39 | the new state and the returned callback are SetCallback's |
| OSResetSW.ResetSwitch.GetResetSwitchState | src/os/OSResetSW.c:41-69 | the new state and the result are Poll's |
| OSTime.TruncDiv | src/os/time.dolphin.c:9 | C's signed division truncates toward zero: the quotient times the divisor is within one divisor of the dividend, on the dividend's side of zero |
| OSTime.DivBounds | src/os/time.dolphin.c:9 | floor-division bounds for a non-negative dividend |
| OSTime.GetClock | src/os/time.dolphin.c:4-6 | `__get_clock` always returns -1 (no processor time) |
| OSTime.ToGmTime | src/os/time.dolphin.c:12-14 | `__to_gm_time` returns 0 |
| OSTime.GetTime | src/os/time.dolphin.c:8-10 | seconds since 2000 plus the seconds from 1900 to 2000, modulo 2^32 |
| OSTime.EpochShift | src/os/time.dolphin.c:9 | subtracting 0x43E83E00 modulo 2^32 adds the 3155673600 seconds from 1900-01-01 to 2000-01-01 |
| OSTime.GetTimeTicksBySecond | src/os/time.dolphin.c:9 | one second of time-base ticks advances the result by exactly one, wrapping at 2^32 |

## Left out

- Writing build.ninja and objdiff.json is not modelled: no ninja text, comments, variables or command strings, no JSON serialisation. The model keeps the edges (rule, outputs, inputs, implicit dependencies, the variables the core reads) and the units.
- The printed "Missing source file" lines are kept as a list of warnings. The fixed settings of objdiff.json (`min_version`, `watch_patterns` and the rest) are fields whose values are not modelled.
- Host facts are parameters:
  - `os.name`, `sys.platform` and `platform.machine()`;
  - which paths exist;
  - `platform.uname()` in the download tool;
  - the system time and `OSMillisecondsToTicks(50)` in the reset-switch driver;
  - the time base and the bus clock word in the time hooks.
- The download tool's network request, unzipping and file permissions are not modelled. Only the URL and whether it ends in ".zip" are.
- argparse is modelled as an `Args` value holding its defaults. `--map` is parsed into `Args.mapFile` but never read, so it has no effect. Windows hosts never have a `--wrapper` argument.
- `calculate_progress` is not modelled: it is a stub whose body is commented out. The same holds for the other commented-out code (the progress mode, DOL units, the "all_source" edge).
- Paths are relative and POSIX. Absolute paths, `..` and Windows backslash rendering are not modelled.
- `tools/project/config.py` reads `config.output_dir` and `config.archive_dir`, which its own `ProjectConfig` does not declare. It also uses `Object` and `Archive` without importing them. The model takes both directories as fields and uses the records of `tools/project/build.py`.
- NinjaGen.WellFormedObject / ProjectLib.ValidUnit: `with_suffix` raises ValueError on a path without a name. The generators' contracts require each object name to have a last component rather than model that exception.
- Configure.RevisionsStr requires a non-empty key list. The script indexes `REVISION_KEYS[0]`, which raises IndexError on an empty table, and the table is never empty.
- Objdiff.AddUnit: the source's `add_unit` reads the enclosing loop's `obj` and `lib` rather than its parameters. At the only call site these are the same values, so the model passes the object and library explicitly.
- Objdiff.TargetIsExtractedObject: the unit's target keeps the whole object name (`obj/<lib>/dir/x.o` for "dir/x.c"), while the extract edge writes `Path(name).name` (`obj/<lib>/x.o`). The two agree only for single-component names, as Objdiff.TargetIsExtractedObjectIff states. Every name that `configure.py` declares has one component.
- objdiff's base is `name.with_suffix(".o")`, while build.ninja compiles `name.with_suffix("").with_suffix(".o")`. The two differ for names with two suffixes: "a.b.c" is compared as "a.b.o" but compiled to "a.o". Objdiff.BaseIsCompiledObject states exactly when they agree. No name that `configure.py` declares has two suffixes.
- ProjectLib.Lib.constructor: the units are a sequence, so every profile sees all of them. The source takes any `Iterable[Unit]` and maps over it once per profile. A one-shot iterable such as a generator would give pairs to the first profile only, and every later profile an Archive with an empty manifest and no Objects or Diffs. ProjectLib.LibCounts assumes a re-iterable list in the same way.
- Strings.Lower: lower-cases ASCII letters only. Python's `str.lower()` also maps other Unicode capitals and can change the length ("İ" becomes two characters). The `platform.uname()` fields it is applied to are ASCII.
- OSResetSW: interrupt disabling and restoring are not modelled; each entry point is taken as atomic. The hardware register is a parameter, the writes to it are a log, and callbacks are identifiers whose invocations are logged.
- OSTime.GetTime requires a bus clock of at least 4, since the source divides by a quarter of it without a check.
- OSTime.GetTimeTicksBySecond is stated for a non-negative time base only, where C's truncating division and floor division agree.
