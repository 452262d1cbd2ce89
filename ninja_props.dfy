/**
 * What the synthesis of build.ninja promises about the edges it emits: each compile output gets
 * one edge (the `source_added` guard), every extracted object is disassembled and DWARF-dumped
 * exactly once and in order, and the per-object files follow the `<stem>.o|.s|.c` layout.
 */
module NinjaProps {
  import opened Wrappers
  import opened Paths
  import opened Project
  import opened Tooling
  import opened NinjaGen

  /** A compile edge: a build by `mwcc` or `mwcc_sjis`. */
  predicate IsCompile(st: Step)
  {
    st.BuildStep? && (st.rule == "mwcc" || st.rule == "mwcc_sjis")
  }

  /** The outputs of the compile edges among `steps`, in order. */
  function CompileOutputs(steps: seq<Step>): seq<Path>
    decreases |steps|
  {
    if |steps| == 0 then []
    else
      var last := steps[|steps| - 1];
      CompileOutputs(steps[..|steps| - 1]) + (if IsCompile(last) then last.outputs else [])
  }

  /** The inputs of the edges built by `rule`, in order. */
  function RuleInputs(steps: seq<Step>, rule: string): seq<Path>
    decreases |steps|
  {
    if |steps| == 0 then []
    else
      var last := steps[|steps| - 1];
      RuleInputs(steps[..|steps| - 1], rule) + (if last.BuildStep? && last.rule == rule then last.inputs else [])
  }

  predicate Distinct(xs: seq<Path>)
  {
    forall i, j :: 0 <= i < j < |xs| ==> xs[i] != xs[j]
  }

  /**
   * What `source_added` keeps true: the compile outputs are pairwise distinct and are exactly
   * `source_added`, and `source_inputs` lists some of them, each once.
   */
  ghost predicate Inv(s: GenState)
  {
    Distinct(CompileOutputs(s.steps))
    && (forall p :: p in s.sourceAdded <==> p in CompileOutputs(s.steps))
    && Distinct(s.sourceInputs)
    && (forall p :: p in s.sourceInputs ==> p in s.sourceAdded)
  }

  // ---------------------------------------------------------------------------------------
  // Appending edges

  lemma AppendAssoc(a: seq<Path>, b: seq<Path>, c: seq<Path>)
    ensures (a + b) + c == a + (b + c)
  {
  }

  lemma CompileOutputsAppend(steps: seq<Step>, st: Step)
    ensures CompileOutputs(steps + [st]) == CompileOutputs(steps) + (if IsCompile(st) then st.outputs else [])
  {
    assert (steps + [st])[..|steps|] == steps;
  }

  lemma RuleInputsAppend(steps: seq<Step>, st: Step, rule: string)
    ensures RuleInputs(steps + [st], rule)
         == RuleInputs(steps, rule) + (if st.BuildStep? && st.rule == rule then st.inputs else [])
  {
    assert (steps + [st])[..|steps|] == steps;
  }

  /** Edges that are not compile edges leave the compile outputs as they were. */
  lemma {:induction false} CompileOutputsOthers(steps: seq<Step>, more: seq<Step>)
    requires forall k :: 0 <= k < |more| ==> !IsCompile(more[k])
    ensures CompileOutputs(steps + more) == CompileOutputs(steps)
    decreases |more|
  {
    if |more| > 0 {
      var init := more[..|more| - 1];
      CompileOutputsOthers(steps, init);
      assert steps + more == (steps + init) + [more[|more| - 1]];
      CompileOutputsAppend(steps + init, more[|more| - 1]);
    } else {
      assert steps + more == steps;
    }
  }

  // ---------------------------------------------------------------------------------------
  // The uniqueness of compile outputs

  /** `Record` keeps the invariant for a compile edge with a single output. */
  lemma RecordKeepsInv(s: GenState, version: string, out: Path, step: Step, addToAll: bool)
    requires Inv(s) && IsCompile(step) && step.outputs == [out]
    ensures Inv(Record(s, version, out, step, addToAll))
  {
    CompileOutputsAppend(s.steps, step);
  }

  /** `add_unit` keeps the invariant. */
  lemma AddUnitKeepsInv(e: Env, s: GenState, lib: Library, obj: Object, profile: Profile)
    requires Valid(e.c) && WellFormedObject(obj) && Inv(s)
    ensures Inv(AddUnitSpec(e, s, lib, obj, profile))
  {
    var step := CompileStep(e, lib, obj, profile);
    RecordKeepsInv(s, UnitMwVersion(lib, obj), step.outputs[0], step, obj.options.addToAll);
  }

  /** The edges of one object keep the invariant. */
  lemma PerObjectKeepsInv(e: Env, s: GenState, lib: Library, profile: Profile, obj: Object)
    requires Valid(e.c) && WellFormedObject(obj) && Inv(s)
    ensures Inv(PerObject(e, s, lib, profile, obj))
  {
    var objFile := ObjFile(LibDir(e.c, profile, ObjDirName, lib), obj);
    var disasm := PassStep(Disasm, LibDir(e.c, profile, AsmDirName, lib), objFile);
    var dwarf := PassStep(DwarfDump, LibDir(e.c, profile, DwarfDirName, lib), objFile);
    PassNotCompile(Disasm, LibDir(e.c, profile, AsmDirName, lib), objFile);
    PassNotCompile(DwarfDump, LibDir(e.c, profile, DwarfDirName, lib), objFile);
    PassesKeepInv(s, disasm, dwarf);
    AddUnitKeepsInv(e, s.(steps := s.steps + [disasm] + [dwarf]), lib, obj, profile);
  }

  /** Neither pass is a compile edge. */
  lemma PassNotCompile(pass: Pass, dir: Path, objFile: Path)
    requires Name(objFile) != ""
    ensures !IsCompile(PassStep(pass, dir, objFile))
  {
    var rule := PassRule(pass);
    assert rule[0] != 'm';
  }

  /** Two edges that are not compile edges keep the invariant. */
  lemma PassesKeepInv(s: GenState, a: Step, b: Step)
    requires Inv(s) && !IsCompile(a) && !IsCompile(b)
    ensures Inv(s.(steps := s.steps + [a] + [b]))
  {
    CompileOutputsAppend(s.steps, a);
    CompileOutputsAppend(s.steps + [a], b);
  }

  lemma {:induction false} ObjectsKeepInv(e: Env, s: GenState, lib: Library, profile: Profile, objs: seq<Object>)
    requires Valid(e.c) && (forall k :: 0 <= k < |objs| ==> WellFormedObject(objs[k])) && Inv(s)
    ensures Inv(ObjectsSpec(e, s, lib, profile, objs))
    decreases |objs|
  {
    if |objs| > 0 {
      ObjectsKeepInv(e, s, lib, profile, objs[..|objs| - 1]);
      PerObjectKeepsInv(e, ObjectsSpec(e, s, lib, profile, objs[..|objs| - 1]), lib, profile, objs[|objs| - 1]);
    }
  }

  lemma ProfileKeepsInv(e: Env, s: GenState, lib: Library, profile: Profile)
    requires Valid(e.c) && lib.archive.Some? && WellFormedLib(lib) && Inv(s)
    ensures Inv(ProfileSpec(e, s, lib, profile))
  {
    CompileOutputsAppend(s.steps, ExtractStep(e, lib, profile));
    ObjectsKeepInv(e, s.(steps := s.steps + [ExtractStep(e, lib, profile)]), lib, profile, lib.objects);
  }

  lemma {:induction false} ProfilesKeepInv(e: Env, s: GenState, lib: Library, ps: seq<Profile>)
    requires Valid(e.c) && lib.archive.Some? && WellFormedLib(lib) && Inv(s)
    ensures Inv(ProfilesSpec(e, s, lib, ps))
    decreases |ps|
  {
    if |ps| > 0 {
      ProfilesKeepInv(e, s, lib, ps[..|ps| - 1]);
      ProfileKeepsInv(e, ProfilesSpec(e, s, lib, ps[..|ps| - 1]), lib, ps[|ps| - 1]);
    }
  }

  lemma {:induction false} LibsKeepInv(e: Env, s: GenState, libs: seq<Library>)
    requires Valid(e.c) && (forall k :: 0 <= k < |libs| ==> WellFormedLib(libs[k])) && Inv(s)
    ensures Inv(LibsSpec(e, s, libs))
    decreases |libs|
  {
    if |libs| > 0 {
      var init := libs[..|libs| - 1];
      LibsKeepInv(e, s, init);
      if libs[|libs| - 1].archive.Some? {
        ProfilesKeepInv(e, LibsSpec(e, s, init), libs[|libs| - 1], Profiles);
      }
    }
  }

  /** The tooling edges are downloads and cargo builds, never compile edges. */
  lemma ToolStepsNotCompile(c: ProjectConfig, h: Host)
    requires c.buildDir.Some? && c.toolsDir.Some? && ResolveTools(c, h).Success?
    ensures var ts := ResolveTools(c, h).value.1;
      forall k :: 0 <= k < |ts| ==> !IsCompile(ts[k])
  {
  }

  /** No compile edge precedes the archive loop. */
  lemma StartInv(c: ProjectConfig, h: Host)
    requires c.buildDir.Some? && c.toolsDir.Some? && ResolveTools(c, h).Success?
    ensures Inv(StartState(ResolveTools(c, h).value.1))
  {
    var ts := ResolveTools(c, h).value.1;
    ToolStepsNotCompile(c, h);
    var pre := PreambleSteps(ts);
    assert forall k :: 0 <= k < |pre| ==> !IsCompile(pre[k]);
    CompileOutputsOthers([], pre);
    assert [] + pre == pre;
  }

  /**
   * The written build.ninja has at most one compile edge per output path (the `source_added`
   * guard), even when several objects or profiles name the same output.
   */
  lemma CompileOutputsUnique(c: ProjectConfig, h: Host)
    requires WellFormedLibs(c)
    ensures var g := GenerateSpec(c, h);
      g.written.Some? ==> Distinct(CompileOutputs(g.written.value))
  {
    var g := GenerateSpec(c, h);
    if g.written.Some? {
      GenerateWritten(c, h);
      var (t, ts) := ResolveTools(c, h).value;
      RunInv(c, h);
      FinalKeepsDistinct(Run(Env(c, h, t), ts), h);
    }
  }

  /** The objdiff and configure edges after the archive loop are not compile edges. */
  lemma FinalKeepsDistinct(s: GenState, h: Host)
    requires Inv(s)
    ensures Distinct(CompileOutputs(s.steps + FinalSteps(h)))
  {
    var fin := FinalSteps(h);
    assert forall k :: 0 <= k < |fin| ==> !IsCompile(fin[k]);
    CompileOutputsOthers(s.steps, fin);
  }

  /** The archive loop of a run that got past validation and tool resolution keeps the invariant. */
  lemma RunInv(c: ProjectConfig, h: Host)
    requires Valid(c) && WellFormedLibs(c) && ResolveTools(c, h).Success?
    ensures Inv(Run(Env(c, h, ResolveTools(c, h).value.0), ResolveTools(c, h).value.1))
  {
    var (t, ts) := ResolveTools(c, h).value;
    StartInv(c, h);
    LibsKeepInv(Env(c, h, t), StartState(ts), c.libs.value);
  }

  // ---------------------------------------------------------------------------------------
  // The extracted objects and their passes

  /** `Path(obj.name).stem` of the name's last component. */
  function BaseStem(obj: Object): string
  {
    Stem(Name(FromStr(obj.name)))
  }

  /** The extracted object is `<target_dir>/<stem>.o`. */
  lemma ObjFileLayout(dir: Path, obj: Object)
    requires WellFormedObject(obj)
    ensures ObjFile(dir, obj) == Path(dir.parts + [BaseStem(obj) + ".o"])
    ensures Name(ObjFile(dir, obj)) == BaseStem(obj) + ".o"
  {
  }

  /**
   * A pass over `<dir0>/<stem>.o` writes `<dir>/<stem>.s` (disassembly) or `<dir>/<stem>.c`
   * (DWARF dump), reading that object only.
   */
  lemma PassLayout(pass: Pass, dir: Path, dir0: Path, obj: Object)
    requires WellFormedObject(obj)
    ensures var objFile := ObjFile(dir0, obj);
      PassStep(pass, dir, objFile)
        == BuildStep([Path(dir.parts + [BaseStem(obj) + PassSuffix(pass)])], PassRule(pass), [objFile], [], [])
  {
    var name := Name(FromStr(obj.name));
    NameIsAtom(obj.name);
    StemAndSuffix(name);
    var stem := BaseStem(obj);
    ObjFileLayout(dir0, obj);
    StemSuffixOf(stem, ".o");
    var out := stem + PassSuffix(pass);
    assert '/' !in out by {
      assert forall k :: 0 <= k < |stem| ==> out[k] == stem[k];
    }
    FromStrAtom(out);
  }

  /** `obj_files` has one `<target_dir>/<stem>.o` per object, in object order. */
  lemma ObjFilesLayout(dir: Path, objs: seq<Object>)
    requires forall k :: 0 <= k < |objs| ==> WellFormedObject(objs[k])
    ensures |ObjFiles(dir, objs)| == |objs|
    ensures forall k :: 0 <= k < |objs| ==> ObjFiles(dir, objs)[k] == Path(dir.parts + [BaseStem(objs[k]) + ".o"])
  {
    ObjFilesIndex(dir, objs);
    forall k | 0 <= k < |objs|
      ensures ObjFiles(dir, objs)[k] == Path(dir.parts + [BaseStem(objs[k]) + ".o"])
    {
      ObjFileLayout(dir, objs[k]);
    }
  }

  /** A disassembly edge then a DWARF-dump edge, both reading `[f]`: each pass reads `f` once. */
  lemma TwoPasses(steps: seq<Step>, d: Step, w: Step, pass: Pass, f: Path)
    requires d.BuildStep? && d.rule == PassRule(Disasm) && d.inputs == [f]
    requires w.BuildStep? && w.rule == PassRule(DwarfDump) && w.inputs == [f]
    ensures RuleInputs(steps + [d] + [w], PassRule(pass)) == RuleInputs(steps, PassRule(pass)) + [f]
  {
    var rule := PassRule(pass);
    RuleInputsAppend(steps, d, rule);
    RuleInputsAppend(steps + [d], w, rule);
    if pass == Disasm {
      assert RuleInputs(steps + [d], rule) == RuleInputs(steps, rule) + [f];
    } else {
      assert RuleInputs(steps + [d], rule) == RuleInputs(steps, rule);
    }
  }

  /** A compile edge is read by no pass. */
  lemma CompileNotPass(steps: seq<Step>, st: Step, pass: Pass)
    requires IsCompile(st)
    ensures RuleInputs(steps + [st], PassRule(pass)) == RuleInputs(steps, PassRule(pass))
  {
    RuleInputsAppend(steps, st, PassRule(pass));
    assert RuleInputs(steps, PassRule(pass)) + [] == RuleInputs(steps, PassRule(pass));
  }

  /** One object adds exactly one edge per pass, reading its extracted file; `add_unit` adds none. */
  lemma PerObjectPasses(e: Env, s: GenState, lib: Library, profile: Profile, obj: Object, pass: Pass)
    requires Valid(e.c) && WellFormedObject(obj)
    ensures RuleInputs(PerObject(e, s, lib, profile, obj).steps, PassRule(pass))
         == RuleInputs(s.steps, PassRule(pass)) + [ObjFile(LibDir(e.c, profile, ObjDirName, lib), obj)]
  {
    var objFile := ObjFile(LibDir(e.c, profile, ObjDirName, lib), obj);
    var d := PassStep(Disasm, LibDir(e.c, profile, AsmDirName, lib), objFile);
    var w := PassStep(DwarfDump, LibDir(e.c, profile, DwarfDirName, lib), objFile);
    var s1 := s.(steps := s.steps + [d] + [w]);
    var t := AddUnitSpec(e, s1, lib, obj, profile);
    assert PerObject(e, s, lib, profile, obj) == t;
    TwoPasses(s.steps, d, w, pass, objFile);
    if t.steps != s1.steps {
      var st := CompileStep(e, lib, obj, profile);
      assert t.steps == s1.steps + [st];
      CompileNotPass(s1.steps, st, pass);
    }
  }

  /**
   * Every extracted object, in object order, is the input of exactly one edge of each pass,
   * and the objects' other edges are not passes.
   */
  lemma {:induction false} ObjectsPasses(e: Env, s: GenState, lib: Library, profile: Profile, objs: seq<Object>, pass: Pass)
    requires Valid(e.c) && forall k :: 0 <= k < |objs| ==> WellFormedObject(objs[k])
    ensures RuleInputs(ObjectsSpec(e, s, lib, profile, objs).steps, PassRule(pass))
         == RuleInputs(s.steps, PassRule(pass)) + ObjFiles(LibDir(e.c, profile, ObjDirName, lib), objs)
    decreases |objs|
  {
    var dir := LibDir(e.c, profile, ObjDirName, lib);
    if |objs| == 0 {
      assert RuleInputs(s.steps, PassRule(pass)) + [] == RuleInputs(s.steps, PassRule(pass));
    } else {
      var init := objs[..|objs| - 1];
      var last := objs[|objs| - 1];
      var mid := ObjectsSpec(e, s, lib, profile, init);
      ObjectsPasses(e, s, lib, profile, init, pass);
      PerObjectPasses(e, mid, lib, profile, last, pass);
      var rule := PassRule(pass);
      calc {
        RuleInputs(ObjectsSpec(e, s, lib, profile, objs).steps, rule);
        RuleInputs(PerObject(e, mid, lib, profile, last).steps, rule);
        RuleInputs(mid.steps, rule) + [ObjFile(dir, last)];
        (RuleInputs(s.steps, rule) + ObjFiles(dir, init)) + [ObjFile(dir, last)];
        { AppendAssoc(RuleInputs(s.steps, rule), ObjFiles(dir, init), [ObjFile(dir, last)]); }
        RuleInputs(s.steps, rule) + (ObjFiles(dir, init) + [ObjFile(dir, last)]);
        RuleInputs(s.steps, rule) + ObjFiles(dir, objs);
      }
    }
  }

  /**
   * The extract edge of one library and profile unpacks the profile's archive into one
   * `<obj_dir>/<stem>.o` per object, in object order.
   */
  lemma ExtractLayout(e: Env, lib: Library, profile: Profile)
    requires Valid(e.c) && lib.archive.Some? && WellFormedLib(lib)
    ensures var x := ExtractStep(e, lib, profile);
      var dir := LibDir(e.c, profile, ObjDirName, lib);
      x.rule == "ar_extract" && x.inputs == [ProfileArchive(lib, profile)]
      && |x.outputs| == |lib.objects|
      && (forall k :: 0 <= k < |lib.objects| ==> x.outputs[k] == Path(dir.parts + [BaseStem(lib.objects[k]) + ".o"]))
  {
    ObjFilesLayout(LibDir(e.c, profile, ObjDirName, lib), lib.objects);
  }

  /**
   * Each file the extract edge of one library and profile produces is read by exactly one
   * disassembly edge and one DWARF-dump edge, in the extract edge's order.
   */
  lemma ProfilePasses(e: Env, s: GenState, lib: Library, profile: Profile, pass: Pass)
    requires Valid(e.c) && lib.archive.Some? && WellFormedLib(lib)
    ensures RuleInputs(ProfileSpec(e, s, lib, profile).steps, PassRule(pass))
         == RuleInputs(s.steps, PassRule(pass)) + ExtractStep(e, lib, profile).outputs
  {
    var x := ExtractStep(e, lib, profile);
    var rule := PassRule(pass);
    RuleInputsAppend(s.steps, x, rule);
    assert RuleInputs(s.steps + [x], rule) == RuleInputs(s.steps, rule);
    ObjectsPasses(e, s.(steps := s.steps + [x]), lib, profile, lib.objects, pass);
    assert x.outputs == ObjFiles(LibDir(e.c, profile, ObjDirName, lib), lib.objects);
  }
}
