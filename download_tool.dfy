/**
 * The download URLs of tools/download_tool.py: `gh_url`, the per-tool builders and the
 * `TOOLS` table. The host's `platform.uname()` is a parameter; fetching, unzipping and
 * writing the file are not part of this model.
 */
module DownloadTool {
  import opened Wrappers
  import opened Strings

  /** The two fields of `platform.uname()` that `gh_url` reads. */
  datatype Uname = Uname(system: string, machine: string)

  /** The release's system name: lower-cased, "darwin" published as "macos". */
  function GhSystem(u: Uname): (r: string)
    ensures Lower(u.system) == "darwin" ==> r == "macos"
    ensures Lower(u.system) != "darwin" ==> r == Lower(u.system)
  {
    var system := Lower(u.system);
    if system == "darwin" then "macos" else system
  }

  /** The executable suffix: ".exe" exactly for a Windows host. */
  function GhSuffix(u: Uname): (r: string)
    ensures r == ".exe" <==> Lower(u.system) == "windows"
    ensures r == "" <==> Lower(u.system) != "windows"
  {
    if Lower(u.system) == "darwin" then ""
    else if Lower(u.system) == "windows" then ".exe"
    else ""
  }

  /** The release's architecture name: lower-cased, "amd64" published as "x86_64", others unchanged. */
  function GhArch(u: Uname): (r: string)
    ensures Lower(u.machine) == "amd64" ==> r == "x86_64"
    ensures Lower(u.machine) != "amd64" ==> r == Lower(u.machine)
  {
    var arch := Lower(u.machine);
    if arch == "amd64" then "x86_64" else arch
  }

  /** A GitHub release asset: `https://github.com/<repo>/releases/download/<tag>/<asset>`. */
  function ReleaseAsset(repo: string, tag: string, asset: string): string
  {
    "https://github.com/" + repo + "/releases/download/" + tag + "/" + asset
  }

  /**
   * `gh_url(repo, bin, tag)`: the repository's release asset for the tag named
   * `<bin>-<system>-<arch><suffix>` after the host.
   */
  function GhUrl(repo: string, bin: string, tag: string, u: Uname): (r: string)
    ensures r == ReleaseAsset(repo, tag, bin + "-" + GhSystem(u) + "-" + GhArch(u) + GhSuffix(u))
  {
    "https://github.com/" + repo + "/releases/download/" + tag + "/" + bin + "-" + GhSystem(u) + GhTail(u)
  }

  /** The end of the asset name: `-<arch><suffix>`. */
  function GhTail(u: Uname): string
  {
    "-" + GhArch(u) + GhSuffix(u)
  }

  /** `dtk_url`: the host's decomp-toolkit build. */
  function DtkUrl(tag: string, u: Uname): (r: string)
    ensures r == ReleaseAsset("encounter/decomp-toolkit", tag, "dtk-" + GhSystem(u) + "-" + GhArch(u) + GhSuffix(u))
  {
    GhUrl("encounter/decomp-toolkit", "dtk", tag, u)
  }

  /** `objdiff_cli_url`: the host's objdiff-cli build. */
  function ObjdiffCliUrl(tag: string, u: Uname): (r: string)
    ensures r == ReleaseAsset("ribbanya/objdiff", tag, "objdiff-cli-" + GhSystem(u) + "-" + GhArch(u) + GhSuffix(u))
  {
    GhUrl("ribbanya/objdiff", "objdiff-cli", tag, u)
  }

  /** `sjiswrap_url`: always the Windows x86 build, which runs under the wrapper. */
  function SjiswrapUrl(tag: string): (r: string)
    ensures r == ReleaseAsset("encounter/sjiswrap", tag, "sjiswrap-windows-x86.exe")
    ensures EndsWith(r, ".exe")
  {
    var r := "https://github.com/" + "encounter/sjiswrap" + "/releases/download/" + tag + "/" + "sjiswrap-windows-x86.exe";
    assert r[|r| - 4..] == ".exe";
    r
  }

  /** `wibo_url`: the one Linux build of wibo. */
  function WiboUrl(tag: string): (r: string)
    ensures r == ReleaseAsset("decompals/wibo", tag, "wibo")
  {
    "https://github.com/" + "decompals/wibo" + "/releases/download/" + tag + "/" + "wibo"
  }

  /** `compilers_url`: a zip archive of all compiler versions. */
  function CompilersUrl(tag: string): (r: string)
    ensures EndsWith(r, ".zip")
  {
    var r := "https://files.decomp.dev/compilers_" + tag + ".zip";
    assert r[|r| - 4..] == ".zip";
    r
  }

  /** The tools that `TOOLS` knows. */
  datatype Tool = Dtk | Sjiswrap | Wibo | Compilers | ObjdiffCli

  /** `TOOLS`: tool name to URL builder. */
  const Tools: map<string, Tool> :=
    map["dtk" := Dtk, "sjiswrap" := Sjiswrap, "wibo" := Wibo, "compilers" := Compilers, "objdiff-cli" := ObjdiffCli]

  /** `TOOLS[tool]`: None stands for the KeyError of an unknown name. */
  function LookupTool(name: string): (r: Option<Tool>)
    ensures r.Some? <==> name in {"dtk", "sjiswrap", "wibo", "compilers", "objdiff-cli"}
    ensures r.Some? ==> r.value == Tools[name]
  {
    if name in Tools then Some(Tools[name]) else None
  }

  /** `TOOLS[tool](tag)`: the compilers come from files.decomp.dev as a zip, every other tool from a GitHub release. */
  function ToolUrl(t: Tool, tag: string, u: Uname): (r: string)
    ensures t == Compilers ==> StartsWith(r, "https://files.decomp.dev/compilers_") && EndsWith(r, ".zip")
    ensures t != Compilers ==> StartsWith(r, "https://github.com/")
  {
    match t
    case Dtk => ReleaseAssetOnGitHub("encounter/decomp-toolkit", tag, "dtk-" + GhSystem(u) + "-" + GhArch(u) + GhSuffix(u)); DtkUrl(tag, u)
    case Sjiswrap => ReleaseAssetOnGitHub("encounter/sjiswrap", tag, "sjiswrap-windows-x86.exe"); SjiswrapUrl(tag)
    case Wibo => ReleaseAssetOnGitHub("decompals/wibo", tag, "wibo"); WiboUrl(tag)
    case Compilers =>
      var prefix := "https://files.decomp.dev/compilers_";
      assert (prefix + tag + ".zip")[..|prefix|] == prefix;
      CompilersUrl(tag)
    case ObjdiffCli => ReleaseAssetOnGitHub("ribbanya/objdiff", tag, "objdiff-cli-" + GhSystem(u) + "-" + GhArch(u) + GhSuffix(u)); ObjdiffCliUrl(tag, u)
  }

  /** Every release asset lives under https://github.com/. */
  lemma ReleaseAssetOnGitHub(repo: string, tag: string, asset: string)
    ensures StartsWith(ReleaseAsset(repo, tag, asset), "https://github.com/")
  {
    var prefix := "https://github.com/";
    assert ReleaseAsset(repo, tag, asset) == prefix + (repo + "/releases/download/" + tag + "/" + asset);
  }

  /** The URL ends with `-<arch><suffix>`. */
  lemma GhUrlTail(repo: string, bin: string, tag: string, u: Uname)
    ensures EndsWith(GhUrl(repo, bin, tag, u), GhTail(u))
  {
    var prefix := "https://github.com/" + repo + "/releases/download/" + tag + "/" + bin + "-" + GhSystem(u);
    EndsWithConcat(prefix, GhTail(u));
  }

  lemma EndsWithConcat(p: string, s: string)
    ensures EndsWith(p + s, s)
  {
    assert (p + s)[|p|..] == s;
  }

  /** The host does not matter to `gh_url` beyond the case-insensitive system and machine names. */
  lemma GhUrlCaseInsensitive(repo: string, bin: string, tag: string, u: Uname)
    ensures GhUrl(repo, bin, tag, u) == GhUrl(repo, bin, tag, Uname(Lower(u.system), Lower(u.machine)))
  {
    LowerIdempotent(u.system);
    LowerIdempotent(u.machine);
  }

  /** The sjiswrap and wibo URLs are the same on every host. */
  lemma HostIndependentUrls(tag: string, u1: Uname, u2: Uname)
    ensures ToolUrl(Sjiswrap, tag, u1) == ToolUrl(Sjiswrap, tag, u2)
    ensures ToolUrl(Wibo, tag, u1) == ToolUrl(Wibo, tag, u2)
  {
  }

  /**
   * Which URLs name a zip archive, the case in which the downloader unpacks: always the compilers;
   * never sjiswrap or wibo; dtk and objdiff-cli only on a non-Windows host whose machine name,
   * lower-cased, itself ends in ".zip".
   */
  lemma ZipUrls(t: Tool, tag: string, u: Uname)
    ensures t == Compilers ==> EndsWith(ToolUrl(t, tag, u), ".zip")
    ensures t == Sjiswrap || t == Wibo ==> !EndsWith(ToolUrl(t, tag, u), ".zip")
    ensures t == Dtk || t == ObjdiffCli ==>
      (EndsWith(ToolUrl(t, tag, u), ".zip") <==> Lower(u.system) != "windows" && EndsWith(GhArch(u), ".zip"))
  {
    var url := ToolUrl(t, tag, u);
    match t
    case Compilers =>
    case Sjiswrap =>
      assert url[|url| - 4..] == ".exe";
    case Wibo =>
      assert url[|url| - 4..] == "wibo";
    case Dtk =>
      GhUrlTail("encounter/decomp-toolkit", "dtk", tag, u);
      GhZip(url, GhArch(u), GhSuffix(u), Lower(u.system) == "windows");
    case ObjdiffCli =>
      GhUrlTail("ribbanya/objdiff", "objdiff-cli", tag, u);
      GhZip(url, GhArch(u), GhSuffix(u), Lower(u.system) == "windows");
  }

  /** A URL ending in `-<arch><suffix>` ends in ".zip" iff there is no ".exe" suffix and the architecture ends in ".zip". */
  lemma GhZip(url: string, arch: string, suffix: string, windows: bool)
    requires EndsWith(url, "-" + arch + suffix)
    requires suffix == (if windows then ".exe" else "")
    ensures EndsWith(url, ".zip") <==> !windows && EndsWith(arch, ".zip")
  {
    var tail := "-" + arch + suffix;
    var n := |url|;
    assert url[n - |tail|..] == tail;
    if windows {
      assert url[n - 4..] == ".exe" by {
        assert url[n - 4..] == tail[|tail| - 4..];
      }
      assert url[n - 4] != '.' || url[n - 3] != 'z';
    } else {
      assert tail == "-" + arch;
      if |arch| >= 4 {
        assert url[n - 4..] == arch[|arch| - 4..] by {
          assert url[n - 4..] == tail[|tail| - 4..];
        }
      } else {
        // The '-' before the architecture falls inside the last four characters.
        var k := n - |tail|;
        assert url[k] == '-';
        assert n - 4 <= k;
      }
    }
  }
}
