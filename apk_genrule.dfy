/**
 * The build steps of an apk_genrule: a genrule whose command post-processes the apk
 * of an android_binary. The steps are values; running them is not modelled.
 */
module ApkGenrule {

  import opened Paths
  import PathOrder

  /** The directory under which generated files go (BuckConstant.GEN_DIR). */
  const GenDir: Path := "buck-out/gen"

  datatype Step =
    | Rm(path: Path)                          // RmStep: `rm -f path`
    | Mkdir(path: Path)                       // MkdirStep: ensure a directory exists
    | MakeClean(path: Path)                   // MakeCleanDirectoryStep: an empty directory
    | Symlink(source: Path, target: Path)     // MkdirAndSymlinkFileStep
    | Shell(shortName: string, env: map<string, string>, argv: seq<string>)  // ShellStep
  {
    /** The command line of the steps that are run as one. */
    function ShellCommand(): (argv: seq<string>)
      requires Rm? || Shell?
      ensures Rm? ==> argv == ["rm", "-f", path]
      ensures Shell? ==> argv == this.argv
    {
      if Rm? then ["rm", "-f", path] else argv
    }
  }

  /** What an apk_genrule is built from: its own target and its declared arguments. */
  datatype ApkGenrule = ApkGenrule(
    basePath: Path,           // base path of the rule's build target, e.g. "src/com/facebook"
    shortName: string,        // short name of the rule's build target, e.g. "sign_fb4a"
    srcs: seq<Path>,          // declared sources, in declared order
    cmd: string,              // the bash command
    out: string,              // the declared `out`; the output file does not depend on it
    apkPath: Path,            // the input apk: InstallableApk.getApkPath()
    absolutify: Path -> Path) // the rule's path absolutifier

  /** A build target's short name: non-empty and without '/'. */
  predicate IsShortName(n: string)
  {
    n != "" && '/' !in n
  }

  /** The rule lives below the project root, at a relative base path. */
  predicate IsNested(g: ApkGenrule)
  {
    g.basePath != "" && !IsAbsolute(g.basePath) && IsShortName(g.shortName)
  }

  /** The rule lives in the project root's build file. */
  predicate IsAtRoot(g: ApkGenrule)
  {
    g.basePath == "" && IsShortName(g.shortName)
  }

  /** The directory of the rule's generated files: <gen>/<base>. */
  function OutputDirectory(g: ApkGenrule): (r: Path)
    ensures g.basePath == "" ==> r == GenDir
    ensures g.basePath != "" && !IsAbsolute(g.basePath) ==> r == GenDir + "/" + g.basePath
  {
    Resolve(GenDir, g.basePath)
  }

  /** getPathToOutputFile: <gen>/<base>/<short name>.apk. */
  function PathToOutputFile(g: ApkGenrule): (r: Path)
    ensures IsAtRoot(g) ==> r == GenDir + "/" + g.shortName + ".apk"
    ensures IsNested(g) ==> r == GenDir + "/" + g.basePath + "/" + g.shortName + ".apk"
  {
    assert IsShortName(g.shortName) ==> (g.shortName + ".apk")[0] == g.shortName[0];
    Resolve(OutputDirectory(g), g.shortName + ".apk")
  }

  /** getAbsoluteOutputFilePath: the output file, made absolute by the rule's absolutifier. */
  function AbsoluteOutputFilePath(g: ApkGenrule): (r: Path)
    ensures IsAtRoot(g) ==> r == g.absolutify(GenDir + "/" + g.shortName + ".apk")
    ensures IsNested(g) ==>
      r == g.absolutify(GenDir + "/" + g.basePath + "/" + g.shortName + ".apk")
  {
    g.absolutify(PathToOutputFile(g))
  }

  /** The command's working directory: <gen>/<base>/<short name>__tmp. */
  function TmpDirectory(g: ApkGenrule): (r: Path)
    ensures IsAtRoot(g) ==> r == GenDir + "/" + g.shortName + "__tmp"
    ensures IsNested(g) ==> r == GenDir + "/" + g.basePath + "/" + g.shortName + "__tmp"
  {
    assert IsShortName(g.shortName) ==> (g.shortName + "__tmp")[0] == g.shortName[0];
    Resolve(OutputDirectory(g), g.shortName + "__tmp")
  }

  /** The directory the sources are staged in: <gen>/<base>/<short name>__srcs. */
  function SrcDirectory(g: ApkGenrule): (r: Path)
    ensures IsAtRoot(g) ==> r == GenDir + "/" + g.shortName + "__srcs"
    ensures IsNested(g) ==> r == GenDir + "/" + g.basePath + "/" + g.shortName + "__srcs"
    ensures r != ""
  {
    assert IsShortName(g.shortName) ==> (g.shortName + "__srcs")[0] == g.shortName[0];
    Resolve(OutputDirectory(g), g.shortName + "__srcs")
  }

  /** getInputsToCompareToOutput: the sources as a sorted set. */
  function InputsToCompareToOutput(g: ApkGenrule): (r: seq<Path>)
    ensures PathOrder.StrictlySorted(r)
    ensures PathOrder.Elems(r) == PathOrder.Elems(g.srcs)
  {
    PathOrder.ToSortedSet(g.srcs)
  }

  /** getEnvironmentVariables of the genrule's shell step. */
  function EnvironmentVariables(g: ApkGenrule): (env: map<string, string>)
    ensures env.Keys == {"APK", "OUT"}
    ensures env["APK"] == g.absolutify(g.apkPath)
    ensures env["OUT"] == AbsoluteOutputFilePath(g)
  {
    map["APK" := g.absolutify(g.apkPath), "OUT" := AbsoluteOutputFilePath(g)]
  }

  /** getShellCommand of the genrule's shell step on Linux. */
  function BashCommand(g: ApkGenrule): (argv: seq<string>)
    ensures |argv| == 4 && argv[..3] == ["/bin/bash", "-e", "-c"]
    ensures argv[3] == g.cmd
  {
    ["/bin/bash", "-e", "-c", g.cmd]
  }

  /**
   * The staging symlink of one source: from the source itself to the staging
   * directory, at the source's position relative to the base path.
   */
  function SymlinkStep(g: ApkGenrule, src: Path): (r: Step)
    ensures r.Symlink? && r.source == src
    ensures IsUnder(g.basePath, src) && src[|g.basePath| + 1] != '/' ==>
      r.target == SrcDirectory(g) + "/" + src[|g.basePath| + 1..]
  {
    Symlink(src, Resolve(SrcDirectory(g), LocalPath(g.basePath, src)))
  }

  /** One symlink per source, in declared order. */
  function SymlinkSteps(g: ApkGenrule): (steps: seq<Step>)
    ensures |steps| == |g.srcs|
    ensures forall i :: 0 <= i < |g.srcs| ==> steps[i] == SymlinkStep(g, g.srcs[i])
  {
    seq(|g.srcs|, i requires 0 <= i < |g.srcs| => SymlinkStep(g, g.srcs[i]))
  }

  /** getBuildSteps */
  function BuildSteps(g: ApkGenrule): (steps: seq<Step>)
    ensures |steps| == 4 + |g.srcs| + 1
  {
    [ Rm(PathToOutputFile(g)),
      Mkdir(OutputDirectory(g)),
      MakeClean(TmpDirectory(g)),
      MakeClean(SrcDirectory(g)) ]
    + SymlinkSteps(g)
    + [ Shell("genrule", EnvironmentVariables(g), BashCommand(g)) ]
  }

  /**
   * The shape of the plan: four fixed steps that clear the output and prepare the
   * two working directories, a symlink per source in declared order, and the command.
   */
  lemma BuildStepsShape(g: ApkGenrule)
    ensures var steps := BuildSteps(g);
      && steps[0] == Rm(PathToOutputFile(g))
      && steps[1] == Mkdir(OutputDirectory(g))
      && steps[2] == MakeClean(TmpDirectory(g))
      && steps[3] == MakeClean(SrcDirectory(g))
      && (forall i :: 0 <= i < |g.srcs| ==> steps[4 + i] == SymlinkStep(g, g.srcs[i]))
      && steps[|steps| - 1] == Shell("genrule", EnvironmentVariables(g), BashCommand(g))
  {
    var steps := BuildSteps(g);
    forall i | 0 <= i < |g.srcs| ensures steps[4 + i] == SymlinkStep(g, g.srcs[i]) {
      assert steps[4 + i] == SymlinkSteps(g)[i];
    }
  }

  /**
   * The two steps that are run as command lines: the first removes the output file with
   * `rm -f`, the last runs the rule's command under `/bin/bash -e -c`.
   */
  lemma PlanCommands(g: ApkGenrule)
    ensures BuildSteps(g)[0].ShellCommand() == ["rm", "-f", PathToOutputFile(g)]
    ensures BuildSteps(g)[|BuildSteps(g)| - 1].ShellCommand() == ["/bin/bash", "-e", "-c", g.cmd]
  {
    BuildStepsShape(g);
  }

  /** Each kind of step sits only at its own places: one removal, one mkdir, two cleans, the links, one command. */
  lemma BuildStepsKinds(g: ApkGenrule)
    ensures var steps := BuildSteps(g);
      forall i :: 0 <= i < |steps| ==>
        (steps[i].Rm? <==> i == 0) && (steps[i].Mkdir? <==> i == 1) &&
        (steps[i].MakeClean? <==> i == 2 || i == 3) &&
        (steps[i].Symlink? <==> 4 <= i < 4 + |g.srcs|) &&
        (steps[i].Shell? <==> i == |steps| - 1)
  {
    var steps := BuildSteps(g);
    BuildStepsShape(g);
    forall i | 4 <= i < 4 + |g.srcs| ensures steps[i].Symlink? {
      assert steps[4 + (i - 4)] == SymlinkStep(g, g.srcs[i - 4]);
    }
  }

  /** The removed file is the output file, and the created directory is its parent. */
  lemma OutputFileInOutputDirectory(g: ApkGenrule)
    requires IsShortName(g.shortName)
    ensures IsUnder(OutputDirectory(g), PathToOutputFile(g))
    ensures LocalPath(OutputDirectory(g), PathToOutputFile(g)) == g.shortName + ".apk"
  {
    assert (g.shortName + ".apk")[0] == g.shortName[0];
    LocalPathOfResolve(OutputDirectory(g), g.shortName + ".apk");
  }

  /**
   * The output file, the working directory and the staging directory are three
   * different entries of the output directory, so cleaning one spares the others.
   */
  lemma SandboxPathsDistinct(g: ApkGenrule)
    requires IsShortName(g.shortName)
    ensures PathToOutputFile(g) != TmpDirectory(g)
    ensures PathToOutputFile(g) != SrcDirectory(g)
    ensures TmpDirectory(g) != SrcDirectory(g)
  {
    var n := g.shortName;
    var d := OutputDirectory(g);
    assert (n + ".apk")[|n|] == '.' && (n + "__tmp")[|n|] == '_';
    assert (n + "__srcs")[|n|] == '_';
    assert (n + ".apk")[0] == (n + "__tmp")[0] == (n + "__srcs")[0] == n[0];
    assert (n + "__tmp")[|n| + 2] == 't' && (n + "__srcs")[|n| + 2] == 's';
    ResolveInjective(d, n + ".apk", n + "__tmp");
    ResolveInjective(d, n + ".apk", n + "__srcs");
    ResolveInjective(d, n + "__tmp", n + "__srcs");
  }

  /**
   * A source below the rule's base path is staged at the same relative position below
   * the staging directory: relativising the link's target against the staging
   * directory and resolving the result against the base path gives the source back.
   */
  lemma SymlinkPreservesRelativePath(g: ApkGenrule, src: Path)
    requires IsUnder(g.basePath, src) && src[|g.basePath| + 1] != '/'
    requires IsShortName(g.shortName)
    ensures var step := SymlinkStep(g, src);
      && step.source == src
      && IsUnder(SrcDirectory(g), step.target)
      && Resolve(g.basePath, LocalPath(SrcDirectory(g), step.target)) == src
  {
    var rel := LocalPath(g.basePath, src);
    assert rel == src[|g.basePath| + 1..];
    LocalPathOfResolve(SrcDirectory(g), rel);
    ResolveLocalPath(g.basePath, src);
  }

  /**
   * For a rule at the project root a source's path relative to the base path is the
   * source itself, so it is staged at that path below the staging directory.
   */
  lemma SymlinkAtRoot(g: ApkGenrule, src: Path)
    requires IsAtRoot(g) && src != "" && !IsAbsolute(src)
    ensures SymlinkStep(g, src) == Symlink(src, SrcDirectory(g) + "/" + src)
    ensures Resolve(g.basePath, LocalPath(SrcDirectory(g), SymlinkStep(g, src).target)) == src
  {
    LocalPathOfResolve(SrcDirectory(g), src);
  }

  /** The set of inputs does not depend on the order in which the sources are declared. */
  lemma InputsIgnoreDeclaredOrder(g: ApkGenrule, h: ApkGenrule)
    requires PathOrder.Elems(g.srcs) == PathOrder.Elems(h.srcs)
    ensures InputsToCompareToOutput(g) == InputsToCompareToOutput(h)
  {
    PathOrder.ToSortedSetOrderIndependent(g.srcs, h.srcs);
  }

  /** The path absolutifier the rule is given in the signing scenario. */
  function ScenarioAbsolutify(p: Path): (r: Path)
    ensures p != "" && !IsAbsolute(p) ==> r == "/opt/local/fbandroid/" + p
  {
    Resolve("/opt/local/fbandroid", p)
  }

  /** A rule //src/com/facebook:sign_fb4a signing the apk of //:fb4a with two sources. */
  function SigningRule(): ApkGenrule
  {
    ApkGenrule(
      "src/com/facebook",
      "sign_fb4a",
      ["src/com/facebook/signer.py", "src/com/facebook/key.properties"],
      "python signer.py $APK key.properties > $OUT",
      "signed_fb4a.apk",
      "buck-out/gen/fb4a.apk",
      ScenarioAbsolutify)
  }

  /**
   * The signing scenario's output, written as the scenario derives it from the
   * generated-files directory: it is named after the target, not after `out`.
   */
  lemma SigningRuleOutput()
    ensures OutputDirectory(SigningRule()) == GenDir + "/src/com/facebook"
    ensures PathToOutputFile(SigningRule()) == GenDir + "/src/com/facebook/sign_fb4a.apk"
  {
    NestedOutput(SigningRule(), "/src/com/facebook", "/src/com/facebook/sign_fb4a.apk");
  }

  /** A nested rule's output directory and file, with the part after the generated-files directory named. */
  lemma NestedOutput(g: ApkGenrule, dir: Path, file: Path)
    requires IsNested(g) && dir == "/" + g.basePath && file == dir + "/" + g.shortName + ".apk"
    ensures OutputDirectory(g) == GenDir + dir
    ensures PathToOutputFile(g) == GenDir + file
  {
  }

  lemma SigningRuleAbsoluteOutput()
    ensures AbsoluteOutputFilePath(SigningRule())
      == "/opt/local/fbandroid/" + GenDir + "/src/com/facebook/sign_fb4a.apk"
  {
    SigningRuleOutput();
    var out := PathToOutputFile(SigningRule());
    assert out[0] == 'b';
    assert ScenarioAbsolutify(out) == "/opt/local/fbandroid" + "/" + out;
  }

  /** The signing scenario's working and staging directories. */
  lemma SigningRuleDirectories()
    ensures TmpDirectory(SigningRule()) == Resolve(GenDir, "src/com/facebook/sign_fb4a__tmp")
    ensures SrcDirectory(SigningRule()) == Resolve(GenDir, "src/com/facebook/sign_fb4a__srcs")
  {
    NestedDirectories(SigningRule(), "src/com/facebook/sign_fb4a__tmp", "src/com/facebook/sign_fb4a__srcs");
  }

  /** The working and staging directories of a nested rule, as the generated-files directory resolves them. */
  lemma NestedDirectories(g: ApkGenrule, tmp: Path, srcs: Path)
    requires IsNested(g)
    requires tmp == g.basePath + "/" + g.shortName + "__tmp"
    requires srcs == g.basePath + "/" + g.shortName + "__srcs"
    ensures TmpDirectory(g) == Resolve(GenDir, tmp)
    ensures SrcDirectory(g) == Resolve(GenDir, srcs)
  {
    assert tmp[0] == srcs[0] == g.basePath[0];
  }

  lemma SigningRuleSources()
    ensures SigningRule().srcs
      == ["src/com/facebook/" + "signer.py", "src/com/facebook/" + "key.properties"]
    ensures SigningRule().srcs
      == [SigningRule().basePath + "/" + "signer.py", SigningRule().basePath + "/" + "key.properties"]
  {
    SourceBelowBase("src/com/facebook/signer.py", "signer.py");
    SourceBelowBase("src/com/facebook/key.properties", "key.properties");
  }

  lemma SourceBelowBase(src: Path, file: Path)
    requires src == "src/com/facebook/" + file
    ensures src == "src/com/facebook" + "/" + file
  {
  }

  /** The signing scenario's inputs are sorted: key.properties before signer.py. */
  lemma SigningRuleInputs()
    ensures InputsToCompareToOutput(SigningRule())
      == ["src/com/facebook/key.properties", "src/com/facebook/signer.py"]
  {
    SigningRuleSources();
    SortedSetOfTwo("src/com/facebook/", "signer.py", "key.properties");
  }

  lemma SortedSetOfTwo(dir: Path, a: Path, b: Path)
    requires a != [] && b != [] && b[0] < a[0]
    ensures PathOrder.ToSortedSet([dir + a, dir + b]) == [dir + b, dir + a]
  {
    PathOrder.LessCommonPrefix(dir, b, a);
    var sorted := [dir + b, dir + a];
    assert PathOrder.StrictlySorted(sorted);
    assert PathOrder.Elems([dir + a, dir + b]) == PathOrder.Elems(sorted);
    PathOrder.SortedUnique(PathOrder.ToSortedSet([dir + a, dir + b]), sorted);
  }

  /** The link of a file directly below the base path is the same file below the staging directory. */
  lemma SymlinkOfFileInBasePath(g: ApkGenrule, file: Path)
    requires g.basePath != "" && file != "" && !IsAbsolute(file) && SrcDirectory(g) != ""
    ensures SymlinkStep(g, g.basePath + "/" + file)
      == Symlink(g.basePath + "/" + file, SrcDirectory(g) + "/" + file)
  {
    LocalPathOfResolve(g.basePath, file);
  }

  /** The signing scenario's symlinks: declared order, each below the staging directory. */
  lemma SigningRuleSymlinks()
    ensures SymlinkSteps(SigningRule()) == [
      Symlink("src/com/facebook/signer.py", SrcDirectory(SigningRule()) + "/signer.py"),
      Symlink("src/com/facebook/key.properties", SrcDirectory(SigningRule()) + "/key.properties")]
  {
    SigningRuleSources();
    SymlinksOfTwoSources(SigningRule(), "signer.py", "key.properties", "/signer.py", "/key.properties");
  }

  /** The links of a rule with two sources directly below its base path. */
  lemma SymlinksOfTwoSources(g: ApkGenrule, a: Path, b: Path, slashA: Path, slashB: Path)
    requires g.basePath != "" && IsShortName(g.shortName)
    requires a != "" && !IsAbsolute(a) && b != "" && !IsAbsolute(b)
    requires slashA == "/" + a && slashB == "/" + b
    requires g.srcs == [g.basePath + "/" + a, g.basePath + "/" + b]
    ensures SymlinkSteps(g) == [
      Symlink(g.srcs[0], SrcDirectory(g) + slashA),
      Symlink(g.srcs[1], SrcDirectory(g) + slashB)]
  {
    LinkOfSource(g, 0, a, slashA);
    LinkOfSource(g, 1, b, slashB);
    var steps := SymlinkSteps(g);
    assert steps == [steps[0], steps[1]];
  }

  lemma LinkOfSource(g: ApkGenrule, i: nat, file: Path, slashFile: Path)
    requires i < |g.srcs| && g.srcs[i] == g.basePath + "/" + file && slashFile == "/" + file
    requires g.basePath != "" && file != "" && !IsAbsolute(file) && IsShortName(g.shortName)
    ensures SymlinkSteps(g)[i] == Symlink(g.srcs[i], SrcDirectory(g) + slashFile)
  {
    SymlinkOfFileInBasePath(g, file);
    JoinSlash(SrcDirectory(g), file, slashFile);
  }

  lemma JoinSlash(dir: Path, file: Path, slashFile: Path)
    requires slashFile == "/" + file
    ensures dir + "/" + file == dir + slashFile
  {
  }

  /**
   * The signing scenario's plan: seven steps, the links in declared order (signer.py
   * first), and the command run under bash with exactly APK and OUT set.
   */
  lemma SigningRulePlan()
    ensures var g := SigningRule();
      BuildSteps(g) == [
        Rm(GenDir + "/src/com/facebook/sign_fb4a.apk"),
        Mkdir(GenDir + "/src/com/facebook"),
        MakeClean(Resolve(GenDir, "src/com/facebook/sign_fb4a__tmp")),
        MakeClean(SrcDirectory(g)),
        Symlink("src/com/facebook/signer.py", SrcDirectory(g) + "/signer.py"),
        Symlink("src/com/facebook/key.properties", SrcDirectory(g) + "/key.properties"),
        Shell("genrule",
              map["APK" := ScenarioAbsolutify(Resolve(GenDir, "fb4a.apk")),
                  "OUT" := "/opt/local/fbandroid/" + GenDir + "/src/com/facebook/sign_fb4a.apk"],
              ["/bin/bash", "-e", "-c", "python signer.py $APK key.properties > $OUT"])]
    ensures SrcDirectory(SigningRule()) == Resolve(GenDir, "src/com/facebook/sign_fb4a__srcs")
    ensures BuildSteps(SigningRule())[0].ShellCommand()
      == ["rm", "-f", GenDir + "/src/com/facebook/sign_fb4a.apk"]
  {
    var g := SigningRule();
    SigningRuleOutput();
    SigningRuleAbsoluteOutput();
    SigningRuleDirectories();
    SigningRuleSymlinks();
    assert Resolve(GenDir, "fb4a.apk") == GenDir + "/" + "fb4a.apk" == g.apkPath;
  }
}
