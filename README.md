# Android resource dependencies and the apk_genrule build plan

This project is a Dafny model of two small pieces of a build tool's Android build path:

- **`AndroidResourceDepsFinder`** (module `AndroidResourceDeps`). An android_binary creates one of these to find, in order, the android resources it depends on. The finder is built from three things: the android dependency graph, a set of java libraries to exclude from dex, and the rule kind's own resource traversal (`findMyAndroidResourceDeps`). It asks the graph for the transitive dependencies once, in its constructor. It runs the resource traversal lazily, on the first query, and caches the list in a memo cell. Every later query gets the cached list. The graph's resource-details query and dex-dependencies query both receive exactly that list; the dex query also gets the exclusion set from construction. The model is a class. The graph, the exclusion set and the traversal are `const` fields. `cache: Option<seq<HasAndroidResourceDeps>>` is the memo cell. The traversal is a small class `ResourceTraversal`. Each call of its `Run` method appends the list it returned to the ghost sequence `results`, so the number of runs is counted where they happen.
- **The apk_genrule build plan** (module `ApkGenrule`). An apk_genrule runs a bash command over an android_binary's apk. The model is a pure function `BuildSteps` over the rule's target and arguments. It returns a `seq<Step>` with this shape:
  - remove the output file;
  - make its directory;
  - clean `<gen>/<base>/<name>__tmp`;
  - clean `<gen>/<base>/<name>__srcs`;
  - one symlink per source, in declared order;
  - one `genrule` shell step, with `APK` and `OUT` in its environment and `/bin/bash -e -c <cmd>` as its argv.

  The model also covers the absolute output path, which is named after the target and not after `out`, and the sorted set of inputs. The lemmas state each of these laws for every rule. The signing scenario of `testCreateAndRunApkGenrule` is reproduced as concrete lemmas.

Supporting modules:
- `Paths` models `Path.resolve` on normalised path strings, and a path relative to a base directory. Each is proved the inverse of the other.
- `PathOrder` models the natural order of paths and the sorted set of a list of paths, as `ImmutableSortedSet` holds it. It proves the order is a strict total order. It also proves that a strictly sorted list is determined by its elements.

Two details of the plan follow what `ApkGenruleTest` asserts:
- The symlinks follow the declared order of `srcs`, not lexicographic order: `signer.py` is linked before `key.properties` (test lines 238-244).
- The shell step's environment is exactly `APK` and `OUT` (test lines 250-255). The inherited environment is not part of it.

The source of `ApkGenrule` itself is not part of this model. Its behaviour is taken from what `ApkGenruleTest` asserts. `GEN_DIR` is taken as `buck-out/gen`, which agrees with the test's own apk path `buck-out/gen/fb4a.apk` at lines 145 and 253.

## Model

| member | source | states |
|---|---|---|
| AndroidResourceDeps.ResourceTraversal.Run | src/com/facebook/buck/android/AndroidResourceDepsFinder.java:81-86 | the rule kind's traversal: returns a list without assets-only rules (lines 61-64), and records the run and its result |
| AndroidResourceDeps.AndroidResourceDepsFinder.constructor | src/com/facebook/buck/android/AndroidResourceDepsFinder.java:42-55 | keeps the graph, the exclusion set and the traversal unchanged, computes the transitive dependencies from the graph at once, leaves the memo cell empty; the traversal has not run |
| AndroidResourceDeps.AndroidResourceDepsFinder.GetAndroidTransitiveDependencies | src/com/facebook/buck/android/AndroidResourceDepsFinder.java:57-59 | always returns the graph's findDependencies() result, the value fixed at construction (line 46) |
| AndroidResourceDeps.AndroidResourceDepsFinder.GetAndroidResources | src/com/facebook/buck/android/AndroidResourceDepsFinder.java:61-67 | returns exactly the list the traversal's only run produced, which has no assets-only rule; the first call runs the traversal once, a later call does not run it and returns the cached list |
| AndroidResourceDeps.AndroidResourceDepsFinder.GetAndroidResourceDetails | src/com/facebook/buck/android/AndroidResourceDepsFinder.java:69-71 | is the graph's findAndroidResourceDetails of exactly the memoised resource list, the result of the traversal's only run; once the list is cached, it does not run the traversal again |
| AndroidResourceDeps.AndroidResourceDepsFinder.GetAndroidDexTransitiveDependencies | src/com/facebook/buck/android/AndroidResourceDepsFinder.java:73-79 | is the graph's findDexDependencies of the memoised list, the exclusion set from construction, unchanged, and the given uber R.java; the traversal runs at most once |
| AndroidResourceDeps.QueryFinder | src/com/facebook/buck/android/AndroidResourceDepsFinder.java:36-79 | a fresh finder queried for its transitive dependencies, resources, details, dex dependencies and resources again: the dependencies are the graph's; the traversal runs exactly once; both resource queries return the same list, and the details and dex queries use that list with the original graph and exclusion set |
| ApkGenrule.BuildSteps | test/com/facebook/buck/android/ApkGenruleTest.java:196-198 | a rule with N sources has 4 + N + 1 steps |
| ApkGenrule.BuildStepsShape | test/com/facebook/buck/android/ApkGenruleTest.java:200-258 | the steps are, in order: Rm of the output file; Mkdir of the output directory; MakeClean of the tmp directory; MakeClean of the srcs directory; a symlink per source in declared order; the `genrule` shell step with the rule's environment and bash argv |
| ApkGenrule.BuildStepsKinds | test/com/facebook/buck/android/ApkGenruleTest.java:200-248 | step i is an Rm iff i = 0, a Mkdir iff i = 1, a MakeClean iff i is 2 or 3, a symlink iff 4 <= i < 4 + N, and a shell step iff it is the last |
| ApkGenrule.OutputFileInOutputDirectory | test/com/facebook/buck/android/ApkGenruleTest.java:204-218 | the directory the Mkdir step creates is the parent of the file the Rm step removes; the file is `<short name>.apk` in it |
| ApkGenrule.SandboxPathsDistinct | test/com/facebook/buck/android/ApkGenruleTest.java:220-236 | the output file, the `__tmp` directory and the `__srcs` directory are pairwise different paths |
| ApkGenrule.SymlinkSteps | test/com/facebook/buck/android/ApkGenruleTest.java:238-244 | one symlink per source; link i is the link of source i, so the declared order is kept |
| ApkGenrule.SymlinkPreservesRelativePath | test/com/facebook/buck/android/ApkGenruleTest.java:238-244 | for a rule below the project root: a link's source is the original relative path; its target lies below the srcs directory at the source's position relative to the base path (relativising it and resolving it against the base gives the source back) |
| ApkGenrule.SymlinkAtRoot | test/com/facebook/buck/android/ApkGenruleTest.java:238-244 | for a rule at the project root, where the path relative to the base is the source itself: the link goes from the source to the srcs directory + `/` + the source, and relativising the target against the srcs directory gives the source back |
| ApkGenrule.InputsToCompareToOutput | test/com/facebook/buck/android/ApkGenruleTest.java:190-194 | the inputs are strictly sorted and hold exactly the declared sources |
| ApkGenrule.InputsIgnoreDeclaredOrder | test/com/facebook/buck/android/ApkGenruleTest.java:190-194 | two rules whose sources are the same set have the same inputs, whatever the declared order |
| ApkGenrule.EnvironmentVariables | test/com/facebook/buck/android/ApkGenruleTest.java:250-255 | the environment has exactly the keys APK and OUT; APK is the absolutified apk path and OUT the absolute output path |
| ApkGenrule.BashCommand | test/com/facebook/buck/android/ApkGenruleTest.java:256-258 | the argv is `/bin/bash -e -c` followed by the command, verbatim |
| ApkGenrule.PlanCommands | test/com/facebook/buck/android/ApkGenruleTest.java:204-258 | the first step's command line is `rm -f` of the output file (lines 204-210); the last step's is `/bin/bash -e -c` followed by the rule's command (lines 256-258) |
| ApkGenrule.OutputDirectory | test/com/facebook/buck/android/ApkGenruleTest.java:212-218 | the output directory is `<gen>` for a rule at the project root and `<gen>/<base>` for a rule below it |
| ApkGenrule.PathToOutputFile | test/com/facebook/buck/android/ApkGenruleTest.java:204-210 | the output file is `<gen>/<name>.apk` at the root and `<gen>/<base>/<name>.apk` below it: named after the target, not after `out` |
| ApkGenrule.AbsoluteOutputFilePath | test/com/facebook/buck/android/ApkGenruleTest.java:178-181 | the absolute output path is the rule's absolutifier applied to `<gen>/<name>.apk` or `<gen>/<base>/<name>.apk` |
| ApkGenrule.TmpDirectory | test/com/facebook/buck/android/ApkGenruleTest.java:220-227 | the working directory is `<gen>/<name>__tmp` at the root and `<gen>/<base>/<name>__tmp` below it |
| ApkGenrule.SrcDirectory | test/com/facebook/buck/android/ApkGenruleTest.java:229-236 | the staging directory is `<gen>/<name>__srcs` at the root and `<gen>/<base>/<name>__srcs` below it; it is never the empty path |
| ApkGenrule.SymlinkStep | test/com/facebook/buck/android/ApkGenruleTest.java:238-244 | a source's link goes from the source itself; for a source below a non-empty base path, to the staging directory + `/` + the source's path relative to the base path (the root case is `SymlinkAtRoot`) |
| ApkGenrule.NestedOutput | test/com/facebook/buck/android/ApkGenruleTest.java:212-218 | for a nested rule, the output directory is GEN_DIR + `/<base>` and the output file GEN_DIR + `/<base>/<name>.apk` |
| ApkGenrule.NestedDirectories | test/com/facebook/buck/android/ApkGenruleTest.java:223-232 | for a nested rule, the working and staging directories are `GEN_PATH` resolved with `<base>/<name>__tmp` and `<base>/<name>__srcs` |
| ApkGenrule.SigningRuleOutput | test/com/facebook/buck/android/ApkGenruleTest.java:212-218 | for //src/com/facebook:sign_fb4a: the output directory is `GEN_DIR/src/com/facebook`, and the output file is `GEN_DIR/src/com/facebook/sign_fb4a.apk`, not `signed_fb4a.apk` |
| ApkGenrule.ScenarioAbsolutify | test/com/facebook/buck/android/ApkGenruleTest.java:79-85 | the test's absolutifier: a relative path becomes `/opt/local/fbandroid/` followed by that path |
| ApkGenrule.SigningRuleAbsoluteOutput | test/com/facebook/buck/android/ApkGenruleTest.java:178-181 | the absolute output path is `/opt/local/fbandroid/` + GEN_DIR + `/src/com/facebook/sign_fb4a.apk` |
| ApkGenrule.SigningRuleDirectories | test/com/facebook/buck/android/ApkGenruleTest.java:220-236 | the tmp and srcs directories are GEN_PATH resolved with `src/com/facebook/sign_fb4a__tmp` and `src/com/facebook/sign_fb4a__srcs` |
| ApkGenrule.SigningRuleInputs | test/com/facebook/buck/android/ApkGenruleTest.java:190-194 | the inputs are `key.properties` then `signer.py`, although `signer.py` is declared first |
| ApkGenrule.SigningRuleSymlinks | test/com/facebook/buck/android/ApkGenruleTest.java:238-244 | the links are `signer.py` then `key.properties`, each from its original path to the srcs directory + `/<file>` |
| ApkGenrule.SigningRulePlan | test/com/facebook/buck/android/ApkGenruleTest.java:196-258 | the whole seven-step plan of the scenario, the `genrule` step's environment of exactly APK and OUT, and its bash argv |
| Paths.Resolve | test/com/facebook/buck/android/ApkGenruleTest.java:223-232 | resolving an empty path gives the directory, an absolute path wins over the directory, and the result is empty only when both are |
| Paths.LocalPathOfResolve | test/com/facebook/buck/android/ApkGenruleTest.java:238-244 | a relative path resolved against a base and relativised again is unchanged |
| Paths.ResolveLocalPath | test/com/facebook/buck/android/ApkGenruleTest.java:238-244 | a path below a base, relativised and resolved against the base again, is unchanged |
| PathOrder.LessIrreflexive | test/com/facebook/buck/android/ApkGenruleTest.java:190-192 | the natural order of paths, by which the sorted set orders the inputs, puts no path before itself |
| PathOrder.LessAsymmetric | test/com/facebook/buck/android/ApkGenruleTest.java:190-192 | of two paths, at most one comes before the other |
| PathOrder.LessTransitive | test/com/facebook/buck/android/ApkGenruleTest.java:190-192 | the order is transitive |
| PathOrder.LessTotal | test/com/facebook/buck/android/ApkGenruleTest.java:190-192 | of two different paths, one comes before the other, so the sorted set has one order only |
| PathOrder.LessCommonPrefix | test/com/facebook/buck/android/ApkGenruleTest.java:190-192 | paths in one directory compare as their names do, so `key.properties` comes before `signer.py` |
| PathOrder.ToSortedSet | test/com/facebook/buck/android/ApkGenruleTest.java:190-192 | the sorted set of a list is strictly sorted and holds exactly the list's elements |
| PathOrder.ToSortedSetOrderIndependent | test/com/facebook/buck/android/ApkGenruleTest.java:190-192 | two lists with the same elements have the same sorted set |
| PathOrder.SortedUnique | test/com/facebook/buck/android/ApkGenruleTest.java:190-192 | two strictly sorted lists with the same elements are equal |

## Left out

- The traversals themselves are not modelled. The graph's `findDependencies`, `findAndroidResourceDetails` and `findDexDependencies` are function-valued fields. Their results are opaque types. The rule kind's `findMyAndroidResourceDeps` is `ResourceTraversal.Run`. Its body hands back a list fixed at construction. The finder relies only on Run's contract: a list without assets-only rules (lines 61-64 and 81-86).
- AndroidResourceDeps.AndroidResourceDepsFinder.GetAndroidResources: states that every call returns an equal list, not the same object. Dafny sequences are values, so object identity of the `ImmutableList` cannot be expressed.
- The thread-safety of `Suppliers.memoize` is not modelled. The finder is sequential, and "at most once" is stated for sequential calls.
- `Preconditions.checkNotNull` has no counterpart, because Dafny's types have no null.
- Running the steps (`rm`, `mkdir`, cleaning, symlinking, running bash) is not modelled. The plan is data only.
- The shell step's working directory is not modelled, because the test does not pin it.
- Shell selection on non-Linux platforms, `cmdExe` and `bash` are not modelled. The test fixes the platform to Linux and leaves those arguments empty.
- Reading the inherited environment (`System.getenv()`) is not modelled, because the pinned environment does not contain it.
- Symlinks for sources outside the base path are not pinned by the test. The model stages such a source under its full path. No contract of `SymlinkStep` states this case.
- The exclusion set is a `set<JavaLibrary>`. The insertion order of the `ImmutableSet` it is passed on as, to the opaque `findDexDependencies`, is not modelled.
- Path normalisation (`.`, `..`, repeated or trailing `/`) is not modelled. Paths are taken as already normalised strings.
- The order of paths compares characters, which agrees with `Path.compareTo` on ASCII paths.
- Tokens other than `$APK` and `$OUT`, and the unbound-token and missing-resource-directory errors, are not modelled, because they do not appear in the code this model covers.
- The test's mocks, build context, rule resolver, event bus, keystore and android_binary setup are not modelled, because they carry no logic.
