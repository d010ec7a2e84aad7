/**
 * What an android_binary uses to find, in order, the transitive closure of the
 * android resources it depends on. The traversals themselves belong to the rule
 * kind and to the android dependency graph: the graph's are given as functions, the
 * rule kind's as a small class whose runs are recorded.
 */
module AndroidResourceDeps {

  import opened Wrappers

  /** A build rule's identity: its fully qualified build target. */
  type BuildTarget = string

  /** What a rule with android resources exposes (HasAndroidResourceDeps). */
  datatype HasAndroidResourceDeps = HasAndroidResourceDeps(
    target: BuildTarget,
    res: Option<string>,         // the resource directory; absent for a rule with only assets
    rDotJavaPackage: string,
    assets: Option<string>)      // the assets directory

  /** A java_library, as the exclusion set names it. */
  type JavaLibrary(==)

  /** The uber R.java rule handed on to the dex computation. */
  type UberRDotJava

  /** The results of the dependency graph's traversals; their content is not modelled. */
  type AndroidTransitiveDependencies(==)
  type AndroidResourceDetails
  type AndroidDexTransitiveDependencies

  /** AndroidTransitiveDependencyGraph: the three queries the finder makes of it. */
  datatype AndroidTransitiveDependencyGraph = AndroidTransitiveDependencyGraph(
    findDependencies: () -> AndroidTransitiveDependencies,
    findAndroidResourceDetails: seq<HasAndroidResourceDeps> -> AndroidResourceDetails,
    findDexDependencies: (seq<HasAndroidResourceDeps>, set<JavaLibrary>, UberRDotJava)
                         -> AndroidDexTransitiveDependencies)

  /** The list keeps no rule that only contains assets. */
  predicate ExcludesAssetsOnlyRules(deps: seq<HasAndroidResourceDeps>)
  {
    forall i :: 0 <= i < |deps| ==> deps[i].res.Some?
  }

  /**
   * The rule kind's findMyAndroidResourceDeps, the abstract step of the finder. The
   * finder sees only Run's contract: a list without assets-only rules. Its body stands
   * in for the rule kind's traversal and hands back a list fixed at construction.
   * The ghost `results` records every list Run has handed out, in call order.
   */
  class ResourceTraversal {

    const found: seq<HasAndroidResourceDeps>

    ghost var results: seq<seq<HasAndroidResourceDeps>>

    ghost predicate Valid()
      reads this
    {
      ExcludesAssetsOnlyRules(found)
    }

    constructor (found: seq<HasAndroidResourceDeps>)
      requires ExcludesAssetsOnlyRules(found)
      ensures Valid()
      ensures this.found == found && results == []
    {
      this.found := found;
      results := [];
    }

    /** One run of the traversal: the resource rules, in aapt order. */
    method Run() returns (deps: seq<HasAndroidResourceDeps>)
      requires Valid()
      modifies this
      ensures Valid()
      ensures ExcludesAssetsOnlyRules(deps)
      ensures results == old(results) + [deps]
    {
      deps := found;
      results := results + [deps];
    }
  }

  class AndroidResourceDepsFinder {

    const transitiveDependencyGraph: AndroidTransitiveDependencyGraph
    const buildRulesToExcludeFromDex: set<JavaLibrary>
    const androidTransitiveDependencies: AndroidTransitiveDependencies

    /** The rule kind's traversal, which this finder memoises. */
    const traversal: ResourceTraversal

    /** The memo cell around the traversal: empty until the first query. */
    var cache: Option<seq<HasAndroidResourceDeps>>

    /**
     * The traversal has run at most once, exactly when the memo cell is full, and the
     * memo cell holds the list that run produced.
     */
    ghost predicate Valid()
      reads this, traversal
    {
      && androidTransitiveDependencies == transitiveDependencyGraph.findDependencies()
      && traversal.Valid()
      && |traversal.results| <= 1
      && (cache.None? <==> traversal.results == [])
      && (cache.Some? ==> cache.value == traversal.results[0])
      && (cache.Some? ==> ExcludesAssetsOnlyRules(cache.value))
    }

    /**
     * Computes the transitive dependencies at once and the resources only when first
     * asked for. The traversal has not run yet.
     */
    constructor (transitiveDependencyGraph: AndroidTransitiveDependencyGraph,
                 buildRulesToExcludeFromDex: set<JavaLibrary>,
                 traversal: ResourceTraversal)
      requires traversal.Valid() && traversal.results == []
      ensures Valid()
      ensures this.transitiveDependencyGraph == transitiveDependencyGraph
      ensures this.buildRulesToExcludeFromDex == buildRulesToExcludeFromDex
      ensures this.traversal == traversal
      ensures androidTransitiveDependencies == transitiveDependencyGraph.findDependencies()
      ensures cache == None
    {
      this.transitiveDependencyGraph := transitiveDependencyGraph;
      this.buildRulesToExcludeFromDex := buildRulesToExcludeFromDex;
      this.androidTransitiveDependencies := transitiveDependencyGraph.findDependencies();
      this.traversal := traversal;
      cache := None;
    }

    /** getAndroidTransitiveDependencies: the graph's dependencies, found at construction. */
    function GetAndroidTransitiveDependencies(): (deps: AndroidTransitiveDependencies)
      reads this, traversal
      requires Valid()
      ensures deps == transitiveDependencyGraph.findDependencies()
    {
      androidTransitiveDependencies
    }

    /**
     * getAndroidResources: the resources the traversal finds. The traversal runs on the
     * first query only; every later query returns the cached list.
     */
    method GetAndroidResources() returns (resources: seq<HasAndroidResourceDeps>)
      requires Valid()
      modifies this`cache, traversal
      ensures Valid()
      ensures ExcludesAssetsOnlyRules(resources)
      ensures cache == Some(resources) && traversal.results == [resources]
      ensures old(cache).None? ==> traversal.results == old(traversal.results) + [resources]
      ensures old(cache).Some? ==>
        resources == old(cache).value && traversal.results == old(traversal.results)
    {
      if cache.None? {
        var found := traversal.Run();
        cache := Some(found);
      }
      resources := cache.value;
    }

    /** getAndroidResourceDetails: the graph's details of exactly the memoised resources. */
    method GetAndroidResourceDetails() returns (details: AndroidResourceDetails)
      requires Valid()
      modifies this`cache, traversal
      ensures Valid()
      ensures cache.Some? && traversal.results == [cache.value]
      ensures details == transitiveDependencyGraph.findAndroidResourceDetails(cache.value)
      ensures old(cache).Some? ==>
        cache == old(cache) && traversal.results == old(traversal.results)
    {
      var resources := GetAndroidResources();
      details := transitiveDependencyGraph.findAndroidResourceDetails(resources);
    }

    /**
     * getAndroidDexTransitiveDependencies: the graph's dex dependencies of the memoised
     * resources, the exclusion set given at construction and the given uber R.java.
     */
    method GetAndroidDexTransitiveDependencies(uberRDotJava: UberRDotJava)
      returns (dexDeps: AndroidDexTransitiveDependencies)
      requires Valid()
      modifies this`cache, traversal
      ensures Valid()
      ensures cache.Some? && traversal.results == [cache.value]
      ensures dexDeps == transitiveDependencyGraph.findDexDependencies(
        cache.value, buildRulesToExcludeFromDex, uberRDotJava)
      ensures old(cache).Some? ==>
        cache == old(cache) && traversal.results == old(traversal.results)
    {
      var resources := GetAndroidResources();
      dexDeps := transitiveDependencyGraph.findDexDependencies(
        resources, buildRulesToExcludeFromDex, uberRDotJava);
    }
  }

  /**
   * A fresh finder queried for its transitive dependencies, its resources, its resource
   * details and its dex dependencies, and then for its resources again: the traversal
   * runs once, both resource queries see the same list, and the other queries are made
   * with that list and the finder's original graph and exclusion set.
   */
  method QueryFinder(graph: AndroidTransitiveDependencyGraph,
                     exclude: set<JavaLibrary>,
                     found: seq<HasAndroidResourceDeps>,
                     uberRDotJava: UberRDotJava)
    returns (transitiveDeps: AndroidTransitiveDependencies,
             first: seq<HasAndroidResourceDeps>,
             details: AndroidResourceDetails,
             dexDeps: AndroidDexTransitiveDependencies,
             second: seq<HasAndroidResourceDeps>,
             ghost runs: nat)
    requires ExcludesAssetsOnlyRules(found)
    ensures transitiveDeps == graph.findDependencies()
    ensures first == second
    ensures ExcludesAssetsOnlyRules(first)
    ensures details == graph.findAndroidResourceDetails(first)
    ensures dexDeps == graph.findDexDependencies(first, exclude, uberRDotJava)
    ensures runs == 1
  {
    var traversal := new ResourceTraversal(found);
    var finder := new AndroidResourceDepsFinder(graph, exclude, traversal);
    transitiveDeps := finder.GetAndroidTransitiveDependencies();
    first := finder.GetAndroidResources();
    details := finder.GetAndroidResourceDetails();
    dexDeps := finder.GetAndroidDexTransitiveDependencies(uberRDotJava);
    second := finder.GetAndroidResources();
    runs := |traversal.results|;
  }
}
