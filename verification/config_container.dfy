/**
 `pkg/configs/config_container.go`: configurations of clusters and filters, and the listeners
 they are delivered to. A cluster listener is a transporter's `SetConfig`, a filter listener
 the hook of a filter aggregation. Every call is one atomic step.
 */
module ConfigContainer {
  import opened Wrappers
  import opened ApiTypes
  import opened KubeTransporter
  import opened FilterChain

  /** The cluster side: what is stored, and for every registered listener what it was last given. */
  datatype ClusterSide = ClusterSide(
    configs: map<string, PairClusterSettings>,
    pairings: map<string, string>,
    held: map<string, Option<PairClusterSettings>>)

  /** The filter side: the stored configurations, and the filters of every registered aggregation. */
  datatype FilterSide = FilterSide(
    configs: map<string, Option<DRFilterConfig>>,
    chains: map<string, seq<Filter>>)

  // ---------------------------------------------------------------------
  // What the calls do
  // ---------------------------------------------------------------------

  /** Delivery to the listener of every namespace paired with the cluster. */
  function FanOut(c: ClusterSide, cluster: string, settings: PairClusterSettings): ClusterSide {
    c.(held := map n | n in c.held :: if n in c.pairings && c.pairings[n] == cluster then Some(settings) else c.held[n])
  }

  /** Delivery of the cluster's stored settings to the namespace's listener, if there are both. */
  function Bring(c: ClusterSide, ns: string, cluster: string): ClusterSide {
    if cluster in c.configs && ns in c.held then c.(held := c.held[ns := Some(c.configs[cluster])]) else c
  }

  /** A nil configuration is refused. */
  function StoreCluster(c: ClusterSide, cluster: string, settings: Option<PairClusterSettings>): ClusterSide {
    match settings
    case None => c
    case Some(s) => FanOut(c.(configs := c.configs[cluster := s]), cluster, s)
  }

  predicate Refused(ns: string, cluster: string) {
    ns == "" || cluster == ""
  }

  function Pair(c: ClusterSide, ns: string, cluster: string): ClusterSide {
    if Refused(ns, cluster) then c else Bring(c.(pairings := c.pairings[ns := cluster]), ns, cluster)
  }

  /** A namespace that is not paired yet cannot register a transporter. */
  function Listen(c: ClusterSide, ns: string, given: Option<PairClusterSettings>): ClusterSide {
    if ns !in c.pairings then c else Bring(c.(held := c.held[ns := given]), ns, c.pairings[ns])
  }

  /** The hook of a registered aggregation enriches the configuration behind the stored pointer. */
  function Install(c: FilterSide, ns: string, config: Option<DRFilterConfig>): FilterSide {
    if ns !in c.chains then c
    else match config
      case None => c.(chains := c.chains[ns := Chain(None)])
      case Some(f) => FilterSide(c.configs[ns := Some(Enrich(f))], c.chains[ns := Chain(Some(Enrich(f)))])
  }

  function StoreFilters(c: FilterSide, ns: string, config: Option<DRFilterConfig>): FilterSide {
    Install(c.(configs := c.configs[ns := config]), ns, config)
  }

  function StoredFilters(c: FilterSide, ns: string): Option<DRFilterConfig> {
    if ns in c.configs then c.configs[ns] else None
  }

  function ListenFilters(c: FilterSide, ns: string, running: seq<Filter>): FilterSide {
    Install(c.(chains := c.chains[ns := running]), ns, StoredFilters(c, ns))
  }

  // ---------------------------------------------------------------------
  // The container
  // ---------------------------------------------------------------------

  class DrConfig {
    var ClusterConfigs: map<string, PairClusterSettings>
    var NamespaceConfigedCluster: map<string, string>
    var FilterConfigs: map<string, FilterConfigPointer?>
    var ClusterConfigListeners: map<string, KubeApiserverTransporter>
    var FilterConfigListeners: map<string, FilterAggregation>

    constructor ()
      ensures ClustersValid() && Clusters() == ClusterSide(map[], map[], map[])
      ensures FiltersValid() && Filters() == FilterSide(map[], map[])
      ensures Transporters() == {} && Aggregations() == {} && Pointers() == {}
    {
      ClusterConfigs, NamespaceConfigedCluster, FilterConfigs := map[], map[], map[];
      ClusterConfigListeners, FilterConfigListeners := map[], map[];
    }

    /** Every namespace has a listener of its own. */
    ghost predicate ClustersValid()
      reads this`ClusterConfigListeners
    {
      forall m, n | m in ClusterConfigListeners && n in ClusterConfigListeners && m != n ::
        ClusterConfigListeners[m] != ClusterConfigListeners[n]
    }

    ghost function Transporters(): set<KubeApiserverTransporter>
      reads this`ClusterConfigListeners
    {
      set n | n in ClusterConfigListeners :: ClusterConfigListeners[n]
    }

    ghost function Clusters(): ClusterSide
      reads this`ClusterConfigs, this`NamespaceConfigedCluster, this`ClusterConfigListeners, Transporters()
    {
      ClusterSide(ClusterConfigs, NamespaceConfigedCluster,
                  map n | n in ClusterConfigListeners :: ClusterConfigListeners[n].PairClusterSettings)
    }

    /** Every namespace has an aggregation and a filter configuration of its own. */
    ghost predicate FiltersValid()
      reads this`FilterConfigListeners, this`FilterConfigs
    {
      && (forall m, n | m in FilterConfigListeners && n in FilterConfigListeners && m != n ::
            FilterConfigListeners[m] != FilterConfigListeners[n])
      && (forall m, n | m in FilterConfigs && n in FilterConfigs && m != n && FilterConfigs[m] != null ::
            FilterConfigs[m] != FilterConfigs[n])
    }

    ghost function Aggregations(): set<FilterAggregation>
      reads this`FilterConfigListeners
    {
      set n | n in FilterConfigListeners :: FilterConfigListeners[n]
    }

    ghost function Pointers(): set<FilterConfigPointer>
      reads this`FilterConfigs
    {
      set n | n in FilterConfigs && FilterConfigs[n] != null :: FilterConfigs[n]
    }

    ghost function Filters(): FilterSide
      reads this`FilterConfigListeners, this`FilterConfigs, Aggregations(), Pointers()
    {
      FilterSide(map n | n in FilterConfigs :: if FilterConfigs[n] == null then None else Some(FilterConfigs[n].config),
                 map n | n in FilterConfigListeners :: FilterConfigListeners[n].Filters)
    }

    // -------------------------------------------------------------------
    // Cluster configurations
    // -------------------------------------------------------------------

    method UpdateClusterConfigToContainer(clusterName: string, clusterConfigs: Option<PairClusterSettings>)
      returns (ok: bool)
      requires ClustersValid()
      modifies this`ClusterConfigs, Transporters()
      ensures ok == clusterConfigs.Some?
      ensures Clusters() == StoreCluster(old(Clusters()), clusterName, clusterConfigs)
      ensures Filters() == old(Filters())
    {
      if clusterConfigs.None? {
        return false;
      }
      ClusterConfigs := ClusterConfigs[clusterName := clusterConfigs.value];
      NotifyClusterConfigChange(clusterName, clusterConfigs.value);
      ok := true;
    }

    method NotifyClusterConfigChange(clusterName: string, clusterConfigs: PairClusterSettings)
      requires ClustersValid()
      modifies Transporters()
      ensures Clusters() == FanOut(old(Clusters()), clusterName, clusterConfigs)
    {
      var relatedNamespaces := set n | n in NamespaceConfigedCluster && NamespaceConfigedCluster[n] == clusterName;
      ghost var related := relatedNamespaces;
      while relatedNamespaces != {}
        invariant relatedNamespaces <= related
        invariant forall n | n in ClusterConfigListeners ::
                    ClusterConfigListeners[n].PairClusterSettings ==
                    if n in related - relatedNamespaces then Some(clusterConfigs)
                    else old(ClusterConfigListeners[n].PairClusterSettings)
        decreases relatedNamespaces
      {
        var ns :| ns in relatedNamespaces;
        relatedNamespaces := relatedNamespaces - {ns};
        if ns in ClusterConfigListeners {
          ClusterConfigListeners[ns].SetConfig(clusterConfigs);
        }
      }
    }

    method UpdateNamespaceConfigedCluster(namespace: string, clusterName: string) returns (ok: bool)
      requires ClustersValid()
      modifies this`NamespaceConfigedCluster, Transporters()
      ensures ok == !Refused(namespace, clusterName)
      ensures Clusters() == Pair(old(Clusters()), namespace, clusterName)
      ensures Filters() == old(Filters())
    {
      if namespace == "" || clusterName == "" {
        return false;
      }
      NamespaceConfigedCluster := NamespaceConfigedCluster[namespace := clusterName];
      assert Clusters().held == old(Clusters()).held;
      NotifyNamespaceConfigedClusterChange(namespace, clusterName);
      ok := true;
    }

    method NotifyNamespaceConfigedClusterChange(namespace: string, clusterName: string)
      requires ClustersValid()
      modifies Transporters()
      ensures Clusters() == Bring(old(Clusters()), namespace, clusterName)
    {
      if clusterName in ClusterConfigs {
        if namespace in ClusterConfigListeners {
          ClusterConfigListeners[namespace].SetConfig(ClusterConfigs[clusterName]);
        }
      }
    }

    /** A new listener replaces the old one of the namespace. */
    method RegClusterConfigListener(namespace: string, listener: KubeApiserverTransporter) returns (ok: bool)
      requires ClustersValid()
      requires forall n | n in ClusterConfigListeners && n != namespace :: ClusterConfigListeners[n] != listener
      modifies this`ClusterConfigListeners, listener, Transporters()
      ensures ClustersValid() && ok == (namespace in NamespaceConfigedCluster)
      ensures !ok ==> listener.PairClusterSettings == old(listener.PairClusterSettings)
      ensures ClusterConfigListeners ==
              if ok then old(ClusterConfigListeners)[namespace := listener] else old(ClusterConfigListeners)
      ensures Clusters() == Listen(old(Clusters()), namespace, old(listener.PairClusterSettings))
      ensures Filters() == old(Filters())
    {
      if namespace !in NamespaceConfigedCluster {
        return false;
      }
      ClusterConfigListeners := ClusterConfigListeners[namespace := listener];
      assert Clusters().held == old(Clusters()).held[namespace := listener.PairClusterSettings];
      NotifyNamespaceConfigedClusterChange(namespace, NamespaceConfigedCluster[namespace]);
      ok := true;
    }

    // -------------------------------------------------------------------
    // Filter configurations
    // -------------------------------------------------------------------

    method UpdateFilterConfigToContainer(namespace: string, filterConfigs: FilterConfigPointer?)
      requires FiltersValid()
      requires filterConfigs != null ==>
                 forall n | n in FilterConfigs && n != namespace :: FilterConfigs[n] != filterConfigs
      modifies this`FilterConfigs, Aggregations(), filterConfigs
      ensures FiltersValid() && FilterConfigs == old(FilterConfigs)[namespace := filterConfigs]
      ensures Clusters() == old(Clusters())
      ensures Filters() ==
              StoreFilters(
                old(Filters()), namespace,
                if filterConfigs == null then None else Some(old(filterConfigs.config)))
    {
      ghost var config := if filterConfigs == null then None else Some(filterConfigs.config);
      FilterConfigs := FilterConfigs[namespace := filterConfigs];
      ghost var stored := Filters();
      assert stored == FilterSide(old(Filters()).configs[namespace := config], old(Filters()).chains) by {
        assert stored.configs == old(Filters()).configs[namespace := config];
        assert stored.chains == old(Filters()).chains;
      }
      assert Clusters() == old(Clusters());
      NotifyFilterListeners(namespace, filterConfigs);
      assert Filters() == Install(stored, namespace, config);
    }

    method NotifyFilterListeners(namespace: string, filterConfig: FilterConfigPointer?)
      requires FiltersValid()
      requires filterConfig != null ==> namespace in FilterConfigs && FilterConfigs[namespace] == filterConfig
      modifies Aggregations(), filterConfig
      ensures Filters() ==
              Install(old(Filters()), namespace, if filterConfig == null then None else Some(old(filterConfig.config)))
    {
      if namespace in FilterConfigListeners {
        ghost var before := Filters();
        FilterConfigListeners[namespace].UpdateFilterHook(filterConfig);
        if filterConfig != null {
          assert Filters().configs == before.configs[namespace := Some(filterConfig.config)];
        } else {
          assert Filters().configs == before.configs;
        }
        assert Filters().chains == before.chains[namespace := FilterConfigListeners[namespace].Filters];
      }
    }

    method RegFilterConfigListener(namespace: string, listener: FilterAggregation)
      requires FiltersValid()
      requires forall n | n in FilterConfigListeners && n != namespace :: FilterConfigListeners[n] != listener
      modifies this`FilterConfigListeners, listener, Aggregations(), Pointers()
      ensures FiltersValid() && FilterConfigListeners == old(FilterConfigListeners)[namespace := listener]
      ensures Filters() == ListenFilters(old(Filters()), namespace, old(listener.Filters))
    {
      ghost var before := Filters();
      FilterConfigListeners := FilterConfigListeners[namespace := listener];
      var stored := if namespace in FilterConfigs then FilterConfigs[namespace] else null;
      ghost var registered := Filters();
      assert registered == FilterSide(before.configs, before.chains[namespace := listener.Filters]) by {
        assert registered.configs == before.configs;
        assert registered.chains == before.chains[namespace := listener.Filters];
      }
      NotifyFilterListeners(namespace, stored);
      assert Filters() == Install(registered, namespace, StoredFilters(before, namespace));
    }
  }

  // ---------------------------------------------------------------------
  // Coherence
  // ---------------------------------------------------------------------

  /** The settings stored for the cluster a namespace is paired with, if there are any. */
  function SettingsFor(c: ClusterSide, ns: string): Option<PairClusterSettings> {
    if ns in c.pairings && c.pairings[ns] in c.configs then Some(c.configs[c.pairings[ns]]) else None
  }

  /** Each cluster listener was last given exactly what is stored for its namespace's cluster, ... */
  ghost predicate Coherent(c: ClusterSide) {
    forall n | n in c.held && SettingsFor(c, n).Some? :: c.held[n] == SettingsFor(c, n)
  }

  /** ... but for listeners paired with one cluster, whose stored settings may have been
      overwritten behind the container's back. */
  ghost predicate OthersCoherent(c: ClusterSide, cluster: string) {
    forall n | n in c.held && SettingsFor(c, n).Some? && c.pairings[n] != cluster :: c.held[n] == SettingsFor(c, n)
  }

  /** Each filter listener runs the chain of its namespace's stored configuration. */
  ghost predicate FiltersCoherent(c: FilterSide) {
    forall n | n in c.chains :: c.chains[n] == Chain(StoredFilters(c, n))
  }

  /** Storing settings repairs whatever the cluster's own listeners held. */
  lemma StoringRepairs(c: ClusterSide, cluster: string, settings: PairClusterSettings)
    requires OthersCoherent(c, cluster)
    ensures Coherent(StoreCluster(c, cluster, Some(settings)))
  {
  }

  // ---------------------------------------------------------------------
  // Any sequence of calls
  // ---------------------------------------------------------------------

  datatype Call =
    | UpdateCluster(cluster: string, settings: Option<PairClusterSettings>)
    | PairNamespace(ns: string, cluster: string)
    | StartTransporter(ns: string)
    | UpdateFilters(ns: string, config: Option<DRFilterConfig>)
    | StartFilters(ns: string)

  function ApplyToClusters(c: ClusterSide, call: Call): ClusterSide {
    match call
    case UpdateCluster(cluster, settings) => StoreCluster(c, cluster, settings)
    case PairNamespace(ns, cluster) => Pair(c, ns, cluster)
    case StartTransporter(ns) => Listen(c, ns, None)
    case _ => c
  }

  function ApplyToFilters(c: FilterSide, call: Call): FilterSide {
    match call
    case UpdateFilters(ns, config) => StoreFilters(c, ns, config)
    case StartFilters(ns) => ListenFilters(c, ns, [])
    case _ => c
  }

  /** What a sequence of calls amounts to. */
  function ClustersAfter(calls: seq<Call>): ClusterSide {
    if calls == [] then ClusterSide(map[], map[], map[])
    else ApplyToClusters(ClustersAfter(calls[..|calls| - 1]), calls[|calls| - 1])
  }

  function FiltersAfter(calls: seq<Call>): FilterSide {
    if calls == [] then FilterSide(map[], map[])
    else ApplyToFilters(FiltersAfter(calls[..|calls| - 1]), calls[|calls| - 1])
  }

  lemma ApplyKeepsCoherent(c: ClusterSide, call: Call)
    requires Coherent(c)
    ensures Coherent(ApplyToClusters(c, call))
  {
  }

  /** The hook repairs whatever the namespace's own aggregation ran. */
  lemma InstallKeepsFilters(c: FilterSide, ns: string, config: Option<DRFilterConfig>)
    requires forall n | n in c.chains && n != ns :: c.chains[n] == Chain(StoredFilters(c, n))
    requires StoredFilters(c, ns) == config
    ensures FiltersCoherent(Install(c, ns, config))
  {
    var t := Install(c, ns, config);
    forall n | n in t.chains
      ensures t.chains[n] == Chain(StoredFilters(t, n))
    {
      if n != ns {
        assert t.chains[n] == c.chains[n] && StoredFilters(t, n) == StoredFilters(c, n);
      }
    }
  }

  lemma ApplyKeepsFilters(c: FilterSide, call: Call)
    requires FiltersCoherent(c)
    ensures FiltersCoherent(ApplyToFilters(c, call))
  {
    match call
    case UpdateFilters(ns, config) => InstallKeepsFilters(c.(configs := c.configs[ns := config]), ns, config);
    case StartFilters(ns) => InstallKeepsFilters(c.(chains := c.chains[ns := []]), ns, StoredFilters(c, ns));
    case _ =>
  }

  lemma {:induction false} AlwaysCoherent(calls: seq<Call>)
    ensures Coherent(ClustersAfter(calls)) && FiltersCoherent(FiltersAfter(calls))
  {
    if calls != [] {
      var before, call := calls[..|calls| - 1], calls[|calls| - 1];
      AlwaysCoherent(before);
      ApplyKeepsCoherent(ClustersAfter(before), call);
      ApplyKeepsFilters(FiltersAfter(before), call);
    }
  }

  lemma OneMore(calls: seq<Call>, i: nat)
    requires i < |calls|
    ensures ClustersAfter(calls[..i + 1]) == ApplyToClusters(ClustersAfter(calls[..i]), calls[i])
    ensures FiltersAfter(calls[..i + 1]) == ApplyToFilters(FiltersAfter(calls[..i]), calls[i])
  {
    assert calls[..i + 1][..i] == calls[..i];
  }

  predicate Pairs(call: Call, ns: string) {
    call.PairNamespace? && call.ns == ns && ns != "" && call.cluster != ""
  }

  predicate Stores(call: Call, cluster: string) {
    call.UpdateCluster? && call.cluster == cluster && call.settings.Some?
  }

  predicate Configures(call: Call, ns: string) {
    call.UpdateFilters? && call.ns == ns
  }

  lemma {:induction false} LastPairing(calls: seq<Call>, ns: string, i: nat)
    requires i < |calls| && Pairs(calls[i], ns) && forall k | i < k < |calls| :: !Pairs(calls[k], ns)
    ensures ns in ClustersAfter(calls).pairings && ClustersAfter(calls).pairings[ns] == calls[i].cluster
    decreases |calls|
  {
    if i < |calls| - 1 {
      LastPairing(calls[..|calls| - 1], ns, i);
    }
  }

  lemma {:induction false} LastStoring(calls: seq<Call>, cluster: string, j: nat)
    requires j < |calls| && Stores(calls[j], cluster) && forall k | j < k < |calls| :: !Stores(calls[k], cluster)
    ensures cluster in ClustersAfter(calls).configs && Some(ClustersAfter(calls).configs[cluster]) == calls[j].settings
    decreases |calls|
  {
    if j < |calls| - 1 {
      LastStoring(calls[..|calls| - 1], cluster, j);
    }
  }

  /** A registered transporter holds the settings stored last for the cluster its namespace was
      paired with last, whichever of the three calls came last. */
  lemma SettingsInForce(calls: seq<Call>, ns: string, i: nat, j: nat)
    requires i < |calls| && Pairs(calls[i], ns) && forall k | i < k < |calls| :: !Pairs(calls[k], ns)
    requires j < |calls| && Stores(calls[j], calls[i].cluster)
             && forall k | j < k < |calls| :: !Stores(calls[k], calls[i].cluster)
    requires ns in ClustersAfter(calls).held
    ensures ClustersAfter(calls).held[ns] == calls[j].settings
  {
    LastPairing(calls, ns, i);
    LastStoring(calls, calls[i].cluster, j);
    AlwaysCoherent(calls);
    assert SettingsFor(ClustersAfter(calls), ns) == calls[j].settings;
  }

  lemma {:induction false} PairedIff(calls: seq<Call>, ns: string)
    ensures ns in ClustersAfter(calls).pairings <==> exists i | 0 <= i < |calls| :: Pairs(calls[i], ns)
    decreases |calls|
  {
    if calls != [] {
      var n := |calls| - 1;
      PairedIff(calls[..n], ns);
      if Pairs(calls[n], ns) {
      } else if ns in ClustersAfter(calls[..n]).pairings {
        var i :| 0 <= i < n && Pairs(calls[..n][i], ns);
        assert Pairs(calls[i], ns);
      } else {
        assert forall i | 0 <= i < n :: calls[i] == calls[..n][i];
      }
    }
  }

  ghost predicate StartedAt(calls: seq<Call>, ns: string, j: nat) {
    j < |calls| && calls[j] == StartTransporter(ns) && exists i | 0 <= i < j :: Pairs(calls[i], ns)
  }

  /** A transporter is registered exactly if it was started after a pairing of its namespace. */
  lemma {:induction false} RegisteredIff(calls: seq<Call>, ns: string)
    ensures ns in ClustersAfter(calls).held <==> exists j :: StartedAt(calls, ns, j)
    decreases |calls|
  {
    if calls != [] {
      var n := |calls| - 1;
      var before := calls[..n];
      RegisteredIff(before, ns);
      PairedIff(before, ns);
      assert forall i | 0 <= i < n :: before[i] == calls[i];
      assert forall j | 0 <= j < n :: StartedAt(before, ns, j) <==> StartedAt(calls, ns, j);
      assert StartedAt(calls, ns, n) <==> calls[n] == StartTransporter(ns) && ns in ClustersAfter(before).pairings;
      if ns in ClustersAfter(calls).held {
        if ns in ClustersAfter(before).held {
          var j :| StartedAt(before, ns, j);
          assert StartedAt(calls, ns, j);
        } else {
          assert StartedAt(calls, ns, n);
        }
      }
    }
  }

  /** The transporter that is registered was started at `j`. */
  ghost predicate LastStart(calls: seq<Call>, ns: string, j: nat) {
    StartedAt(calls, ns, j) && forall k | j < k < |calls| :: calls[k] != StartTransporter(ns)
  }

  /** What is stored for the namespace's cluster after `k` calls. */
  ghost function KnownAt(calls: seq<Call>, ns: string, k: nat): Option<PairClusterSettings>
    requires k <= |calls|
  {
    SettingsFor(ClustersAfter(calls[..k]), ns)
  }

  /** While nothing is stored for the cluster, what the transporter holds stays. */
  lemma UnknownKeeps(c: ClusterSide, call: Call, ns: string)
    requires ns in c.held && call != StartTransporter(ns) && SettingsFor(ApplyToClusters(c, call), ns).None?
    ensures ns in ApplyToClusters(c, call).held && ApplyToClusters(c, call).held[ns] == c.held[ns]
  {
  }

  lemma StartBefore(calls: seq<Call>, ns: string, j: nat)
    requires LastStart(calls, ns, j) && j < |calls| - 1
    ensures LastStart(calls[..|calls| - 1], ns, j) && ns in ClustersAfter(calls[..|calls| - 1]).held
  {
    var before := calls[..|calls| - 1];
    var i :| 0 <= i < j && Pairs(calls[i], ns);
    assert Pairs(before[i], ns) && before[j] == calls[j];
    RegisteredIff(before, ns);
  }

  /** It holds what was stored for the namespace's cluster when that was last known since it started. */
  lemma {:induction false} HeldIsLastKnown(calls: seq<Call>, ns: string, j: nat, k: nat)
    requires LastStart(calls, ns, j) && j < k <= |calls|
    requires KnownAt(calls, ns, k).Some? && forall m: nat | k < m <= |calls| :: KnownAt(calls, ns, m).None?
    ensures ns in ClustersAfter(calls).held && ClustersAfter(calls).held[ns] == KnownAt(calls, ns, k)
    decreases |calls|
  {
    var n := |calls| - 1;
    assert calls[..n + 1] == calls;
    if k == n + 1 {
      AlwaysCoherent(calls);
      RegisteredIff(calls, ns);
    } else {
      var before := calls[..n];
      StartBefore(calls, ns, j);
      forall m: nat | m <= n ensures KnownAt(before, ns, m) == KnownAt(calls, ns, m) {
        assert before[..m] == calls[..m];
      }
      HeldIsLastKnown(before, ns, j, k);
      assert KnownAt(calls, ns, n + 1).None?;
      UnknownKeeps(ClustersAfter(before), calls[n], ns);
    }
  }

  /** And nothing if it never was. */
  lemma {:induction false} HeldNothing(calls: seq<Call>, ns: string, j: nat)
    requires LastStart(calls, ns, j) && forall m: nat | j < m <= |calls| :: KnownAt(calls, ns, m).None?
    ensures ns in ClustersAfter(calls).held && ClustersAfter(calls).held[ns] == None
    decreases |calls|
  {
    var n := |calls| - 1;
    var before := calls[..n];
    assert calls[..n + 1] == calls && KnownAt(calls, ns, n + 1).None?;
    if j == n {
      RegisteredIff(calls, ns);
      PairedIff(before, ns);
      var i :| 0 <= i < j && Pairs(calls[i], ns);
      assert Pairs(before[i], ns);
    } else {
      StartBefore(calls, ns, j);
      forall m: nat | m <= n ensures KnownAt(before, ns, m) == KnownAt(calls, ns, m) {
        assert before[..m] == calls[..m];
      }
      HeldNothing(before, ns, j);
      UnknownKeeps(ClustersAfter(before), calls[n], ns);
    }
  }

  /** The last point since the start at which settings were known. */
  lemma {:induction false} LastKnown(calls: seq<Call>, ns: string, k: nat, n: nat) returns (last: nat)
    requires k <= n <= |calls| && KnownAt(calls, ns, k).Some?
    ensures k <= last <= n && KnownAt(calls, ns, last).Some?
            && forall m: nat | last < m <= n :: KnownAt(calls, ns, m).None?
    decreases n - k
  {
    if KnownAt(calls, ns, n).Some? {
      last := n;
    } else {
      last := LastKnown(calls, ns, k, n - 1);
    }
  }

  /** A registered transporter holds something else than what is stored for its namespace's cluster, and
      then what was stored for another one, if and only if nothing is stored now but something was
      stored for the cluster of the time at some point since it started. */
  lemma OldSettingsIff(calls: seq<Call>, ns: string, j: nat)
    requires LastStart(calls, ns, j)
    ensures ns in ClustersAfter(calls).held
    ensures ClustersAfter(calls).held[ns] != SettingsFor(ClustersAfter(calls), ns) <==>
            && SettingsFor(ClustersAfter(calls), ns).None?
            && exists k: nat :: j < k <= |calls| && KnownAt(calls, ns, k).Some?
  {
    AlwaysCoherent(calls);
    RegisteredIff(calls, ns);
    if k: nat :| j < k <= |calls| && KnownAt(calls, ns, k).Some? {
      var last := LastKnown(calls, ns, k, |calls|);
      HeldIsLastKnown(calls, ns, j, last);
    } else {
      HeldNothing(calls, ns, j);
    }
  }

  /** A namespace paired anew with a cluster nobody has stored settings for keeps the settings, and
      with them the destination, of the cluster it was paired with before. */
  lemma OldClusterKept(ns: string, first: string, second: string, settings: PairClusterSettings)
    requires !Refused(ns, first) && !Refused(ns, second) && first != second
    ensures var calls := [UpdateCluster(first, Some(settings)), PairNamespace(ns, first), StartTransporter(ns),
                          PairNamespace(ns, second)];
            var c := ClustersAfter(calls);
            c.pairings == map[ns := second] && c.held == map[ns := Some(settings)] && SettingsFor(c, ns) == None
  {
    var calls := [UpdateCluster(first, Some(settings)), PairNamespace(ns, first), StartTransporter(ns),
                  PairNamespace(ns, second)];
    assert calls[..0] == [] && calls[..4] == calls;
    OneMore(calls, 0);
    assert ClustersAfter(calls[..1]) == ClusterSide(map[first := settings], map[], map[]);
    OneMore(calls, 1);
    assert ClustersAfter(calls[..2]) == ClusterSide(map[first := settings], map[ns := first], map[]);
    OneMore(calls, 2);
    assert ClustersAfter(calls[..3]) ==
      ClusterSide(map[first := settings], map[ns := first], map[ns := Some(settings)]);
    OneMore(calls, 3);
  }

  lemma {:induction false} StoredEnriched(calls: seq<Call>, ns: string, i: nat) returns (n: nat)
    requires i < |calls| && Configures(calls[i], ns) && forall k | i < k < |calls| :: !Configures(calls[k], ns)
    ensures StoredFilters(FiltersAfter(calls), ns) ==
            match calls[i].config case None => None case Some(f) => Some(EnrichTimes(f, n))
    ensures ns in FiltersAfter(calls).chains ==> n > 0
    decreases |calls|
  {
    var last := |calls| - 1;
    var before := FiltersAfter(calls[..last]);
    if i == last {
      n := if ns in before.chains then 1 else 0;
    } else {
      n := StoredEnriched(calls[..last], ns, i);
      if calls[last] == StartFilters(ns) {
        n := n + 1;
      }
    }
  }

  /** A registered aggregation runs the chain of the configuration stored last for its namespace,
      enriched at least once; `EnrichmentStable` shows that more often makes no difference. */
  lemma ChainInForce(calls: seq<Call>, ns: string, i: nat) returns (n: nat)
    requires i < |calls| && Configures(calls[i], ns) && forall k | i < k < |calls| :: !Configures(calls[k], ns)
    requires ns in FiltersAfter(calls).chains
    ensures n > 0
    ensures FiltersAfter(calls).chains[ns] ==
            Chain(match calls[i].config case None => None case Some(f) => Some(EnrichTimes(f, n)))
  {
    n := StoredEnriched(calls, ns, i);
    AlwaysCoherent(calls);
  }

  /** Any sequence of calls, every registration bringing a new listener: the container stores what
      the calls amount to, and every listener holds what is stored for its namespace. */
  method Replay(calls: seq<Call>, remote: RemoteCluster) returns (container: DrConfig)
    ensures fresh(container) && container.ClustersValid() && container.FiltersValid()
    ensures container.Clusters() == ClustersAfter(calls) && Coherent(container.Clusters())
    ensures container.Filters() == FiltersAfter(calls) && FiltersCoherent(container.Filters())
  {
    container := new DrConfig();
    for i := 0 to |calls|
      invariant container.ClustersValid() && container.Clusters() == ClustersAfter(calls[..i])
      invariant container.FiltersValid() && container.Filters() == FiltersAfter(calls[..i])
      invariant fresh(container) && fresh(container.Transporters()) && fresh(container.Aggregations())
                && fresh(container.Pointers())
    {
      OneMore(calls, i);
      Perform(container, calls[i], remote);
    }
    assert calls[..|calls|] == calls;
    AlwaysCoherent(calls);
  }

  method Perform(container: DrConfig, call: Call, remote: RemoteCluster)
    requires container.ClustersValid() && container.FiltersValid()
    modifies container, container.Transporters(), container.Aggregations(), container.Pointers()
    ensures container.ClustersValid() && container.Clusters() == ApplyToClusters(old(container.Clusters()), call)
    ensures container.FiltersValid() && container.Filters() == ApplyToFilters(old(container.Filters()), call)
    ensures fresh(container.Transporters() - old(container.Transporters()))
    ensures fresh(container.Aggregations() - old(container.Aggregations()))
    ensures fresh(container.Pointers() - old(container.Pointers()))
  {
    PerformOnClusters(container, call, remote);
    ghost var clusters := container.Clusters();
    PerformOnFilters(container, call);
    assert container.Clusters() == clusters;
  }

  method PerformOnClusters(container: DrConfig, call: Call, remote: RemoteCluster)
    requires container.ClustersValid()
    modifies container`ClusterConfigs, container`NamespaceConfigedCluster, container`ClusterConfigListeners,
             container.Transporters()
    ensures container.ClustersValid() && container.Clusters() == ApplyToClusters(old(container.Clusters()), call)
    ensures container.Filters() == old(container.Filters())
    ensures fresh(container.Transporters() - old(container.Transporters()))
  {
    match call
    case UpdateCluster(cluster, settings) =>
      var ok := container.UpdateClusterConfigToContainer(cluster, settings);
    case PairNamespace(ns, cluster) =>
      var ok := container.UpdateNamespaceConfigedCluster(ns, cluster);
    case StartTransporter(ns) =>
      var transporter := new KubeApiserverTransporter(remote);
      var ok := container.RegClusterConfigListener(ns, transporter);
    case _ =>
  }

  method PerformOnFilters(container: DrConfig, call: Call)
    requires container.FiltersValid()
    modifies container`FilterConfigs, container`FilterConfigListeners, container.Aggregations(), container.Pointers()
    ensures container.FiltersValid() && container.Filters() == ApplyToFilters(old(container.Filters()), call)
    ensures fresh(container.Aggregations() - old(container.Aggregations()))
    ensures fresh(container.Pointers() - old(container.Pointers()))
  {
    match call
    case UpdateFilters(ns, None) =>
      container.UpdateFilterConfigToContainer(ns, null);
    case UpdateFilters(ns, Some(config)) =>
      var pointer := new FilterConfigPointer(config);
      container.UpdateFilterConfigToContainer(ns, pointer);
    case StartFilters(ns) =>
      var aggregation := new FilterAggregation();
      container.RegFilterConfigListener(ns, aggregation);
    case _ =>
  }
}
