/**
 `pkg/controller/drnamespace/drnamespace_controller.go`: starting and stopping the worker of a
 namespace. A running worker is represented by the context it was started with; cancelling
 the context stops it. There is one DRNamespace per namespace.
 */
module DRNamespaceController {
  import opened Wrappers
  import opened Json
  import opened ApiTypes
  import Mapping = VariableMappingFilter
  import opened FilterChain
  import opened ConfigContainer

  datatype DRComponents = DRComponents(role: string, active: bool, transportAdapter: string, collectorType: string)

  /** The fields of spec and status that `Reconcile` compares; both have the same shape. */
  datatype Settings = Settings(components: DRComponents, pairCluster: string)

  const FRESH_STATUS := Settings(DRComponents("", false, "", ""), "")

  /** What reading the instance gives: gone, another error, or its spec and status. */
  datatype Fetched = NotFound | ReadError | Instance(spec: Settings, status: Settings)

  /** The error is returned and the request retried, or the reconcile ends and may enqueue a status. */
  datatype Result = Requeued | Finished(status: Option<Settings>)

  type Context = nat

  /** What a worker was started for, and with. */
  datatype Started = Started(ns: string, transportAdapter: string, collectorType: string)

  /** `managers` and `cancelFuncs` are the two maps of the reconciler, by the context of the worker;
      `previous` holds the namespaces in `previousNamespaceCR`; `live` are the contexts not
      cancelled yet, and `started` lists what each context was created for. */
  datatype State = State(
    managers: map<string, Context>, cancelFuncs: map<string, Context>, previous: set<string>,
    live: set<Context>, started: seq<Started>)

  const INITIAL := State(map[], map[], {}, {}, [])

  function Stop(s: State, ns: string): State {
    if ns !in s.cancelFuncs then s
    else State(s.managers - {ns}, s.cancelFuncs - {ns}, s.previous, s.live - {s.cancelFuncs[ns]}, s.started)
  }

  function Start(s: State, worker: Started): State {
    var context := |s.started|;
    State(s.managers[worker.ns := context], s.cancelFuncs[worker.ns := context], s.previous, s.live + {context},
          s.started + [worker])
  }

  predicate Repair(s: State, ns: string, spec: Settings, status: Settings) {
    ns !in s.previous || status.pairCluster != spec.pairCluster
  }

  predicate RestartRequired(s: State, ns: string, spec: Settings, status: Settings) {
    || status.components.collectorType != spec.components.collectorType
    || status.components.transportAdapter != spec.components.transportAdapter
    || Repair(s, ns, spec, status)
  }

  /** The status a reconcile that ends normally enqueues. */
  function NewStatus(s: State, ns: string, spec: Settings, status: Settings): Settings {
    var c := spec.components;
    Settings(
      DRComponents(
        if status.components.role == "" then c.role else status.components.role,
        if ns !in s.cancelFuncs || c.active != status.components.active then c.active else status.components.active,
        c.transportAdapter, c.collectorType),
      if Repair(s, ns, spec, status) then spec.pairCluster else status.pairCluster)
  }

  /** The worker a reconcile starts, if it starts one: the status has the spec's components by then. */
  function WorkerFor(ns: string, spec: Settings): Started {
    Started(ns, spec.components.transportAdapter, spec.components.collectorType)
  }

  /** The "sync Active" block. */
  function SyncActive(s: State, worker: Started, specActive: bool, statusActive: bool, restartRequire: bool): State {
    if worker.ns in s.cancelFuncs && specActive == statusActive then s
    else
      var t := if restartRequire || !specActive then Stop(s, worker.ns) else s;
      if specActive then Start(t, worker) else t
  }

  function Reconciled(s: State, ns: string, fetched: Fetched): (State, Result) {
    match fetched
    case ReadError => (s, Requeued)
    case NotFound =>
      var t := Stop(s, ns);
      (t.(managers := t.managers - {ns}), Finished(None))
    case Instance(spec, status) =>
      if Repair(s, ns, spec, status) && Refused(ns, spec.pairCluster) then (s, Requeued)
      else
        var t := SyncActive(s, WorkerFor(ns, spec), spec.components.active, status.components.active,
          RestartRequired(s, ns, spec, status));
        (t.(previous := t.previous + {ns}), Finished(Some(NewStatus(s, ns, spec, status))))
  }

  /** A reconcile that ends in starting a worker. */
  predicate Starts(s: State, ns: string, spec: Settings, status: Settings) {
    && !(Repair(s, ns, spec, status) && Refused(ns, spec.pairCluster))
    && spec.components.active && (ns !in s.cancelFuncs || !status.components.active)
  }

  /** A reconcile stores the filter configuration of a namespace it has not finished once, even when
      the pairing is refused afterwards; a worker it starts registers an aggregation of its own; ... */
  function FiltersLeft(c: FilterSide, s: State, ns: string, fetched: Fetched, config: DRFilterConfig): FilterSide {
    if !fetched.Instance? then c
    else
      var stored := if ns !in s.previous then StoreFilters(c, ns, Some(config)) else c;
      if Starts(s, ns, fetched.spec, fetched.status) then ListenFilters(stored, ns, []) else stored
  }

  /** ... and pairs the namespace anew then, and whenever the cluster has changed. */
  function ClustersLeft(c: ClusterSide, s: State, ns: string, fetched: Fetched): ClusterSide {
    if fetched.Instance? && Repair(s, ns, fetched.spec, fetched.status) then Pair(c, ns, fetched.spec.pairCluster)
      else c
  }

  /** The calls to the configuration container; false when it refuses the pairing. */
  method SyncConfigs(container: DrConfig, ns: string, first: bool, repair: bool, cluster: string,
      filterConfig: FilterConfigPointer)
    returns (ok: bool)
    requires container.ClustersValid() && container.FiltersValid() && filterConfig !in container.Pointers()
    modifies container`FilterConfigs, container`NamespaceConfigedCluster, container.Aggregations()
    modifies container.Transporters(), filterConfig
    ensures ok <==> !(repair && Refused(ns, cluster))
    ensures container.FiltersValid() && container.Aggregations() == old(container.Aggregations())
    ensures container.Pointers() <= old(container.Pointers()) + {filterConfig}
    ensures container.Clusters() ==
            if repair then Pair(old(container.Clusters()), ns, cluster) else old(container.Clusters())
    ensures container.Filters() ==
            if first then StoreFilters(old(container.Filters()), ns, Some(old(filterConfig.config)))
            else old(container.Filters())
  {
    if first {
      container.UpdateFilterConfigToContainer(ns, filterConfig);
    }
    ok := true;
    if repair {
      ok := container.UpdateNamespaceConfigedCluster(ns, cluster);
    }
  }

  class ReconcileDRNamespace {
    const container: DrConfig
    var drNamespaces: map<string, Context>
    var drNamespaceCtxCancelFunc: map<string, Context>
    var previousNamespaceCR: set<string>
    var uncancelled: set<Context>
    var contexts: seq<Started>

    constructor (container: DrConfig)
      ensures Abs() == INITIAL && this.container == container
    {
      this.container := container;
      drNamespaces, drNamespaceCtxCancelFunc, previousNamespaceCR := map[], map[], {};
      uncancelled, contexts := {}, [];
    }

    ghost function Abs(): State
      reads this
    {
      State(drNamespaces, drNamespaceCtxCancelFunc, previousNamespaceCR, uncancelled, contexts)
    }

    /** `filterConfig` points at the configuration in the instance, a new one with every read. */
    method Reconcile(ns: string, fetched: Fetched, filterConfig: FilterConfigPointer) returns (r: Result)
      requires container.ClustersValid() && container.FiltersValid() && filterConfig !in container.Pointers()
      modifies this, container`FilterConfigs, container`FilterConfigListeners, container`NamespaceConfigedCluster
      modifies container.Aggregations(), container.Transporters(), container.Pointers(), filterConfig
      ensures (Abs(), r) == Reconciled(old(Abs()), ns, fetched)
      ensures container.FiltersValid()
      ensures container.Clusters() == ClustersLeft(old(container.Clusters()), old(Abs()), ns, fetched)
      ensures container.Filters() ==
              FiltersLeft(old(container.Filters()), old(Abs()), ns, fetched, old(filterConfig.config))
    {
      match fetched
      case ReadError =>
        r := Requeued;
      case NotFound =>
        Forget(ns);
        r := Finished(None);
      case Instance(spec, status) =>
        r := ReconcileInstance(ns, spec, status, filterConfig);
    }

    method ReconcileInstance(ns: string, spec: Settings, status: Settings, filterConfig: FilterConfigPointer)
      returns (r: Result)
      requires container.ClustersValid() && container.FiltersValid() && filterConfig !in container.Pointers()
      modifies this, container`FilterConfigs, container`FilterConfigListeners, container`NamespaceConfigedCluster
      modifies container.Aggregations(), container.Transporters(), container.Pointers(), filterConfig
      ensures (Abs(), r) == Reconciled(old(Abs()), ns, Instance(spec, status))
      ensures container.FiltersValid()
      ensures container.Clusters() == ClustersLeft(old(container.Clusters()), old(Abs()), ns, Instance(spec, status))
      ensures container.Filters() ==
              FiltersLeft(old(container.Filters()), old(Abs()), ns, Instance(spec, status), old(filterConfig.config))
    {
      var first := ns !in previousNamespaceCR;
      var repair := first || status.pairCluster != spec.pairCluster;
      var ok := SyncConfigs(container, ns, first, repair, spec.pairCluster, filterConfig);
      if !ok {
        return Requeued;
      }
      r := Finish(ns, spec, status);
    }

    /** The rest: a worker that is started registers its filters while it is made. */
    method Finish(ns: string, spec: Settings, status: Settings) returns (r: Result)
      requires !(Repair(Abs(), ns, spec, status) && Refused(ns, spec.pairCluster)) && container.FiltersValid()
      modifies this, container`FilterConfigListeners, container.Aggregations(), container.Pointers()
      ensures (Abs(), r) == Reconciled(old(Abs()), ns, Instance(spec, status))
      ensures container.FiltersValid() && container.Clusters() == old(container.Clusters())
      ensures container.Filters() == if Starts(old(Abs()), ns, spec, status)
              then ListenFilters(old(container.Filters()), ns, []) else old(container.Filters())
    {
      if spec.components.active
        && (ns !in drNamespaceCtxCancelFunc || spec.components.active != status.components.active) {
        NewFilters(ns);
      }
      var left := FinishWorker(ns, spec, status);
      r := Finished(Some(left));
    }

    /** `GetFilterAggregation`, called by the constructor of a worker. */
    method NewFilters(ns: string)
      requires container.FiltersValid()
      modifies container`FilterConfigListeners, container.Aggregations(), container.Pointers()
      ensures container.FiltersValid() && container.Filters() == ListenFilters(old(container.Filters()), ns, [])
      ensures container.Clusters() == old(container.Clusters())
    {
      var aggregation := new FilterAggregation();
      assert container.Filters() == old(container.Filters()) && container.Clusters() == old(container.Clusters());
      Register(ns, aggregation);
    }

    method Register(ns: string, aggregation: FilterAggregation)
      requires container.FiltersValid() && aggregation !in container.Aggregations()
      modifies container`FilterConfigListeners, aggregation, container.Aggregations(), container.Pointers()
      ensures container.FiltersValid()
              && container.Filters() == ListenFilters(old(container.Filters()), ns, old(aggregation.Filters))
      ensures container.Clusters() == old(container.Clusters())
    {
      ghost var clusters := container.Clusters();
      container.RegFilterConfigListener(ns, aggregation);
      assert container.Clusters() == clusters;
    }

    /** What is left does not touch the container. */
    method FinishWorker(ns: string, spec: Settings, fetched: Settings) returns (status: Settings)
      requires !(Repair(Abs(), ns, spec, fetched) && Refused(ns, spec.pairCluster)) && container.FiltersValid()
      modifies this
      ensures (Abs(), Finished(Some(status))) == Reconciled(old(Abs()), ns, Instance(spec, fetched))
      ensures container.FiltersValid() && container.Filters() == old(container.Filters())
      ensures container.Clusters() == old(container.Clusters())
    {
      status := SyncWorker(ns, spec, fetched);
    }

    /** The fields of the status and the worker, once the container has taken the configuration. */
    method SyncWorker(ns: string, spec: Settings, fetched: Settings) returns (status: Settings)
      requires !(Repair(Abs(), ns, spec, fetched) && Refused(ns, spec.pairCluster))
      modifies this
      ensures (Abs(), Finished(Some(status))) == Reconciled(old(Abs()), ns, Instance(spec, fetched))
    {
      var restartRequire;
      status, restartRequire := SyncComponents(ns, spec, fetched);
      if ns !in previousNamespaceCR || status.pairCluster != spec.pairCluster {
        status := status.(pairCluster := spec.pairCluster);
        restartRequire := true;
      }
      var worker := Started(ns, status.components.transportAdapter, status.components.collectorType);
      var active := SyncActiveWorker(worker, spec.components.active, status.components.active, restartRequire);
      status := status.(components := status.components.(active := active));
      previousNamespaceCR := previousNamespaceCR + {ns};
    }

    /** The instance is gone. */
    method Forget(ns: string)
      modifies this`drNamespaces, this`drNamespaceCtxCancelFunc, this`uncancelled
      ensures Abs() == Reconciled(old(Abs()), ns, NotFound).0
    {
      if ns in drNamespaceCtxCancelFunc {
        uncancelled := uncancelled - {drNamespaceCtxCancelFunc[ns]};
      }
      drNamespaces := drNamespaces - {ns};
      drNamespaceCtxCancelFunc := drNamespaceCtxCancelFunc - {ns};
      assert ns !in old(drNamespaceCtxCancelFunc) ==> drNamespaceCtxCancelFunc == old(drNamespaceCtxCancelFunc);
      assert drNamespaces - {ns} == drNamespaces;
    }

    /** Role, collector and adapter, and whether so far a restart is required. */
    method SyncComponents(ns: string, spec: Settings, status: Settings) returns (synced: Settings, restartRequire: bool)
      ensures synced == Settings(
                DRComponents(if status.components.role == "" then spec.components.role else status.components.role,
                             status.components.active, spec.components.transportAdapter, spec.components.collectorType),
                status.pairCluster)
      ensures restartRequire <==>
                ns !in previousNamespaceCR || status.components.collectorType != spec.components.collectorType
                                  || status.components.transportAdapter != spec.components.transportAdapter
    {
      var components := status.components;
      restartRequire := false;
      if components.role == "" && spec.components.role != "" {
        components := components.(role := spec.components.role);
      }
      if components.collectorType != spec.components.collectorType {
        components := components.(collectorType := spec.components.collectorType);
        restartRequire := true;
      }
      if components.transportAdapter != spec.components.transportAdapter {
        components := components.(transportAdapter := spec.components.transportAdapter);
        restartRequire := true;
      }
      if ns !in previousNamespaceCR {
        restartRequire := true;
      }
      synced := status.(components := components);
    }

    /** The "sync Active" block; returns the new `Status.Active`. */
    method SyncActiveWorker(worker: Started, specActive: bool, statusActive: bool, restartRequire: bool)
      returns (active: bool)
      modifies this`drNamespaces, this`drNamespaceCtxCancelFunc, this`uncancelled, this`contexts
      ensures Abs() == SyncActive(old(Abs()), worker, specActive, statusActive, restartRequire)
      ensures active ==
              if worker.ns !in old(drNamespaceCtxCancelFunc) || specActive != statusActive then specActive
              else statusActive
    {
      var ns := worker.ns;
      active := statusActive;
      if ns !in drNamespaceCtxCancelFunc || specActive != statusActive {
        active := specActive;
        if restartRequire || !active {
          if ns in drNamespaceCtxCancelFunc {
            uncancelled := uncancelled - {drNamespaceCtxCancelFunc[ns]};
            drNamespaces := drNamespaces - {ns};
            drNamespaceCtxCancelFunc := drNamespaceCtxCancelFunc - {ns};
          }
        }
        if active {
          var drCtx := |contexts|;
          contexts, uncancelled := contexts + [worker], uncancelled + {drCtx};
          drNamespaces := drNamespaces[ns := drCtx];
          drNamespaceCtxCancelFunc := drNamespaceCtxCancelFunc[ns := drCtx];
        }
      }
    }
  }

  // ---------------------------------------------------------------------
  // Every sequence of reconciles
  // ---------------------------------------------------------------------

  /** The two maps agree, and the live contexts are exactly those in them: at most one for
      each namespace, the one the namespace's maps hold. */
  ghost predicate WorkersTracked(s: State) {
    && s.managers == s.cancelFuncs
    && (forall c | c in s.live ::
         c < |s.started| && s.started[c].ns in s.cancelFuncs && s.cancelFuncs[s.started[c].ns] == c)
    && (forall n | n in s.cancelFuncs :: s.cancelFuncs[n] in s.live && s.started[s.cancelFuncs[n]].ns == n)
  }

  /** Nothing that asks for a restart differs, and the namespace has been reconciled before. */
  ghost predicate NothingChanged(s: State, ns: string, spec: Settings, status: Settings) {
    && ns in s.previous && status.pairCluster == spec.pairCluster
    && status.components.transportAdapter == spec.components.transportAdapter
    && status.components.collectorType == spec.components.collectorType
  }

  /** One reconcile keeps track of every worker exactly when it is not in the position where the
      source starts a second one beside the first: a worker runs, the spec is active, and the
      status read says inactive but gives no other reason to restart. */
  lemma TrackedUnlessStale(s: State, ns: string, spec: Settings, status: Settings)
    requires WorkersTracked(s) && !(Repair(s, ns, spec, status) && Refused(ns, spec.pairCluster))
    ensures WorkersTracked(Reconciled(s, ns, Instance(spec, status)).0) <==>
            !(ns in s.cancelFuncs && spec.components.active && !status.components.active
              && NothingChanged(s, ns, spec, status))
  {
  }

  lemma StopTracked(s: State, ns: string)
    requires WorkersTracked(s)
    ensures WorkersTracked(Stop(s, ns)) && ns !in Stop(s, ns).cancelFuncs
  {
  }

  ghost predicate RunsFor(s: State, c: Context, ns: string) {
    c in s.live && c < |s.started| && s.started[c].ns == ns
  }

  /** Some worker of the namespace runs. */
  ghost predicate Running(s: State, ns: string) {
    exists c: Context :: RunsFor(s, c, ns)
  }

  lemma RunningIsTracked(s: State, ns: string)
    requires WorkersTracked(s)
    ensures Running(s, ns) <==> ns in s.cancelFuncs
  {
    if ns in s.cancelFuncs {
      assert RunsFor(s, s.cancelFuncs[ns], ns);
    }
  }

  /** After a successful reconcile a worker runs exactly when the spec is active, unless one ran
      while both spec and status said inactive. */
  lemma LiveIffActive(s: State, ns: string, spec: Settings, status: Settings)
    requires WorkersTracked(s) && !(Repair(s, ns, spec, status) && Refused(ns, spec.pairCluster))
    ensures var t := Reconciled(s, ns, Instance(spec, status)).0;
            (Running(t, ns) <==> spec.components.active) <==>
            !(Running(s, ns) && !spec.components.active && !status.components.active)
  {
    var t := Reconciled(s, ns, Instance(spec, status)).0;
    RunningIsTracked(s, ns);
    TrackedUnlessStale(s, ns, spec, status);
    if WorkersTracked(t) {
      RunningIsTracked(t, ns);
    } else {
      assert RunsFor(t, t.cancelFuncs[ns], ns);
    }
  }

  ghost predicate Matches(s: State, c: Context, ns: string, spec: Settings) {
    c < |s.started| && s.started[c] == Started(ns, spec.components.transportAdapter, spec.components.collectorType)
  }

  /** Every running worker of the namespace has the components of the spec. */
  ghost predicate UpToDate(s: State, ns: string, spec: Settings) {
    forall c: Context | RunsFor(s, c, ns) :: Matches(s, c, ns, spec)
  }

  /** A changed adapter or collector reaches the worker, unless one with other components runs and
      `Active` gives no occasion to replace it: the status agrees, or nothing requires a restart. */
  lemma UpToDateIff(s: State, ns: string, spec: Settings, status: Settings)
    requires WorkersTracked(s) && !(Repair(s, ns, spec, status) && Refused(ns, spec.pairCluster))
             && spec.components.active
    ensures UpToDate(Reconciled(s, ns, Instance(spec, status)).0, ns, spec) <==>
            !(ns in s.cancelFuncs && !Matches(s, s.cancelFuncs[ns], ns, spec)
              && (status.components.active || NothingChanged(s, ns, spec, status)))
  {
    var t := Reconciled(s, ns, Instance(spec, status)).0;
    if ns in s.cancelFuncs {
      var c := s.cancelFuncs[ns];
      assert RunsFor(s, c, ns);
      if status.components.active || !RestartRequired(s, ns, spec, status) {
        assert RunsFor(t, c, ns) && t.started[c] == s.started[c];
      }
    }
  }

  /** What happens to the DRNamespace of a namespace between two points of a run. A deletion is
      reconciled before the object is created again. */
  datatype Event =
    | Applied(ns: string, spec: Settings, config: DRFilterConfig)
    | Deleted(ns: string)
    | ReadFailed(ns: string)

  /** The reconciler, the status it last enqueued for each namespace, and what it leaves in the container. */
  datatype Cluster = Cluster(reconciler: State, statuses: map<string, Settings>, filters: FilterSide,
      clusters: ClusterSide)

  function StatusOf(c: Cluster, ns: string): Settings {
    if ns in c.statuses then c.statuses[ns] else FRESH_STATUS
  }

  function Step(c: Cluster, e: Event): Cluster {
    match e
    case ReadFailed(ns) => c.(reconciler := Reconciled(c.reconciler, ns, ReadError).0)
    case Deleted(ns) => c.(reconciler := Reconciled(c.reconciler, ns, NotFound).0, statuses := c.statuses - {ns})
    case Applied(ns, spec, config) =>
      var fetched := Instance(spec, StatusOf(c, ns));
      var (t, r) := Reconciled(c.reconciler, ns, fetched);
      Cluster(t,
              match r case Finished(Some(status)) => c.statuses[ns := status] case _ => c.statuses,
              FiltersLeft(c.filters, c.reconciler, ns, fetched, config),
              ClustersLeft(c.clusters, c.reconciler, ns, fetched))
  }

  function Run(c: Cluster, events: seq<Event>): Cluster
    decreases |events|
  {
    if events == [] then c else Run(Step(c, events[0]), events[1..])
  }

  /** The enqueued status of a namespace says active exactly when its worker runs. */
  ghost predicate StatusesTell(c: Cluster) {
    forall ns :: StatusOf(c, ns).components.active <==> ns in c.reconciler.cancelFuncs
  }

  lemma StepTracked(c: Cluster, e: Event)
    requires WorkersTracked(c.reconciler) && StatusesTell(c)
    ensures WorkersTracked(Step(c, e).reconciler) && StatusesTell(Step(c, e))
  {
    var s := c.reconciler;
    match e
    case ReadFailed(ns) =>
    case Deleted(ns) =>
      StopTracked(s, ns);
      var t := Stop(s, ns);
      assert t.managers - {ns} == t.managers;
      forall n ensures StatusOf(Step(c, e), n).components.active <==> n in t.cancelFuncs {
        assert StatusOf(c, n).components.active <==> n in s.cancelFuncs;
      }
    case Applied(ns, spec, _) =>
      if Repair(s, ns, spec, StatusOf(c, ns)) && Refused(ns, spec.pairCluster) {
        return;
      }
      TrackedUnlessStale(s, ns, spec, StatusOf(c, ns));
      assert StatusOf(c, ns).components.active <==> ns in s.cancelFuncs;
      forall n ensures StatusOf(Step(c, e), n).components.active <==> n in Step(c, e).reconciler.cancelFuncs {
        assert StatusOf(c, n).components.active <==> n in s.cancelFuncs;
      }
  }

  lemma {:induction false} RunTracked(c: Cluster, events: seq<Event>)
    requires WorkersTracked(c.reconciler) && StatusesTell(c)
    ensures WorkersTracked(Run(c, events).reconciler) && StatusesTell(Run(c, events))
    decreases |events|
  {
    if events != [] {
      StepTracked(c, events[0]);
      RunTracked(Step(c, events[0]), events[1..]);
    }
  }

  const START := Cluster(INITIAL, map[], FilterSide(map[], map[]), ClusterSide(map[], map[], map[]))

  /** Over every sequence of reconciles and deletions the two maps are equal, and at most one context
      of a namespace is uncancelled: the one in the maps. */
  lemma WorkerLifecycle(events: seq<Event>)
    ensures var t := Run(START, events).reconciler;
            && t.managers == t.cancelFuncs
            && (forall c | c in t.live :: c < |t.started|)
            && (forall c: Context, ns | RunsFor(t, c, ns) :: ns in t.cancelFuncs && t.cancelFuncs[ns] == c)
            && (forall ns | ns in t.cancelFuncs :: RunsFor(t, t.cancelFuncs[ns], ns))
  {
    RunTracked(START, events);
  }

  /** The pairing of the spec is not refused. */
  predicate Finishes(c: Cluster, ns: string, spec: Settings) {
    !(Repair(c.reconciler, ns, spec, StatusOf(c, ns)) && Refused(ns, spec.pairCluster))
  }

  /** After a spec has been reconciled to the end, at any point of any such sequence, a worker of the
      namespace runs exactly if the spec is active; after a deletion none does. */
  lemma LastEventDecides(events: seq<Event>, last: Event)
    requires last.Deleted? || (last.Applied? && Finishes(Run(START, events), last.ns, last.spec))
    ensures Running(Step(Run(START, events), last).reconciler, last.ns) <==>
              last.Applied? && last.spec.components.active
  {
    RunTracked(START, events);
    var c := Run(START, events);
    StepTracked(c, last);
    RunningIsTracked(Step(c, last).reconciler, last.ns);
    assert StatusOf(c, last.ns).components.active <==> last.ns in c.reconciler.cancelFuncs;
  }

  lemma {:induction false} RunLast(c: Cluster, events: seq<Event>, last: Event)
    ensures Run(c, events + [last]) == Step(Run(c, events), last)
    decreases |events|
  {
    if events == [] {
      assert [] + [last] == [last] && [last][1..] == [];
    } else {
      assert (events + [last])[1..] == events[1..] + [last];
      RunLast(Step(c, events[0]), events[1..], last);
    }
  }

  /** A new adapter on an active namespace: the status claims it, the worker keeps running with the old one. */
  lemma ChangedAdapterIgnored(ns: string, spec: Settings, adapter: string, config: DRFilterConfig)
    requires !Refused(ns, spec.pairCluster) && spec.components.active && adapter != spec.components.transportAdapter
    ensures var changed := spec.(components := spec.components.(transportAdapter := adapter));
            var c := Run(START, [Applied(ns, spec, config), Applied(ns, changed, config)]);
            && StatusOf(c, ns).components.transportAdapter == adapter
            && RunsFor(c.reconciler, 0, ns)
            && c.reconciler.started[0].transportAdapter == spec.components.transportAdapter
            && !UpToDate(c.reconciler, ns, changed)
  {
    var changed := spec.(components := spec.components.(transportAdapter := adapter));
    var one, two := TwoApplied(ns, spec, changed, config);
    assert RunsFor(two.reconciler, 0, ns);
  }

  lemma TwoApplied(ns: string, spec: Settings, changed: Settings, config: DRFilterConfig)
    returns (one: Cluster, two: Cluster)
    ensures one == Step(START, Applied(ns, spec, config)) && two == Step(one, Applied(ns, changed, config))
    ensures two == Run(START, [Applied(ns, spec, config), Applied(ns, changed, config)])
  {
    var events := [Applied(ns, spec, config), Applied(ns, changed, config)];
    one := Step(START, events[0]);
    two := Step(one, events[1]);
    assert events[1..] == [events[1]] && events[1..][1..] == [];
    assert Run(START, events) == Run(one, events[1..]) == Run(two, []) == two;
  }

  /** A second worker beside the first: a namespace is made active, and the next reconcile still reads
      the status from before. */
  lemma StaleStatusStartsSecond(ns: string, off: Settings, config: DRFilterConfig)
    requires !Refused(ns, off.pairCluster) && !off.components.active
    ensures var spec := off.(components := off.components.(active := true));
            var stale := StatusOf(Run(START, [Applied(ns, off, config)]), ns);
            var c := Run(START, [Applied(ns, off, config), Applied(ns, spec, config)]);
            var t := Reconciled(c.reconciler, ns, Instance(spec, stale)).0;
            RunsFor(t, 0, ns) && RunsFor(t, 1, ns)
  {
    var spec := off.(components := off.components.(active := true));
    var one, two := TwoApplied(ns, off, spec, config);
    assert [Applied(ns, off, config)][1..] == [];
    assert Run(START, [Applied(ns, off, config)]) == Run(one, []) == one;
    assert two.reconciler.cancelFuncs == map[ns := 0] && two.reconciler.live == {0};
  }

  // ---------------------------------------------------------------------
  // The status and the pairing
  // ---------------------------------------------------------------------

  /** A reconcile is tried again exactly if it would pair what cannot be paired, and has then changed no
      worker. Otherwise the status shows the spec, but for a role it already had. */
  lemma StatusShowsSpec(s: State, ns: string, spec: Settings, status: Settings)
    ensures var (t, r) := Reconciled(s, ns, Instance(spec, status));
            if (ns !in s.previous || status.pairCluster != spec.pairCluster) && (ns == "" || spec.pairCluster == "")
            then r == Requeued && t == s
            else
              && r.Finished? && r.status.Some? && t.previous == s.previous + {ns}
              && r.status.value.pairCluster == spec.pairCluster
              && r.status.value.components == spec.components.(
                   role := if status.components.role == "" then spec.components.role else status.components.role)
  {
  }

  /** Until the DRNamespace is deleted a role in its status stays, whatever the specs say. */
  lemma {:induction false} RoleStays(c: Cluster, events: seq<Event>, ns: string)
    requires StatusOf(c, ns).components.role != "" && Deleted(ns) !in events
    ensures StatusOf(Run(c, events), ns).components.role == StatusOf(c, ns).components.role
    decreases |events|
  {
    if events != [] {
      var e := events[0];
      assert e != Deleted(ns);
      assert StatusOf(Step(c, e), ns).components.role == StatusOf(c, ns).components.role;
      RoleStays(Step(c, e), events[1..], ns);
    }
  }

  /** A namespace whose status names a cluster is paired with it. */
  ghost predicate PairedAsShown(c: Cluster) {
    forall ns | StatusOf(c, ns).pairCluster != "" ::
      ns in c.clusters.pairings && c.clusters.pairings[ns] == StatusOf(c, ns).pairCluster
  }

  lemma StepPairs(c: Cluster, e: Event)
    requires PairedAsShown(c)
    ensures PairedAsShown(Step(c, e))
  {
    if e.Applied? {
      StatusShowsSpec(c.reconciler, e.ns, e.spec, StatusOf(c, e.ns));
    }
    var t := Step(c, e);
    forall ns | StatusOf(t, ns).pairCluster != ""
      ensures ns in t.clusters.pairings && t.clusters.pairings[ns] == StatusOf(t, ns).pairCluster
    {
      assert StatusOf(c, ns).pairCluster != "" ==> ns in c.clusters.pairings;
    }
  }

  lemma {:induction false} RunPairs(c: Cluster, events: seq<Event>)
    requires PairedAsShown(c)
    ensures PairedAsShown(Run(c, events))
    decreases |events|
  {
    if events != [] {
      StepPairs(c, events[0]);
      RunPairs(Step(c, events[0]), events[1..]);
    }
  }

  /** After a spec has been reconciled to the end, at any point of any sequence, its namespace is paired
      with the cluster it names; one that names none, which only a namespace gets away with whose status
      names none either, leaves the pairings alone. */
  lemma PairedAsSpec(events: seq<Event>, last: Event)
    requires last.Applied? && Finishes(Run(START, events), last.ns, last.spec)
    ensures var c := Run(START, events);
            var t := Step(c, last);
            if last.spec.pairCluster != "" then
              last.ns in t.clusters.pairings && t.clusters.pairings[last.ns] == last.spec.pairCluster
            else t.clusters == c.clusters && last.ns in c.reconciler.previous
  {
    var c := Run(START, events);
    assert PairedAsShown(START);
    RunPairs(START, events);
    StepPairs(c, last);
    StatusShowsSpec(c.reconciler, last.ns, last.spec, StatusOf(c, last.ns));
  }

  // ---------------------------------------------------------------------
  // When a worker runs
  // ---------------------------------------------------------------------

  /** Event `i` is a deletion of the namespace, or a reconcile of it that comes to its end. */
  ghost predicate DecidesRunning(events: seq<Event>, ns: string, i: nat) {
    && i < |events| && events[i].ns == ns
    && (events[i].Deleted? || (events[i].Applied? && Finishes(Run(START, events[..i]), ns, events[i].spec)))
  }

  /** Any other event leaves the namespace's worker as it is. */
  lemma OthersKeepRunning(c: Cluster, e: Event, ns: string)
    requires WorkersTracked(c.reconciler) && StatusesTell(c)
    requires e.ns != ns || e.ReadFailed? || (e.Applied? && !Finishes(c, ns, e.spec))
    ensures Running(Step(c, e).reconciler, ns) <==> Running(c.reconciler, ns)
  {
    StepTracked(c, e);
    RunningIsTracked(c.reconciler, ns);
    RunningIsTracked(Step(c, e).reconciler, ns);
  }

  /** Over every sequence of events: a worker of the namespace runs exactly if the last event that decides
      was a reconcile of an active spec, whatever has happened since and elsewhere. */
  lemma {:induction false} RunningIff(events: seq<Event>, ns: string, i: nat)
    requires DecidesRunning(events, ns, i) && forall k | i < k < |events| :: !DecidesRunning(events, ns, k)
    ensures Running(Run(START, events).reconciler, ns) <==> events[i].Applied? && events[i].spec.components.active
    decreases |events|
  {
    var n := |events| - 1;
    var before, last := events[..n], events[n];
    assert events == before + [last];
    RunLast(START, before, last);
    if i == n {
      LastEventDecides(before, last);
    } else {
      RunTracked(START, before);
      assert !DecidesRunning(events, ns, n);
      OthersKeepRunning(Run(START, before), last, ns);
      assert forall k: nat | k < n :: before[..k] == events[..k];
      assert forall k: nat | k < n :: DecidesRunning(before, ns, k) <==> DecidesRunning(events, ns, k);
      RunningIff(before, ns, i);
    }
  }

  /** And none runs before any event has decided. */
  lemma {:induction false} NoneRuns(events: seq<Event>, ns: string)
    requires forall k :: !DecidesRunning(events, ns, k)
    ensures !Running(Run(START, events).reconciler, ns)
    decreases |events|
  {
    if events != [] {
      var n := |events| - 1;
      var before, last := events[..n], events[n];
      assert events == before + [last];
      RunLast(START, before, last);
      RunTracked(START, before);
      assert !DecidesRunning(events, ns, n);
      OthersKeepRunning(Run(START, before), last, ns);
      assert forall k: nat | k < n :: before[..k] == events[..k];
      assert forall k: nat | k < n :: DecidesRunning(before, ns, k) <==> DecidesRunning(events, ns, k);
      NoneRuns(before, ns);
    }
  }

  // ---------------------------------------------------------------------
  // The filter configuration in force
  // ---------------------------------------------------------------------

  /** The event is a reconcile of the namespace, ... */
  ghost predicate AppliedAt(events: seq<Event>, ns: string, i: nat) {
    i < |events| && events[i].Applied? && events[i].ns == ns
  }

  /** ... which comes to its end. */
  ghost predicate FinishedAt(events: seq<Event>, ns: string, i: nat) {
    AppliedAt(events, ns, i) && Finishes(Run(START, events[..i]), ns, events[i].spec)
  }

  lemma FinishedBefore(before: seq<Event>, last: Event, ns: string, i: nat)
    requires i < |before|
    ensures FinishedAt(before + [last], ns, i) <==> FinishedAt(before, ns, i)
    ensures AppliedAt(before + [last], ns, i) <==> AppliedAt(before, ns, i)
  {
    assert (before + [last])[..i] == before[..i];
  }

  /** A namespace counts as seen exactly once some reconcile of it has finished. */
  lemma {:induction false} PreviousIff(events: seq<Event>, ns: string)
    ensures ns in Run(START, events).reconciler.previous <==> exists i :: FinishedAt(events, ns, i)
    decreases |events|
  {
    if events != [] {
      var n := |events| - 1;
      var before, last := events[..n], events[n];
      assert events == before + [last];
      RunLast(START, before, last);
      PreviousIff(before, ns);
      forall i: nat | i < n ensures FinishedAt(events, ns, i) <==> FinishedAt(before, ns, i) {
        FinishedBefore(before, last, ns, i);
      }
      assert FinishedAt(events, ns, n) <==>
        last.Applied? && last.ns == ns && Finishes(Run(START, before), ns, last.spec);
      if exists i :: FinishedAt(before, ns, i) {
        var i :| FinishedAt(before, ns, i);
        assert FinishedAt(events, ns, i);
      }
    }
  }

  /** The configuration of event `i` is the one that counts: no reconcile of the namespace finished
      before, and either this one does, or it is the last so far. */
  ghost predicate Decides(events: seq<Event>, ns: string, i: nat) {
    && AppliedAt(events, ns, i)
    && (forall k: nat | k < i :: !FinishedAt(events, ns, k))
    && (FinishedAt(events, ns, i) || forall k: nat | i < k :: !AppliedAt(events, ns, k))
  }

  lemma DecidesBefore(before: seq<Event>, last: Event, ns: string, i: nat)
    requires Decides(before + [last], ns, i) && i < |before|
    ensures Decides(before, ns, i)
  {
    forall k: nat | k < |before|
      ensures FinishedAt(before + [last], ns, k) <==> FinishedAt(before, ns, k)
      ensures AppliedAt(before + [last], ns, k) <==> AppliedAt(before, ns, k)
    {
      FinishedBefore(before, last, ns, k);
    }
  }

  lemma FiltersLeftKeeps(c: FilterSide, s: State, ns: string, fetched: Fetched, config: DRFilterConfig)
    requires FiltersCoherent(c)
    ensures FiltersCoherent(FiltersLeft(c, s, ns, fetched, config))
  {
    ApplyKeepsFilters(c, UpdateFilters(ns, Some(config)));
    ApplyKeepsFilters(c, StartFilters(ns));
    ApplyKeepsFilters(StoreFilters(c, ns, Some(config)), StartFilters(ns));
  }

  /** Every aggregation runs its namespace's stored configuration, and a running worker has one. */
  ghost predicate Filtering(c: Cluster) {
    FiltersCoherent(c.filters) && forall ns | ns in c.reconciler.cancelFuncs :: ns in c.filters.chains
  }

  lemma StepFilters(c: Cluster, e: Event)
    requires Filtering(c)
    ensures Filtering(Step(c, e))
  {
    if e.Applied? {
      FiltersLeftKeeps(c.filters, c.reconciler, e.ns, Instance(e.spec, StatusOf(c, e.ns)), e.config);
    }
  }

  lemma {:induction false} RunFilters(c: Cluster, events: seq<Event>)
    requires Filtering(c)
    ensures Filtering(Run(c, events))
    decreases |events|
  {
    if events != [] {
      StepFilters(c, events[0]);
      RunFilters(Step(c, events[0]), events[1..]);
    }
  }

  /** The stored configuration is `config`, enriched `n` times, at least once if it is in use. */
  ghost predicate Holds(c: FilterSide, ns: string, config: DRFilterConfig, n: nat) {
    StoredFilters(c, ns) == Some(EnrichTimes(config, n)) && (ns in c.chains ==> n > 0)
  }

  lemma StoringHolds(c: FilterSide, ns: string, config: DRFilterConfig) returns (n: nat)
    ensures Holds(StoreFilters(c, ns, Some(config)), ns, config, n)
  {
    n := if ns in c.chains then 1 else 0;
  }

  lemma ListeningHolds(c: FilterSide, ns: string, other: string, config: DRFilterConfig, n: nat) returns (m: nat)
    requires Holds(c, ns, config, n)
    ensures Holds(ListenFilters(c, other, []), ns, config, m)
  {
    m := if other == ns then n + 1 else n;
  }

  lemma OthersHold(c: FilterSide, ns: string, other: string, stored: DRFilterConfig, config: DRFilterConfig, n: nat)
    requires Holds(c, ns, config, n) && other != ns
    ensures Holds(StoreFilters(c, other, Some(stored)), ns, config, n)
  {
  }

  /** Whatever comes later: the configuration of the first reconcile that finished stays stored, and
      until one has, that of the latest. */
  lemma {:induction false} ConfigInForce(events: seq<Event>, ns: string, i: nat) returns (n: nat)
    requires Decides(events, ns, i)
    ensures Holds(Run(START, events).filters, ns, events[i].config, n)
    decreases |events|
  {
    var last := |events| - 1;
    var before, e := events[..last], events[last];
    assert events == before + [e];
    RunLast(START, before, e);
    PreviousIff(before, ns);
    var c := Run(START, before);
    forall k: nat | k < last ensures FinishedAt(before, ns, k) <==> FinishedAt(events, ns, k) {
      FinishedBefore(before, e, ns, k);
    }
    if i == last {
      n := StoringHolds(c.filters, ns, e.config);
      if Starts(c.reconciler, ns, e.spec, StatusOf(c, ns)) {
        n := ListeningHolds(StoreFilters(c.filters, ns, Some(e.config)), ns, ns, e.config, n);
      }
    } else {
      DecidesBefore(before, e, ns, i);
      n := ConfigInForce(before, ns, i);
      if e.Applied? {
        if e.ns == ns {
          assert AppliedAt(events, ns, last) && FinishedAt(before, ns, i);
        }
        n := LaterHolds(c, e, ns, before[i].config, n);
      }
    }
  }

  lemma LaterHolds(c: Cluster, e: Event, ns: string, config: DRFilterConfig, n: nat) returns (m: nat)
    requires Holds(c.filters, ns, config, n) && e.Applied? && (e.ns == ns ==> ns in c.reconciler.previous)
    ensures Holds(Step(c, e).filters, ns, config, m)
  {
    var stored := if e.ns !in c.reconciler.previous then StoreFilters(c.filters, e.ns, Some(e.config)) else c.filters;
    if e.ns !in c.reconciler.previous {
      OthersHold(c.filters, ns, e.ns, e.config, config, n);
    }
    m := n;
    if Starts(c.reconciler, e.ns, e.spec, StatusOf(c, e.ns)) {
      m := ListeningHolds(stored, ns, e.ns, config, n);
    }
  }

  /** So every worker that runs filters every object as the first finished reconcile of its namespace
      says, over every continuation, restarts and re-creations included. */
  lemma WorkersFilterAlike(events: seq<Event>, ns: string, i: nat, orders: seq<Mapping.Orders>,
      gvr: GroupVersionResource, d: Document)
    requires Decides(events, ns, i) && Running(Run(START, events).reconciler, ns)
    ensures ns in Run(START, events).filters.chains
    ensures var chain := Run(START, events).filters.chains[ns];
            OrdersFit(chain, orders) ==>
              && OrdersFit(Chain(Some(Enrich(events[i].config))), orders)
              && ChainOut(chain, orders, gvr, d) == ChainOut(Chain(Some(Enrich(events[i].config))), orders, gvr, d)
  {
    RunTracked(START, events);
    RunningIsTracked(Run(START, events).reconciler, ns);
    RunFilters(START, events);
    var n := ConfigInForce(events, ns, i);
    var c := Run(START, events).filters;
    assert c.chains[ns] == Chain(StoredFilters(c, ns));
    if OrdersFit(c.chains[ns], orders) {
      EnrichmentStable(events[i].config, n, orders, gvr, d);
    }
  }
}
