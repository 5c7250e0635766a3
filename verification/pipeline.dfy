/**
 The replication pipeline of one namespace as a machine: the loop of the dependency
 worker and the loop of the transport manager, joined by two queues with retry and by the
 map of transported versions. Each iteration of a loop, each arrival and each expiry of a
 delay is one atomic step, and any interleaving of steps is a run.

 The fields from `entered` on are history: they record what happened and decide nothing.
 */
module Pipeline {
  import opened Wrappers
  import opened Json
  import opened Strconv
  import opened ApiTypes
  import opened Objects
  import opened WorkQueue
  import Mapping = VariableMappingFilter
  import opened FilterChain
  import opened DependencyCheckers
  import opened KubeTransporter

  datatype DropReason = OutOfScope | FilterRejected | FilterErrored | LookupFailed

  /** An object that was in scope and passed the filters: who it was when admitted, the uids its
      dependencies were resolved to, those it has to wait for, and whether it was handed over. */
  datatype Admission = Admission(ref: Ref, ns: string, uid: string, resolved: seq<string>, waitsFor: seq<string>,
      handed: bool)

  /** A version recorded as transported. `wrote` tells a write from an "already exists". */
  datatype Success = Success(ref: Ref, uid: string, version: string, action: ObjectAction, wrote: bool)

  datatype State = State(
    heap: Heap,
    namespace: string,
    filters: seq<Filter>,
    workerQueue: Queue<Ref>,
    dependencies: set<string>,
    transportQueue: Queue<Ref>,
    versions: map<string, string>,
    settings: Option<PairClusterSettings>,
    remote: Remote,
    entered: set<Ref>,
    admissions: seq<Admission>,
    handed: map<Ref, nat>,
    dropped: map<Ref, DropReason>,
    successes: seq<Success>,
    settled: map<Ref, (string, string)>)

  /** A worker that starts: nothing is recorded, whatever the paired cluster holds by then. */
  function Initial(namespace: string, remote: Remote): State {
    State(Heap([], []), namespace, [], Empty(), {}, Empty(), map[], None, remote, {}, [], map[], map[], [], map[])
  }

  // ---------------------------------------------------------------------
  // The worker
  // ---------------------------------------------------------------------

  ghost predicate ValidRef(s: State, ref: Ref) {
    s.heap.Valid() && ref < |s.heap.objs|
  }

  /** `objEnqueue`: an event from the collector, always a new object. */
  function Arrive(s: State, gvr: GroupVersionResource, namespaced: bool, action: ObjectAction, d: Document): State
    requires s.heap.Valid()
  {
    var ref := |s.heap.objs|;
    s.(heap := Heap(s.heap.objs + [ObjResource(|s.heap.trees|, gvr, namespaced, action)], s.heap.trees + [d]),
       workerQueue := s.workerQueue.AddRateLimited(ref),
       entered := s.entered + {ref})
  }

  function Drop(s: State, ref: Ref, reason: DropReason): State {
    s.(dropped := s.dropped[ref := reason])
  }

  /** `AddResourceObj`. */
  function HandOver(s: State, ref: Ref, a: Admission): State {
    s.(transportQueue := s.transportQueue.Add(ref), handed := s.handed[ref := |s.admissions|],
      admissions := s.admissions + [a])
  }

  /** The object and the dependencies it lacks are queued again, the latter also become in scope. */
  function Wait(s: State, ref: Ref, lacking: seq<Ref>, uids: set<string>, a: Admission): State {
    var more := set d | d in lacking;
    s.(workerQueue := s.workerQueue.(waiting := s.workerQueue.waiting + {ref} + more),
       dependencies := s.dependencies + uids,
       entered := s.entered + more,
       admissions := s.admissions + [a])
  }

  /** `getNotTransportedDependencies`. */
  function Untransported(h: Heap, deps: seq<Ref>, versions: map<string, string>): (r: seq<Ref>)
    requires h.Valid() && forall i | 0 <= i < |deps| :: deps[i] < |h.objs|
    ensures forall d :: d in r <==> d in deps && h.Uid(d) !in versions
    ensures forall i | 0 <= i < |r| :: r[i] in deps
  {
    if deps == [] then []
    else
      var rest := Untransported(h, deps[1..], versions);
      assert forall d :: d in deps <==> d == deps[0] || d in deps[1..];
      if h.Uid(deps[0]) in versions then rest else [deps[0]] + rest
  }

  function Uids(h: Heap, refs: seq<Ref>): (r: seq<string>)
    requires h.Valid() && forall i | 0 <= i < |refs| :: refs[i] < |h.objs|
    ensures |r| == |refs| && forall i | 0 <= i < |r| :: r[i] == h.Uid(refs[i])
  {
    seq(|refs|, i requires 0 <= i < |refs| => h.Uid(refs[i]))
  }

  /** The end of `run`: hand over when all dependencies are transported, wait otherwise. */
  function Gate(s: State, ref: Ref, ns: string, uid: string, deps: seq<Ref>): State
    requires s.heap.Valid() && forall i | 0 <= i < |deps| :: deps[i] < |s.heap.objs|
  {
    var lacking := Untransported(s.heap, deps, s.versions);
    var lacks := Uids(s.heap, lacking);
    var a := Admission(ref, ns, uid, Uids(s.heap, deps), lacks, lacking == []);
    if lacking == [] then HandOver(s, ref, a) else Wait(s, ref, lacking, (set u | u in lacks), a)
  }

  /** `run` once the filters have answered; `s` already holds the rewritten object. */
  function AfterFilter(s: State, ref: Ref, cluster: Cluster, ns: string, uid: string,
      verdict: FilterVerdict): Option<State>
    requires s.heap.Valid() && ref < |s.heap.objs|
  {
    match verdict
    case Panic => None
    case Reject => Some(Drop(s, ref, FilterRejected))
    case Error => Some(Drop(s, ref, FilterErrored))
    case Accept =>
      if s.heap.objs[ref].action.Delete? then
        Some(HandOver(s.(dependencies := s.dependencies - {s.heap.Uid(ref)}), ref,
          Admission(ref, ns, uid, [], [], true)))
      else
        match GetDependencies(s.heap, ref, cluster)
        case CheckPanic => None
        case LookupError => Some(Drop(s, ref, LookupFailed))
        case Resolved(heap, deps) => Some(Gate(s.(heap := heap), ref, ns, uid, deps))
  }

  /** `run` between taking `ref` from the queue and `Done`; None is a panic, which ends the process. */
  ghost function Process(s: State, ref: Ref, cluster: Cluster, orders: seq<Mapping.Orders>): Option<State>
    requires ValidRef(s, ref) && OrdersFit(s.filters, orders)
  {
    var t := s.heap.Tree(ref);
    var ns, uid := GetObjectNamespace(t), GetUID(t);
    if uid !in s.dependencies && ns != s.namespace then Some(Drop(s, ref, OutOfScope))
    else
      var r := ChainOut(s.filters, orders, s.heap.objs[ref].gvr, t);
      AfterFilter(s.(heap := s.heap.Rewrite(ref, r.tree)), ref, cluster, ns, uid, r.verdict)
  }

  ghost function WorkerRun(s: State, cluster: Cluster, orders: seq<Mapping.Orders>): Option<State>
    requires s.workerQueue.queue != [] && ValidRef(s, s.workerQueue.queue[0]) && OrdersFit(s.filters, orders)
  {
    var ref := s.workerQueue.queue[0];
    match Process(s.(workerQueue := s.workerQueue.Get()), ref, cluster, orders)
    case None => None
    case Some(t) => Some(t.(workerQueue := t.workerQueue.Done(ref)))
  }

  // ---------------------------------------------------------------------
  // The transport manager
  // ---------------------------------------------------------------------

  /** `isNewVersion`. */
  function IsNewVersion(versions: map<string, string>, uid: string, version: string): bool {
    uid in versions ==> Atoi(versions[uid]).0 < Atoi(version).0
  }

  /** `transport` ends in a panic, which ends the process. */
  predicate SendPanics(s: State, ref: Ref, fault: Option<Fault>)
    requires ValidRef(s, ref)
  {
    var d := s.heap.Tree(ref);
    IsNewVersion(s.versions, GetUID(d), GetResourceVersion(d))
      && ReadPanics(s.settings, s.heap.objs[ref].action, d, fault)
  }

  /** `transport` between taking `ref` from the queue and `Done`. */
  function Send(s: State, ref: Ref, fault: Option<Fault>): State
    requires ValidRef(s, ref) && !SendPanics(s, ref, fault)
  {
    var o := s.heap.objs[ref];
    var d := s.heap.Tree(ref);
    var uid, version := GetUID(d), GetResourceVersion(d);
    if !IsNewVersion(s.versions, uid, version) then s.(settled := s.settled[ref := (uid, version)])
    else
      var (remote, err) := TransportTo(s.remote, s.settings, o.gvr, o.action, d, fault);
      var t := s.(remote := remote);
      if err == Some(OtherError) then t.(transportQueue := t.transportQueue.AddRateLimited(ref))
      else
        t.(versions := t.versions[uid := version],
           successes := t.successes + [Success(ref, uid, version, o.action, err.None?)],
           settled := t.settled[ref := (uid, version)])
  }

  ghost predicate TransportReturns(s: State, fault: Option<Fault>) {
    && s.transportQueue.queue != [] && ValidRef(s, s.transportQueue.queue[0])
    && !SendPanics(s, s.transportQueue.queue[0], fault)
  }

  ghost function TransportRun(s: State, fault: Option<Fault>): State
    requires TransportReturns(s, fault)
  {
    var ref := s.transportQueue.queue[0];
    var t := Send(s.(transportQueue := s.transportQueue.Get()), ref, fault);
    t.(transportQueue := t.transportQueue.Done(ref))
  }

  // ---------------------------------------------------------------------
  // Runs
  // ---------------------------------------------------------------------

  datatype Event =
    | ObjectArrives(gvr: GroupVersionResource, namespaced: bool, action: ObjectAction, d: Document)
    | WorkerDelayEnds(ref: Ref)
    | WorkerRuns(cluster: Cluster, orders: seq<Mapping.Orders>)
    | TransportDelayEnds(ref: Ref)
    | TransportRuns(fault: Option<Fault>)
    | FiltersChange(filters: seq<Filter>)
    | SettingsChange(settings: PairClusterSettings)

  ghost predicate Enabled(s: State, e: Event) {
    s.heap.Valid() &&
    match e
    case WorkerDelayEnds(ref) => ref in s.workerQueue.waiting
    case WorkerRuns(cluster, orders) =>
      && s.workerQueue.queue != [] && ValidRef(s, s.workerQueue.queue[0]) && OrdersFit(s.filters, orders)
      && WorkerRun(s, cluster, orders).Some?
    case TransportDelayEnds(ref) => ref in s.transportQueue.waiting
    case TransportRuns(fault) => TransportReturns(s, fault)
    case _ => true
  }

  ghost function Step(s: State, e: Event): State
    requires Enabled(s, e)
  {
    match e
    case ObjectArrives(gvr, namespaced, action, d) => Arrive(s, gvr, namespaced, action, d)
    case WorkerDelayEnds(ref) => s.(workerQueue := s.workerQueue.Expire(ref))
    case WorkerRuns(cluster, orders) => WorkerRun(s, cluster, orders).value
    case TransportDelayEnds(ref) => s.(transportQueue := s.transportQueue.Expire(ref))
    case TransportRuns(fault) => TransportRun(s, fault)
    case FiltersChange(filters) => s.(filters := filters)
    case SettingsChange(settings) => s.(settings := Some(settings))
  }

  /** `t` is reached from `s` by these events, in this order. */
  ghost predicate Run(s: State, events: seq<Event>, t: State)
    decreases |events|
  {
    if events == [] then s == t else Enabled(s, events[0]) && Run(Step(s, events[0]), events[1..], t)
  }

  // ---------------------------------------------------------------------
  // Conservation: every object is in exactly one place
  // ---------------------------------------------------------------------

  /** An object that entered is pending, handed over or dropped; one handed over is still
      pending at the transport manager or settled there. */
  ghost predicate OnePlace(
    bound: nat, entered: set<Ref>, pending: set<Ref>, handed: set<Ref>, dropped: set<Ref>, sending: set<Ref>,
      settled: set<Ref>)
  {
    && (forall r | r in entered :: r < bound)
    && entered == pending + handed + dropped
    && pending !! handed && pending !! dropped && handed !! dropped
    && handed == sending + settled
    && sending !! settled
  }

  ghost predicate Conserved(s: State) {
    && s.heap.Valid()
    && s.workerQueue.Idle() && s.transportQueue.Idle()
    && OnePlace(|s.heap.objs|, s.entered, s.workerQueue.Pending(), s.handed.Keys, s.dropped.Keys,
                s.transportQueue.Pending(), s.settled.Keys)
  }

  /** `handed` points at the one admission that handed the object over. */
  ghost predicate HandedOnce(handed: map<Ref, nat>, admissions: seq<Admission>) {
    && (forall r | r in handed ::
         handed[r] < |admissions| && admissions[handed[r]].ref == r && admissions[handed[r]].handed)
    && (forall k | 0 <= k < |admissions| && admissions[k].handed ::
         admissions[k].ref in handed && handed[admissions[k].ref] == k)
  }

  // ---------------------------------------------------------------------
  // Versions and successes
  // ---------------------------------------------------------------------

  ghost predicate SuccessfulAt(successes: seq<Success>, j: int, u: string) {
    0 <= j < |successes| && successes[j].uid == u
  }

  /** The keys of `versions` are the uids that ever succeeded, and each holds its highest version. */
  ghost predicate VersionsAreSuccesses(versions: map<string, string>, successes: seq<Success>) {
    && (forall u | u in versions :: exists i :: SuccessfulAt(successes, i, u))
    && (forall i | 0 <= i < |successes| :: Covered(versions, successes[i].uid, successes[i].version))
  }

  ghost predicate Covered(versions: map<string, string>, uid: string, version: string) {
    uid in versions && Atoi(version).0 <= Atoi(versions[uid]).0
  }

  /** Successive successes of one uid have strictly increasing versions. */
  ghost predicate Increasing(successes: seq<Success>) {
    forall i, j | 0 <= i < j < |successes| && successes[i].uid == successes[j].uid ::
      Atoi(successes[i].version).0 < Atoi(successes[j].version).0
  }

  /** A settled object's version is covered by what is recorded for its uid. */
  ghost predicate SettledCovered(settled: map<Ref, (string, string)>, versions: map<string, string>) {
    forall r | r in settled :: Covered(versions, settled[r].0, settled[r].1)
  }

  // ---------------------------------------------------------------------
  // Dependencies
  // ---------------------------------------------------------------------

  ghost predicate ResolvedTransported(admissions: seq<Admission>, versions: map<string, string>) {
    forall k, u | 0 <= k < |admissions| && admissions[k].handed && u in admissions[k].resolved :: u in versions
  }

  ghost predicate SuccessfulBefore(successes: seq<Success>, i: int, u: string) {
    exists j :: j < i && SuccessfulAt(successes, j, u)
  }

  /** A success of a handed-over object comes after successes of all its dependencies. */
  ghost predicate DependenciesFirst(successes: seq<Success>, handed: map<Ref, nat>, admissions: seq<Admission>) {
    forall i | 0 <= i < |successes| ::
      && successes[i].ref in handed
      && handed[successes[i].ref] < |admissions|
      && forall u | u in admissions[handed[successes[i].ref]].resolved :: SuccessfulBefore(successes, i, u)
  }

  // ---------------------------------------------------------------------
  // Scope
  // ---------------------------------------------------------------------

  ghost predicate RequestedBefore(admissions: seq<Admission>, k: int, u: string) {
    exists j :: 0 <= j < k && j < |admissions| && u in admissions[j].waitsFor
  }

  /** Every uid in scope was asked for by an earlier admission, and every admission was in
      the namespace or asked for. */
  ghost predicate InScope(namespace: string, dependencies: set<string>, admissions: seq<Admission>) {
    && (forall u | u in dependencies :: RequestedBefore(admissions, |admissions|, u))
    && (forall k | 0 <= k < |admissions| ::
          admissions[k].ns == namespace || RequestedBefore(admissions, k, admissions[k].uid))
    && (forall k, u | 0 <= k < |admissions| && u in admissions[k].waitsFor :: u in admissions[k].resolved)
  }

  ghost predicate Invariant(s: State) {
    && Conserved(s)
    && HandedOnce(s.handed, s.admissions)
    && VersionsAreSuccesses(s.versions, s.successes)
    && Increasing(s.successes)
    && SettledCovered(s.settled, s.versions)
    && ResolvedTransported(s.admissions, s.versions)
    && DependenciesFirst(s.successes, s.handed, s.admissions)
    && InScope(s.namespace, s.dependencies, s.admissions)
  }
}
