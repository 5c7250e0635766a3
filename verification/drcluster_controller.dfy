/**
 `pkg/controller/drcluster/drcluster_controller.go`: passing the settings of a cluster on to the
 DRNamespaces. An attempt can fail at any call to the API server and is retried from the
 status that is stored there.
 */
module DRClusterController {
  import opened Wrappers
  import opened KubeTransporter
  import opened ConfigContainer

  datatype DRNamespaceSpec = DRNamespaceSpec(active: bool, transportAdapter: string, collectorType: string,
      pairCluster: string)
  datatype DRClusterSpec = DRClusterSpec(
    name: string, role: string, active: bool, transportAdapter: string, collectorType: string,
      settings: PairClusterSettings)
  datatype DRClusterStatus = DRClusterStatus(role: string, active: bool, transportAdapter: string,
      collectorType: string)

  /** The three fields that are passed on, in the order of the source. */
  datatype Field = ActiveField | AdapterField | CollectorField

  /** Where an attempt fails. `AtUpdate(f, n)`: the update call for namespace `n`.
      A list that is "not found" ends the attempt without an error, but just as early. */
  datatype Fault = Nowhere | AtList(field: Field) | AtUpdate(updated: Field, failing: string) | AtStatus

  /** What the API server holds, and the cluster side of the container: configurations stored
      there and the settings its listeners hold. */
  datatype World = World(namespaces: map<string, DRNamespaceSpec>, status: DRClusterStatus, stored: ClusterSide)

  function Store(c: ClusterSide, spec: DRClusterSpec): ClusterSide {
    StoreCluster(c, spec.name, Some(spec.settings))
  }

  predicate Differs(f: Field, spec: DRClusterSpec, status: DRClusterStatus) {
    match f
    case ActiveField => spec.active != status.active
    case AdapterField => spec.transportAdapter != status.transportAdapter
    case CollectorField => spec.collectorType != status.collectorType
  }

  /** `Active` goes to the namespaces paired with this cluster, the other two to every namespace. */
  predicate Concerns(f: Field, spec: DRClusterSpec, ns: DRNamespaceSpec) {
    f.ActiveField? ==> ns.pairCluster == spec.name
  }

  function SetField(f: Field, spec: DRClusterSpec, ns: DRNamespaceSpec): DRNamespaceSpec {
    match f
    case ActiveField => ns.(active := spec.active)
    case AdapterField => ns.(transportAdapter := spec.transportAdapter)
    case CollectorField => ns.(collectorType := spec.collectorType)
  }

  function SetStatus(f: Field, spec: DRClusterSpec, status: DRClusterStatus): DRClusterStatus {
    match f
    case ActiveField => status.(active := spec.active)
    case AdapterField => status.(transportAdapter := spec.transportAdapter)
    case CollectorField => status.(collectorType := spec.collectorType)
  }

  /** One update loop over the listed namespaces, and the number of updates it made. */
  function UpdateLoop(f: Field, spec: DRClusterSpec, items: seq<string>, namespaces: map<string, DRNamespaceSpec>,
      failAt: Option<string>):
    (r: (map<string, DRNamespaceSpec>, bool, nat))
    requires forall i | 0 <= i < |items| :: items[i] in namespaces
    ensures r.0.Keys == namespaces.Keys
  {
    if items == [] then (namespaces, true, 0)
    else if !Concerns(f, spec, namespaces[items[0]]) then
      UpdateLoop(f, spec, items[1..], namespaces, failAt)
    else if failAt == Some(items[0]) then (namespaces, false, 0)
    else
      var r := UpdateLoop(f, spec, items[1..], namespaces[items[0] := SetField(f, spec, namespaces[items[0]])], failAt);
      (r.0, r.1, r.2 + 1)
  }

  /** One "sync" block: namespaces, in-memory status, whether to go on, updates made. */
  function SyncBlock(f: Field, spec: DRClusterSpec, items: seq<string>, namespaces: map<string, DRNamespaceSpec>,
                     status: DRClusterStatus, fault: Fault):
    (r: (map<string, DRNamespaceSpec>, DRClusterStatus, bool, nat))
    requires forall i | 0 <= i < |items| :: items[i] in namespaces
    ensures r.0.Keys == namespaces.Keys
  {
    if !Differs(f, spec, status) then (namespaces, status, true, 0)
    else if fault == AtList(f) then (namespaces, status, false, 0)
    else
      var failAt := if fault.AtUpdate? && fault.updated == f then Some(fault.failing) else None;
      var r := UpdateLoop(f, spec, items, namespaces, failAt);
      (r.0, if r.1 then SetStatus(f, spec, status) else status, r.1, r.2)
  }

  /** The three blocks in a row, up to the first that fails. */
  function SyncAll(spec: DRClusterSpec, items: seq<string>, namespaces: map<string, DRNamespaceSpec>,
      status: DRClusterStatus, fault: Fault):
    (r: (map<string, DRNamespaceSpec>, DRClusterStatus, bool, nat))
    requires forall i | 0 <= i < |items| :: items[i] in namespaces
    ensures r.0.Keys == namespaces.Keys
  {
    var a := SyncBlock(ActiveField, spec, items, namespaces, status, fault);
    if !a.2 then a
    else
      var b := SyncBlock(AdapterField, spec, items, a.0, a.1, fault);
      if !b.2 then (b.0, b.1, false, a.3 + b.3)
      else
        var c := SyncBlock(CollectorField, spec, items, b.0, b.1, fault);
        (c.0, c.1, c.2, a.3 + b.3 + c.3)
  }

  /** `Role` is taken over once and never changed. */
  function AdoptRole(spec: DRClusterSpec, status: DRClusterStatus): DRClusterStatus {
    if status.role == "" then status.(role := spec.role) else status
  }

  /** One attempt: the world it leaves, whether it got to the end, and how often it updated a
      namespace. `items` is the order in which the API server lists them. */
  function Attempt(w: World, spec: DRClusterSpec, items: seq<string>, fault: Fault): (World, bool, nat)
    requires forall i | 0 <= i < |items| :: items[i] in w.namespaces
  {
    var r := SyncAll(spec, items, w.namespaces, AdoptRole(spec, w.status), fault);
    if !r.2 then (w.(namespaces := r.0), false, r.3)
    else
      var stored := Store(w.stored, spec);
      if fault.AtStatus? then (World(r.0, w.status, stored), false, r.3)
      else (World(r.0, r.1, stored), true, r.3)
  }

  // ---------------------------------------------------------------------
  // The reconciler
  // ---------------------------------------------------------------------

  class ApiServer {
    var namespaces: map<string, DRNamespaceSpec>
    var status: DRClusterStatus

    constructor (namespaces: map<string, DRNamespaceSpec>, status: DRClusterStatus)
      ensures this.namespaces == namespaces && this.status == status
    {
      this.namespaces, this.status := namespaces, status;
    }
  }

  class ReconcileDRCluster {
    const client: ApiServer
    const container: DrConfig

    constructor (client: ApiServer, container: DrConfig)
      ensures this.client == client && this.container == container
    {
      this.client, this.container := client, container;
    }

    ghost function Abs(): World
      reads client, container`ClusterConfigs, container`NamespaceConfigedCluster, container`ClusterConfigListeners,
            container.Transporters()
    {
      World(client.namespaces, client.status, container.Clusters())
    }

    /** One of the three update loops; it stops at the first call that fails. */
    method UpdateNamespaces(f: Field, spec: DRClusterSpec, items: seq<string>, failAt: Option<string>)
      returns (ok: bool, ghost updates: nat)
      requires forall i | 0 <= i < |items| :: items[i] in client.namespaces
      modifies client`namespaces
      ensures (client.namespaces, ok, updates) == UpdateLoop(f, spec, items, old(client.namespaces), failAt)
    {
      updates := 0;
      ghost var all := UpdateLoop(f, spec, items, client.namespaces, failAt);
      assert items[0..] == items;
      for i := 0 to |items|
        invariant client.namespaces.Keys == old(client.namespaces).Keys
        invariant var rest := UpdateLoop(f, spec, items[i..], client.namespaces, failAt);
                  all == (rest.0, rest.1, updates + rest.2)
      {
        assert items[i..][1..] == items[i + 1..];
        if Concerns(f, spec, client.namespaces[items[i]]) {
          if failAt == Some(items[i]) {
            return false, updates;
          }
          client.namespaces := client.namespaces[items[i] := SetField(f, spec, client.namespaces[items[i]])];
          updates := updates + 1;
        }
      }
      ok := true;
    }

    /** One "sync" block. */
    method Sync(f: Field, spec: DRClusterSpec, items: seq<string>, status: DRClusterStatus, fault: Fault)
      returns (status': DRClusterStatus, ok: bool, ghost updates: nat)
      requires forall i | 0 <= i < |items| :: items[i] in client.namespaces
      modifies client`namespaces
      ensures (client.namespaces, status', ok, updates) ==
              SyncBlock(f, spec, items, old(client.namespaces), status, fault)
    {
      status', ok, updates := status, true, 0;
      if Differs(f, spec, status) {
        if fault == AtList(f) {
          return status, false, 0;
        }
        var failAt := if fault.AtUpdate? && fault.updated == f then Some(fault.failing) else None;
        ok, updates := UpdateNamespaces(f, spec, items, failAt);
        if ok {
          status' := SetStatus(f, spec, status);
        }
      }
    }

    /** The three "sync" blocks. */
    method SyncNamespaces(spec: DRClusterSpec, items: seq<string>, status: DRClusterStatus, fault: Fault)
      returns (status': DRClusterStatus, ok: bool, ghost updates: nat)
      requires forall i | 0 <= i < |items| :: items[i] in client.namespaces
      modifies client`namespaces
      ensures (client.namespaces, status', ok, updates) == SyncAll(spec, items, old(client.namespaces), status, fault)
    {
      status', ok, updates := Sync(ActiveField, spec, items, status, fault);
      ghost var a := (client.namespaces, status', ok, updates);
      assert a == SyncBlock(ActiveField, spec, items, old(client.namespaces), status, fault);
      if !ok {
        return;
      }
      ghost var more;
      status', ok, more := Sync(AdapterField, spec, items, status', fault);
      ghost var b := (client.namespaces, status', ok, more);
      updates := updates + more;
      assert b == SyncBlock(AdapterField, spec, items, a.0, a.1, fault);
      if !ok {
        return;
      }
      status', ok, more := Sync(CollectorField, spec, items, status', fault);
      updates := updates + more;
      assert (client.namespaces, status', ok, more) == SyncBlock(CollectorField, spec, items, b.0, b.1, fault);
    }

    /** The cluster's settings: written into the container's map directly, before the call that
        stores and delivers them. */
    method StoreSettings(spec: DRClusterSpec)
      requires container.ClustersValid()
      modifies container`ClusterConfigs, container.Transporters()
      ensures container.Clusters() == Store(old(container.Clusters()), spec)
      ensures Delivered(old(container.Clusters()), spec, container.Clusters())
    {
      container.ClusterConfigs := container.ClusterConfigs[spec.name := spec.settings];
      assert container.Clusters().held == old(container.Clusters()).held;
      var stored := container.UpdateClusterConfigToContainer(spec.name, Some(spec.settings));
    }

    /** `Reconcile`, for an instance that exists. */
    method Reconcile(spec: DRClusterSpec, items: seq<string>, fault: Fault) returns (done: bool, ghost updates: nat)
      requires container.ClustersValid()
      requires forall i | 0 <= i < |items| :: items[i] in client.namespaces
      modifies client, container`ClusterConfigs, container.Transporters()
      ensures (Abs(), done, updates) == Attempt(old(Abs()), spec, items, fault)
    {
      var status := client.status;
      if status.role == "" {
        status := status.(role := spec.role);
      }
      status, done, updates := SyncNamespaces(spec, items, status, fault);
      if !done {
        return;
      }
      StoreSettings(spec);
      if fault.AtStatus? {
        return false, updates;
      }
      client.status := status;
    }
  }

  // ---------------------------------------------------------------------
  // Failing and retrying
  // ---------------------------------------------------------------------

  /** A listing of all namespaces, in some order. */
  ghost predicate Lists(items: seq<string>, namespaces: map<string, DRNamespaceSpec>) {
    && (forall i, j | 0 <= i < j < |items| :: items[i] != items[j])
    && (forall n :: n in items <==> n in namespaces)
  }

  ghost function Pushed(f: Field, spec: DRClusterSpec, status: DRClusterStatus, ns: DRNamespaceSpec): DRNamespaceSpec {
    if Differs(f, spec, status) && Concerns(f, spec, ns) then SetField(f, spec, ns) else ns
  }

  /** What a namespace looks like once everything that differs has been passed on. */
  ghost function Target(spec: DRClusterSpec, status: DRClusterStatus, ns: DRNamespaceSpec): DRNamespaceSpec {
    Pushed(CollectorField, spec, status, Pushed(AdapterField, spec, status, Pushed(ActiveField, spec, status, ns)))
  }

  /** Each namespace is as it was, or as the loop leaves it; all are, when it is not interrupted. */
  lemma {:induction false} LoopPushes(f: Field, spec: DRClusterSpec, items: seq<string>,
      namespaces: map<string, DRNamespaceSpec>, failAt: Option<string>)
    requires forall i | 0 <= i < |items| :: items[i] in namespaces
    requires forall i, j | 0 <= i < j < |items| :: items[i] != items[j]
    ensures var r := UpdateLoop(f, spec, items, namespaces, failAt);
            && (forall n | n in namespaces && n !in items :: r.0[n] == namespaces[n])
            && (forall n | n in items ::
                 r.0[n] == namespaces[n]
                 || (Concerns(f, spec, namespaces[n]) && r.0[n] == SetField(f, spec, namespaces[n])))
            && (r.1 ==> forall n | n in items ::
                 r.0[n] == if Concerns(f, spec, namespaces[n]) then SetField(f, spec, namespaces[n]) else namespaces[n])
            && (failAt.None? ==> r.1)
  {
    if items != [] {
      var first := items[0];
      assert first !in items[1..];
      assert forall n | n in items :: n == first || n in items[1..];
      if !Concerns(f, spec, namespaces[first]) {
        LoopPushes(f, spec, items[1..], namespaces, failAt);
      } else if failAt != Some(first) {
        LoopPushes(f, spec, items[1..], namespaces[first := SetField(f, spec, namespaces[first])], failAt);
      }
    }
  }

  /** One block, for each namespace: untouched or pushed, pushed if the block ended normally. */
  lemma BlockPushes(f: Field, spec: DRClusterSpec, items: seq<string>, namespaces: map<string, DRNamespaceSpec>,
      status: DRClusterStatus, fault: Fault)
    requires Lists(items, namespaces)
    ensures forall i | 0 <= i < |items| :: items[i] in namespaces
    ensures var r := SyncBlock(f, spec, items, namespaces, status, fault);
            && Lists(items, r.0)
            && (forall n | n in namespaces ::
                 r.0[n] == namespaces[n] || r.0[n] == Pushed(f, spec, status, namespaces[n]))
            && (r.2 ==> forall n | n in namespaces :: r.0[n] == Pushed(f, spec, status, namespaces[n]))
            && (r.2 ==> r.1 == SetStatus(f, spec, status))
            && (fault.Nowhere? || fault.AtStatus? ==> r.2)
  {
    forall i | 0 <= i < |items| ensures items[i] in namespaces {
      assert items[i] in items;
    }
    if Differs(f, spec, status) {
      if fault != AtList(f) {
        LoopPushes(f, spec, items, namespaces,
                   if fault.AtUpdate? && fault.updated == f then Some(fault.failing) else None);
      }
    } else {
      assert SetStatus(f, spec, status) == status;
    }
  }

  lemma TargetAbsorbs(spec: DRClusterSpec, status: DRClusterStatus, ns: DRNamespaceSpec)
    ensures var a := Pushed(ActiveField, spec, status, ns);
            var b := Pushed(AdapterField, spec, status, a);
            var c := Pushed(CollectorField, spec, status, b);
            Target(spec, status, ns) == c &&
            Target(spec, status, a) == c && Target(spec, status, b) == c && Target(spec, status, c) == c
  {
  }

  /** An attempt leaves every namespace somewhere on the way to its target. */
  ghost predicate OnTheWay(spec: DRClusterSpec, status: DRClusterStatus, was: DRNamespaceSpec, now: DRNamespaceSpec) {
    var a := Pushed(ActiveField, spec, status, was);
    var b := Pushed(AdapterField, spec, status, a);
    now == was || now == a || now == b || now == Pushed(CollectorField, spec, status, b)
  }

  /** The blocks differ on the same fields whether or not earlier ones have changed the status. */
  lemma PushedSame(f: Field, spec: DRClusterSpec, x: DRClusterStatus, y: DRClusterStatus, ns: DRNamespaceSpec)
    requires Differs(f, spec, x) == Differs(f, spec, y)
    ensures Pushed(f, spec, x, ns) == Pushed(f, spec, y, ns)
  {
  }

  lemma AllPush(spec: DRClusterSpec, items: seq<string>, namespaces: map<string, DRNamespaceSpec>,
      status: DRClusterStatus, fault: Fault)
    requires Lists(items, namespaces)
    ensures forall i | 0 <= i < |items| :: items[i] in namespaces
    ensures var r := SyncAll(spec, items, namespaces, status, fault);
            && (forall n | n in namespaces :: OnTheWay(spec, status, namespaces[n], r.0[n]))
            && (r.2 ==> forall n | n in namespaces :: r.0[n] == Target(spec, status, namespaces[n]))
            && (r.2 ==> r.1 == DRClusterStatus(status.role, spec.active, spec.transportAdapter, spec.collectorType))
            && (fault.Nowhere? || fault.AtStatus? ==> r.2)
  {
    BlockPushes(ActiveField, spec, items, namespaces, status, fault);
    var a := SyncBlock(ActiveField, spec, items, namespaces, status, fault);
    if a.2 {
      BlockPushes(AdapterField, spec, items, a.0, a.1, fault);
      var b := SyncBlock(AdapterField, spec, items, a.0, a.1, fault);
      forall n | n in namespaces
        ensures a.0[n] == Pushed(ActiveField, spec, status, namespaces[n])
        ensures b.0[n] == a.0[n] || b.0[n] == Pushed(AdapterField, spec, status, a.0[n])
        ensures b.2 ==> b.0[n] == Pushed(AdapterField, spec, status, a.0[n])
      {
        PushedSame(AdapterField, spec, a.1, status, a.0[n]);
      }
      if b.2 {
        BlockPushes(CollectorField, spec, items, b.0, b.1, fault);
        var c := SyncBlock(CollectorField, spec, items, b.0, b.1, fault);
        forall n | n in namespaces
          ensures c.0[n] == b.0[n] || c.0[n] == Pushed(CollectorField, spec, status, b.0[n])
          ensures c.2 ==> c.0[n] == Pushed(CollectorField, spec, status, b.0[n])
        {
          PushedSame(CollectorField, spec, b.1, status, b.0[n]);
        }
      }
    }
  }

  /** An attempt leaves every namespace on its way to the same target; one that got to the end
      leaves all of them there, and the status equal to the spec. */
  lemma AttemptApproaches(w: World, spec: DRClusterSpec, items: seq<string>, fault: Fault)
    requires Lists(items, w.namespaces)
    ensures forall i | 0 <= i < |items| :: items[i] in w.namespaces
    ensures var (t, done, _) := Attempt(w, spec, items, fault);
            && t.namespaces.Keys == w.namespaces.Keys
            && (forall n | n in w.namespaces ::
                 Target(spec, w.status, t.namespaces[n]) == Target(spec, w.status, w.namespaces[n]))
            && (!done ==> t.status == w.status && (t.stored == w.stored || t.stored == Store(w.stored, spec)))
            && (done ==> t == Converged(w, spec))
            && (fault.Nowhere? ==> done)
  {
    var status := AdoptRole(spec, w.status);
    AllPush(spec, items, w.namespaces, status, fault);
    var (t, done, _) := Attempt(w, spec, items, fault);
    forall n | n in w.namespaces
      ensures Target(spec, w.status, t.namespaces[n]) == Target(spec, w.status, w.namespaces[n])
      ensures done ==> t.namespaces[n] == Target(spec, w.status, w.namespaces[n])
    {
      TargetAbsorbs(spec, status, w.namespaces[n]);
      TargetSame(spec, status, w.status, w.namespaces[n]);
      TargetSame(spec, status, w.status, t.namespaces[n]);
    }
    assert done ==> t.namespaces == Converged(w, spec).namespaces;
  }

  lemma TargetSame(spec: DRClusterSpec, x: DRClusterStatus, y: DRClusterStatus, ns: DRNamespaceSpec)
    requires x == y.(role := x.role)
    ensures Target(spec, x, ns) == Target(spec, y, ns)
  {
  }

  /** The world after one attempt that nothing interrupts. */
  ghost function Converged(w: World, spec: DRClusterSpec): World {
    World(
      map n | n in w.namespaces :: Target(spec, w.status, w.namespaces[n]),
      DRClusterStatus(
        if w.status.role == "" then spec.role else w.status.role,
        spec.active, spec.transportAdapter, spec.collectorType),
      Store(w.stored, spec))
  }

  lemma StoreAgain(c: ClusterSide, spec: DRClusterSpec)
    ensures Store(Store(c, spec), spec) == Store(c, spec)
  {
    var t := Store(c, spec);
    assert Store(t, spec).configs == t.configs && Store(t, spec).held == t.held;
  }

  lemma ConvergedIsFixed(w: World, spec: DRClusterSpec)
    ensures Converged(Converged(w, spec), spec) == Converged(w, spec)
  {
    var t := Converged(w, spec);
    assert Converged(t, spec).namespaces == t.namespaces;
    StoreAgain(w.stored, spec);
  }

  lemma SameTargetsConverge(w: World, t: World, spec: DRClusterSpec)
    requires t.status == w.status && t.namespaces.Keys == w.namespaces.Keys
    requires forall n | n in w.namespaces ::
               Target(spec, w.status, t.namespaces[n]) == Target(spec, w.status, w.namespaces[n])
    requires t.stored == w.stored || t.stored == Store(w.stored, spec)
    ensures Converged(t, spec) == Converged(w, spec)
  {
    assert Converged(t, spec).namespaces == Converged(w, spec).namespaces;
    StoreAgain(w.stored, spec);
  }

  lemma ConvergedAgain(w: World, spec: DRClusterSpec, items: seq<string>, fault: Fault)
    requires Lists(items, w.namespaces)
    ensures forall i | 0 <= i < |items| :: items[i] in w.namespaces
    ensures Converged(Attempt(w, spec, items, fault).0, spec) == Converged(w, spec)
    ensures Attempt(w, spec, items, fault).0.namespaces.Keys == w.namespaces.Keys
  {
    AttemptApproaches(w, spec, items, fault);
    var (t, done, _) := Attempt(w, spec, items, fault);
    if done {
      ConvergedIsFixed(w, spec);
    } else {
      SameTargetsConverge(w, t, spec);
    }
  }

  /** A converged world has nothing left to pass on. */
  lemma ConvergedIdles(w: World, spec: DRClusterSpec, items: seq<string>)
    requires Lists(items, w.namespaces)
    ensures forall i | 0 <= i < |items| :: items[i] in Converged(w, spec).namespaces
    ensures Attempt(Converged(w, spec), spec, items, Nowhere) == (Converged(w, spec), true, 0)
  {
    var u := Converged(w, spec);
    forall i | 0 <= i < |items| ensures items[i] in u.namespaces {
      assert items[i] in items;
    }
    var status := AdoptRole(spec, u.status);
    assert SyncAll(spec, items, u.namespaces, status, Nowhere) == (u.namespaces, status, true, 0);
    StoreAgain(w.stored, spec);
  }

  /** Attempts with faults and listings of their own, one after the other. */
  ghost predicate Attempts(w: World, spec: DRClusterSpec, runs: seq<(seq<string>, Fault)>, t: World)
    decreases |runs|
  {
    if runs == [] then w == t
    else
      Lists(runs[0].0, w.namespaces) && (forall i | 0 <= i < |runs[0].0| :: runs[0].0[i] in w.namespaces) &&
      Attempts(Attempt(w, spec, runs[0].0, runs[0].1).0, spec, runs[1..], t)
  }

  lemma {:induction false} AttemptsConverge(w: World, spec: DRClusterSpec, runs: seq<(seq<string>, Fault)>, t: World)
    requires Attempts(w, spec, runs, t)
    ensures Converged(t, spec) == Converged(w, spec) && t.namespaces.Keys == w.namespaces.Keys
    decreases |runs|
  {
    if runs != [] {
      ConvergedAgain(w, spec, runs[0].0, runs[0].1);
      AttemptsConverge(Attempt(w, spec, runs[0].0, runs[0].1).0, spec, runs[1..], t);
    }
  }

  /** Any number of attempts that fail anywhere, then one that does not, leave the same world as a
      single attempt that does not fail, and one more attempt updates no namespace. */
  lemma CrashRetryConverges(w: World, spec: DRClusterSpec, runs: seq<(seq<string>, Fault)>, t: World,
      items: seq<string>, again: seq<string>)
    requires Attempts(w, spec, runs, t)
    requires Lists(items, w.namespaces) && Lists(again, w.namespaces)
    ensures forall i | 0 <= i < |items| :: items[i] in w.namespaces && items[i] in t.namespaces
    ensures var (u, done, _) := Attempt(t, spec, items, Nowhere);
            && done && (u, done) == (Attempt(w, spec, items, Nowhere).0, Attempt(w, spec, items, Nowhere).1)
            && (forall i | 0 <= i < |again| :: again[i] in u.namespaces)
            && Attempt(u, spec, again, Nowhere) == (u, true, 0)
  {
    AttemptsConverge(w, spec, runs, t);
    AttemptApproaches(w, spec, items, Nowhere);
    AttemptApproaches(t, spec, items, Nowhere);
    ConvergedIdles(t, spec, again);
  }

  /** The field differs between spec and status. */
  ghost predicate IsNew(f: Field, spec: DRClusterSpec, status: DRClusterStatus) {
    || (f.ActiveField? && spec.active != status.active)
    || (f.AdapterField? && spec.transportAdapter != status.transportAdapter)
    || (f.CollectorField? && spec.collectorType != status.collectorType)
  }

  /** The call that fails is made: a listing only for a field that is new, an update only for a namespace
      that gets it. */
  ghost predicate Hits(fault: Fault, spec: DRClusterSpec, w: World) {
    match fault
    case Nowhere => false
    case AtStatus => true
    case AtList(f) => IsNew(f, spec, w.status)
    case AtUpdate(f, n) =>
      IsNew(f, spec, w.status) && n in w.namespaces && (f.ActiveField? ==> w.namespaces[n].pairCluster == spec.name)
  }

  lemma {:induction false} LoopStopsIff(f: Field, spec: DRClusterSpec, items: seq<string>,
      namespaces: map<string, DRNamespaceSpec>, failAt: Option<string>)
    requires forall i | 0 <= i < |items| :: items[i] in namespaces
    ensures var r := UpdateLoop(f, spec, items, namespaces, failAt);
            && (!r.1 <==> failAt.Some? && failAt.value in items && Concerns(f, spec, namespaces[failAt.value]))
            && forall n | n in namespaces :: r.0[n].pairCluster == namespaces[n].pairCluster
  {
    if items != [] {
      var first := items[0];
      assert forall n :: n in items <==> n == first || n in items[1..];
      if !Concerns(f, spec, namespaces[first]) {
        LoopStopsIff(f, spec, items[1..], namespaces, failAt);
      } else if failAt != Some(first) {
        LoopStopsIff(f, spec, items[1..], namespaces[first := SetField(f, spec, namespaces[first])], failAt);
      }
    }
  }

  ghost predicate HitsBlock(f: Field, fault: Fault, spec: DRClusterSpec, status: DRClusterStatus,
      namespaces: map<string, DRNamespaceSpec>)
  {
    && IsNew(f, spec, status)
    && (|| fault == AtList(f)
        || (&& fault.AtUpdate? && fault.updated == f && fault.failing in namespaces
            && (f.ActiveField? ==> namespaces[fault.failing].pairCluster == spec.name)))
  }

  /** Whether a block is hit is decided before the attempt. */
  lemma HitsLater(f: Field, fault: Fault, spec: DRClusterSpec, status: DRClusterStatus, w: World,
      namespaces: map<string, DRNamespaceSpec>)
    requires IsNew(f, spec, status) == IsNew(f, spec, w.status) && namespaces.Keys == w.namespaces.Keys
    requires forall n | n in w.namespaces :: namespaces[n].pairCluster == w.namespaces[n].pairCluster
    ensures HitsBlock(f, fault, spec, status, namespaces) <==> HitsBlock(f, fault, spec, w.status, w.namespaces)
  {
  }

  lemma BlockStopsIff(f: Field, spec: DRClusterSpec, items: seq<string>, namespaces: map<string, DRNamespaceSpec>,
      status: DRClusterStatus, fault: Fault)
    requires Lists(items, namespaces)
    ensures forall i | 0 <= i < |items| :: items[i] in namespaces
    ensures var r := SyncBlock(f, spec, items, namespaces, status, fault);
            && Lists(items, r.0)
            && (forall n | n in namespaces :: r.0[n].pairCluster == namespaces[n].pairCluster)
            && (!r.2 <==> HitsBlock(f, fault, spec, status, namespaces))
            && (r.2 ==> r.1 == SetStatus(f, spec, status))
  {
    forall i | 0 <= i < |items| ensures items[i] in namespaces {
      assert items[i] in items;
    }
    BlockPushes(f, spec, items, namespaces, status, fault);
    var failAt := if fault.AtUpdate? && fault.updated == f then Some(fault.failing) else None;
    LoopStopsIff(f, spec, items, namespaces, failAt);
  }

  /** An attempt gets to its end exactly if the call that would fail is not made. */
  lemma DoneIff(w: World, spec: DRClusterSpec, items: seq<string>, fault: Fault)
    requires Lists(items, w.namespaces)
    ensures forall i | 0 <= i < |items| :: items[i] in w.namespaces
    ensures Attempt(w, spec, items, fault).1 <==> !Hits(fault, spec, w)
  {
    SyncStopsIff(w, spec, items, AdoptRole(spec, w.status), fault);
  }

  lemma SyncStopsIff(w: World, spec: DRClusterSpec, items: seq<string>, status: DRClusterStatus, fault: Fault)
    requires Lists(items, w.namespaces) && status == w.status.(role := status.role)
    ensures forall i | 0 <= i < |items| :: items[i] in w.namespaces
    ensures !SyncAll(spec, items, w.namespaces, status, fault).2 <==>
              || HitsBlock(ActiveField, fault, spec, w.status, w.namespaces)
              || HitsBlock(AdapterField, fault, spec, w.status, w.namespaces)
              || HitsBlock(CollectorField, fault, spec, w.status, w.namespaces)
  {
    BlockStopsIff(ActiveField, spec, items, w.namespaces, status, fault);
    HitsLater(ActiveField, fault, spec, status, w, w.namespaces);
    var a := SyncBlock(ActiveField, spec, items, w.namespaces, status, fault);
    if a.2 {
      BlockStopsIff(AdapterField, spec, items, a.0, a.1, fault);
      HitsLater(AdapterField, fault, spec, a.1, w, a.0);
      var b := SyncBlock(AdapterField, spec, items, a.0, a.1, fault);
      if b.2 {
        BlockStopsIff(CollectorField, spec, items, b.0, b.1, fault);
        HitsLater(CollectorField, fault, spec, b.1, w, b.0);
      }
    }
  }

  /** The cluster's settings are stored, every listener of a namespace paired with it holds them, and
      nothing else has changed. */
  ghost predicate Delivered(was: ClusterSide, spec: DRClusterSpec, now: ClusterSide) {
    && now.configs == was.configs[spec.name := spec.settings]
    && now.pairings == was.pairings && now.held.Keys == was.held.Keys
    && forall n | n in was.held ::
         now.held[n] == if n in was.pairings && was.pairings[n] == spec.name then Some(spec.settings) else was.held[n]
  }

  /** An attempt that finishes stores and delivers the settings, and so does one that only fails to
      write the status; any other one leaves the container alone. */
  lemma FinishedDelivers(w: World, spec: DRClusterSpec, items: seq<string>, fault: Fault)
    requires Lists(items, w.namespaces)
    ensures forall i | 0 <= i < |items| :: items[i] in w.namespaces
    ensures var (t, done, _) := Attempt(w, spec, items, fault);
            && (done || fault.AtStatus? ==> Delivered(w.stored, spec, t.stored))
            && (!done && !fault.AtStatus? ==> t.stored == w.stored)
  {
    AllPush(spec, items, w.namespaces, AdoptRole(spec, w.status), fault);
  }

  /** Who gets what: `Active` only the namespaces paired with this cluster, the other two all. */
  lemma PassedOn(w: World, spec: DRClusterSpec, n: string)
    requires n in w.namespaces
    ensures var r := Converged(w, spec).namespaces[n];
            var was := w.namespaces[n];
            && r.active ==
                 (if spec.active != w.status.active && was.pairCluster == spec.name then spec.active else was.active)
            && r.transportAdapter ==
                 (if spec.transportAdapter != w.status.transportAdapter then spec.transportAdapter
                 else was.transportAdapter)
            && r.collectorType ==
                 (if spec.collectorType != w.status.collectorType then spec.collectorType else was.collectorType)
            && r.pairCluster == was.pairCluster
  {
  }
}
