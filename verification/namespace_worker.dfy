/** `pkg/drmanager/dependencynamespaceworker/dependency_namesapce_worker.go`: the dependency-gating loop. */
module NamespaceWorker {
  import opened Wrappers
  import opened Json
  import opened ApiTypes
  import opened Objects
  import opened WorkQueue
  import Mapping = VariableMappingFilter
  import opened FilterChain
  import opened DependencyCheckers
  import opened Pipeline
  import opened TransportManager

  lemma {:induction false} WalkSplit(
    a: seq<Filter>, b: seq<Filter>, x: seq<Mapping.Orders>, y: seq<Mapping.Orders>, gvr: GroupVersionResource,
      d: Document)
    requires OrdersFit(a, x) && OrdersFit(b, y)
    ensures OrdersFit(a + b, x + y)
    ensures Walk(a + b, x + y, gvr, d) ==
            var r := Walk(a, x, gvr, d);
            if r.verdict != Accept then r else Walk(b, y, gvr, r.tree)
  {
    assert OrdersFit(a + b, x + y);
    if a == [] {
      assert a + b == b && x + y == y;
    } else {
      assert (a + b)[1..] == a[1..] + b && (x + y)[1..] == x[1..] + y;
      WalkSplit(a[1..], b, x[1..], y, gvr, FilterOut(a[0], x[0], gvr, d).tree);
    }
  }

  lemma WalkOne(f: Filter, o: Mapping.Orders, gvr: GroupVersionResource, d: Document)
    requires OrdersFit([f], [o])
    ensures Walk([f], [o], gvr, d) == FilterOut(f, o, gvr, d)
  {
    var r := FilterOut([f][0], [o][0], gvr, d);
    assert [f][1..] == [] && [o][1..] == [];
  }

  lemma UntransportedStep(h: Heap, objs: seq<Ref>, i: nat, versions: map<string, string>, npd: seq<Ref>)
    requires h.Valid() && i < |objs| && forall j | 0 <= j < |objs| :: objs[j] < |h.objs|
    ensures npd + Untransported(h, objs[i..], versions) ==
            (if h.Uid(objs[i]) in versions then npd else npd + [objs[i]]) + Untransported(h, objs[i + 1..], versions)
  {
    assert objs[i..][1..] == objs[i + 1..];
  }

  ghost function ElementsOf<T>(s: seq<T>): set<T> {
    set x | x in s
  }

  lemma ElementsGrow<T>(s: seq<T>, i: nat)
    requires i < |s|
    ensures ElementsOf(s[..i + 1]) == ElementsOf(s[..i]) + {s[i]}
  {
  }

  class DependencyNamespaceWorker {
    const Namespace: string
    const Filters: FilterAggregation
    const TransportManager: BasicTransportManager
    var ObjQueue: Queue<Ref>
    var dependencies: set<string>
    ghost var entered: set<Ref>
    ghost var admissions: seq<Admission>
    ghost var handed: map<Ref, nat>
    ghost var dropped: map<Ref, DropReason>

    constructor (namespace: string, filters: FilterAggregation, transportManager: BasicTransportManager)
      ensures Namespace == namespace && Filters == filters && TransportManager == transportManager
      ensures ObjQueue == Empty() && dependencies == {} && entered == {} && admissions == [] && handed == map[]
              && dropped == map[]
    {
      Namespace, Filters, TransportManager := namespace, filters, transportManager;
      ObjQueue, dependencies := Empty(), {};
      entered, admissions, handed, dropped := {}, [], map[], map[];
    }

    /** The state of the whole pipeline. */
    ghost function Abs(): State
      reads this, Filters, TransportManager, TransportManager.store
      reads TransportManager.Transporter, TransportManager.Transporter.remote
    {
      TransportManager.Put(Initial(Namespace, map[]).(
        filters := Filters.Filters, workerQueue := ObjQueue, dependencies := dependencies,
        entered := entered, admissions := admissions, handed := handed, dropped := dropped))
    }

    /** One object from the collector's channel (`objEnqueue`). */
    method ObjEnqueue(gvr: GroupVersionResource, namespaced: bool, action: ObjectAction, d: Document)
      requires TransportManager.store.heap.Valid()
      modifies this, TransportManager.store
      ensures Abs() == Arrive(old(Abs()), gvr, namespaced, action, d)
    {
      var h := TransportManager.store.heap;
      TransportManager.store.heap := Heap(h.objs + [ObjResource(|h.trees|, gvr, namespaced, action)], h.trees + [d]);
      ObjQueue := ObjQueue.AddRateLimited(|h.objs|);
      entered := entered + {|h.objs|};
    }

    /** `filter`: every filter works on, and rewrites, the same object. */
    method RunFilters(obj: Ref) returns (verdict: FilterVerdict, ghost orders: seq<Mapping.Orders>)
      requires TransportManager.store.heap.Valid() && obj < |TransportManager.store.heap.objs|
      modifies TransportManager.store
      ensures OrdersFit(Filters.Filters, orders)
      ensures var h := old(TransportManager.store.heap);
              var r := ChainOut(Filters.Filters, orders, h.objs[obj].gvr, h.Tree(obj));
              verdict == r.verdict && TransportManager.store.heap == h.Rewrite(obj, r.tree)
    {
      var store := TransportManager.store;
      var filters := Filters.Filters;
      var gvr := store.heap.objs[obj].gvr;
      ghost var h := store.heap;
      ghost var d := h.Tree(obj);
      orders := [];
      assert h.Rewrite(obj, d) == h;
      for i := 0 to |filters|
        invariant |orders| == i && OrdersFit(filters[..i], orders)
        invariant store.heap.Valid() && store.heap.objs == h.objs
        invariant store.heap == h.Rewrite(obj, store.heap.Tree(obj))
        invariant Walk(filters[..i], orders, gvr, d) == FilterOutcome(store.heap.Tree(obj), Accept)
      {
        ghost var o;
        ghost var before := store.heap.Tree(obj);
        var tree;
        tree, verdict, o := RunFilter(filters[i], gvr, store.heap.Tree(obj));
        store.heap := store.heap.Rewrite(obj, tree);
        assert OrdersFit([filters[i]], [o]);
        WalkOne(filters[i], o, gvr, before);
        WalkSplit(filters[..i], [filters[i]], orders, [o], gvr, d);
        assert filters[..i] + [filters[i]] == filters[..i + 1];
        orders := orders + [o];
        if verdict != Accept {
          ghost var rest := AnyFilterOrders(filters[i + 1..]);
          WalkSplit(filters[..i + 1], filters[i + 1..], orders, rest, gvr, d);
          assert filters[..i + 1] + filters[i + 1..] == filters;
          return verdict, orders + rest;
        }
      }
      assert filters[..|filters|] == filters;
      verdict := if filters == [] then Reject else Accept;
    }

    /** `getDependencies`: both checkers are asked, each answers for its own resource. */
    method ResolveDependencies(obj: Ref, cluster: Cluster) returns (status: Verdict, deps: seq<Ref>)
      requires TransportManager.store.heap.Valid() && obj < |TransportManager.store.heap.objs|
      modifies TransportManager.store
      ensures match GetDependencies(old(TransportManager.store.heap), obj, cluster)
              case Resolved(heap, found) => status == Passed && TransportManager.store.heap == heap && deps == found
              case LookupError => status == Failed && TransportManager.store.heap == old(TransportManager.store.heap)
              case CheckPanic => status == Panicked
    {
      var store := TransportManager.store;
      var gvr := store.heap.objs[obj].gvr;
      assert PERSISTENT_VOLUME_CLAIM_GVR != STATEFUL_SET_GVR;
      status, deps := Passed, [];
      if gvr == PERSISTENT_VOLUME_CLAIM_GVR {
        status, deps := DependencyCheckClaim(store, obj, cluster);
        if status != Passed {
          return;
        }
      }
      if gvr == STATEFUL_SET_GVR {
        var dps;
        status, dps := DependencyCheckStatefulSet(store, obj, cluster);
        if status != Passed {
          return;
        }
        deps := deps + dps;
      }
    }

    /** `getNotTransportedDependencies`. */
    method NotTransported(objs: seq<Ref>) returns (npd: seq<Ref>)
      requires TransportManager.store.heap.Valid()
      requires forall i | 0 <= i < |objs| :: objs[i] < |TransportManager.store.heap.objs|
      ensures npd == Untransported(TransportManager.store.heap, objs, TransportManager.Versions)
    {
      npd := [];
      ghost var h, versions := TransportManager.store.heap, TransportManager.Versions;
      assert objs[0..] == objs && npd + Untransported(h, objs, versions) == Untransported(h, objs, versions);
      for i := 0 to |objs|
        invariant Untransported(h, objs, versions) == npd + Untransported(h, objs[i..], versions)
      {
        UntransportedStep(h, objs, i, versions, npd);
        var transported := TransportManager.IsResourceTransported(objs[i]);
        if !transported {
          npd := npd + [objs[i]];
        }
      }
      assert objs[|objs|..] == [] && npd + [] == npd;
    }

    /** `requeueDependencies`. */
    method RequeueDependencies(objs: seq<Ref>)
      requires TransportManager.store.heap.Valid()
      requires forall i | 0 <= i < |objs| :: objs[i] < |TransportManager.store.heap.objs|
      modifies this`ObjQueue, this`dependencies
      ensures ObjQueue == old(ObjQueue).(waiting := old(ObjQueue).waiting + ElementsOf(objs))
      ensures dependencies == old(dependencies) + ElementsOf(Uids(TransportManager.store.heap, objs))
    {
      ghost var uids := Uids(TransportManager.store.heap, objs);
      for i := 0 to |objs|
        invariant ObjQueue == old(ObjQueue).(waiting := old(ObjQueue).waiting + ElementsOf(objs[..i]))
        invariant dependencies == old(dependencies) + ElementsOf(uids[..i])
      {
        ElementsGrow(objs, i);
        ElementsGrow(uids, i);
        ObjQueue := ObjQueue.AddRateLimited(objs[i]);
        dependencies := dependencies + {TransportManager.store.heap.Uid(objs[i])};
      }
      assert objs[..|objs|] == objs && uids[..|objs|] == uids;
    }

    ghost method RecordDrop(obj: Ref, reason: DropReason)
      modifies this`dropped
      ensures Abs() == Drop(old(Abs()), obj, reason)
    {
      dropped := dropped[obj := reason];
    }

    method HandToTransport(obj: Ref, ghost a: Admission)
      modifies this`handed, this`admissions, TransportManager`ObjQueue
      ensures Abs() == HandOver(old(Abs()), obj, a)
    {
      TransportManager.AddResourceObj(obj);
      handed := handed[obj := |admissions|];
      admissions := admissions + [a];
    }

    /** One iteration of `run`. A panic ends the process. */
    method Run(cluster: Cluster) returns (panicked: bool, ghost orders: seq<Mapping.Orders>)
      requires ObjQueue.queue != [] && ValidRef(Abs(), ObjQueue.queue[0])
      modifies this, TransportManager`ObjQueue, TransportManager.store
      ensures OrdersFit(old(Filters.Filters), orders)
      ensures panicked <==> WorkerRun(old(Abs()), cluster, orders).None?
      ensures !panicked ==> Abs() == WorkerRun(old(Abs()), cluster, orders).value
    {
      var obj := ObjQueue.queue[0];
      ObjQueue := ObjQueue.Get();
      panicked, orders := RunTaken(obj, cluster);
      ObjQueue := ObjQueue.Done(obj);
    }

    /** `run` between taking the object and `Done`. */
    method RunTaken(obj: Ref, cluster: Cluster) returns (panicked: bool, ghost orders: seq<Mapping.Orders>)
      requires ValidRef(Abs(), obj)
      modifies this, TransportManager`ObjQueue, TransportManager.store
      ensures OrdersFit(old(Filters.Filters), orders)
      ensures panicked <==> Process(old(Abs()), obj, cluster, orders).None?
      ensures !panicked ==> Abs() == Process(old(Abs()), obj, cluster, orders).value
    {
      panicked, orders := false, AnyFilterOrders(Filters.Filters);
      var store := TransportManager.store;
      var uid, namespace := store.heap.Uid(obj), GetObjectNamespace(store.heap.Tree(obj));
      if uid in dependencies || namespace == Namespace {
        panicked, orders := RunInScope(obj, cluster, namespace, uid, Abs());
      } else {
        RecordDrop(obj, OutOfScope);
      }
    }

    /** `run` for an object in scope. */
    method RunInScope(obj: Ref, cluster: Cluster, namespace: string, uid: string, ghost s: State)
      returns (panicked: bool, ghost orders: seq<Mapping.Orders>)
      requires s == Abs() && ValidRef(s, obj)
      modifies this, TransportManager`ObjQueue, TransportManager.store
      ensures OrdersFit(s.filters, orders)
      ensures var r := ChainOut(s.filters, orders, s.heap.objs[obj].gvr, s.heap.Tree(obj));
              var p := AfterFilter(s.(heap := s.heap.Rewrite(obj, r.tree)), obj, cluster, namespace, uid, r.verdict);
              (panicked <==> p.None?) && (!panicked ==> Abs() == p.value)
    {
      var verdict;
      verdict, orders := RunFilters(obj);
      panicked := FinishRun(obj, cluster, namespace, uid, verdict, s.(heap := TransportManager.store.heap));
    }

    /** The rest of `run`, after the filters. */
    method FinishRun(obj: Ref, cluster: Cluster, namespace: string, uid: string, verdict: FilterVerdict, ghost s: State)
      returns (panicked: bool)
      requires s == Abs() && ValidRef(s, obj)
      modifies this, TransportManager`ObjQueue, TransportManager.store
      ensures panicked <==> AfterFilter(s, obj, cluster, namespace, uid, verdict).None?
      ensures !panicked ==> Abs() == AfterFilter(s, obj, cluster, namespace, uid, verdict).value
    {
      var store := TransportManager.store;
      panicked := false;
      if verdict == Panic {
        return true;
      }
      if verdict != Accept {
        RecordDrop(obj, if verdict == Reject then FilterRejected else FilterErrored);
        return;
      }
      if store.heap.objs[obj].action.Delete? {
        dependencies := dependencies - {store.heap.Uid(obj)};
        HandToTransport(obj, Admission(obj, namespace, uid, [], [], true));
        return;
      }
      var status, deps := ResolveDependencies(obj, cluster);
      if status == Panicked {
        return true;
      }
      if status == Failed {
        RecordDrop(obj, LookupFailed);
        return;
      }
      FinishGate(obj, namespace, uid, deps);
    }

    /** Hand over, or wait for the dependencies that are not transported yet. */
    method FinishGate(obj: Ref, namespace: string, uid: string, deps: seq<Ref>)
      requires TransportManager.store.heap.Valid()
      requires forall i | 0 <= i < |deps| :: deps[i] < |TransportManager.store.heap.objs|
      modifies this, TransportManager`ObjQueue
      ensures Abs() == Gate(old(Abs()), obj, namespace, uid, deps)
    {
      ghost var h := TransportManager.store.heap;
      var ntd := NotTransported(deps);
      ghost var a := Admission(obj, namespace, uid, Uids(h, deps), Uids(h, ntd), ntd == []);
      if ntd != [] {
        ObjQueue := ObjQueue.AddRateLimited(obj);
        RequeueDependencies(ntd);
        entered := entered + ElementsOf(ntd);
        admissions := admissions + [a];
      } else {
        HandToTransport(obj, a);
      }
    }
  }
}
