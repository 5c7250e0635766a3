/**
 Bounded progress. The worker and the transport manager take turns: in one round every
 object the worker holds is looked at, then everything handed over is sent. With a fixed
 source cluster and dependencies nested at most `d` deep, `d + 1` rounds empty both queues.
 */
module PipelineProgress {
  import opened Wrappers
  import opened Json
  import opened ApiTypes
  import opened Objects
  import opened WorkQueue
  import Mapping = VariableMappingFilter
  import opened FilterChain
  import opened DependencyCheckers
  import opened KubeTransporter
  import opened Pipeline
  import opened PipelineSafety

  type Item = (GroupVersionResource, Document)

  /** What progress is measured on: the heap, what each of the two loops still holds, the uids in
      scope and the transported versions. */
  datatype Stage = Stage(heap: Heap, held: set<Ref>, sending: set<Ref>, dependencies: set<string>,
      versions: map<string, string>)
  {
    function Live(): set<Ref> {
      held + sending
    }
  }

  ghost function StageOf(s: State): Stage {
    Stage(s.heap, s.workerQueue.Pending(), s.transportQueue.Pending(), s.dependencies, s.versions)
  }

  /** A fixed namespace, filter chain and source cluster; the objects that may be met there;
      what the filters make of each; and how deep the dependencies of a uid are nested. */
  datatype Plan = Plan(
    namespace: string, filters: seq<Filter>, cluster: Cluster,
    scope: iset<Item>, deletes: iset<Item>, settle: Document -> Document, rank: string -> nat)
  {
    /** What a settled object depends on. */
    function Needs(it: Item): Looked {
      DependencyCheckers.Lookup(it.0, it.1, cluster)
    }

    function Rank(it: Item): nat {
      rank(GetUID(it.1))
    }

    /** The filters accept the object and stop changing it after one pass; it has a name, its uid
        survives, and it stays in the namespace. */
    ghost predicate SettlesIn(it: Item, items: iset<Item>) {
      var settled := settle(it.1);
      && (it.0, settled) in items && settle(settled) == settled
      && GetName(it.1) != "" && GetUID(settled) == GetUID(it.1)
      && (GetObjectNamespace(it.1) == namespace ==> GetObjectNamespace(settled) == namespace)
      && forall orders | OrdersFit(filters, orders) ::
           ChainOut(filters, orders, it.0, it.1) == FilterOutcome(settled, Accept)
    }

    /** The dependencies of an object to be written are found, in scope, and nested less deep. */
    ghost predicate ClosedAt(it: Item) {
      && SettlesIn(it, scope)
      && var needs := Needs((it.0, settle(it.1)));
         && needs.Dependents?
         && forall i | 0 <= i < |needs.headers| ::
              (needs.headers[i].0, needs.tree) in scope && rank(GetUID(needs.tree)) < Rank(it)
    }

    /** An object to be deleted is in the namespace, and is not one from outside the namespace that
        is to be written: deleting takes its uid out of scope. */
    ghost predicate DeleteClosedAt(it: Item) {
      && SettlesIn(it, deletes) && GetObjectNamespace(it.1) == namespace
      && forall other | other in scope && GetObjectNamespace(other.1) != namespace :: GetUID(other.1) != GetUID(it.1)
    }

    ghost predicate Closed() {
      && (forall it {:trigger ClosedAt(it)} | it in scope :: ClosedAt(it))
      && (forall it {:trigger DeleteClosedAt(it)} | it in deletes :: DeleteClosedAt(it))
    }

    /** The dependencies of a settled object have been transported. */
    predicate Ready(it: Item, versions: map<string, string>) {
      var needs := Needs(it);
      needs.Dependents? && (needs.headers == [] || GetUID(needs.tree) in versions)
    }

    /** An object on the heap as it looks once filtered. */
    function Settled(h: Heap, ref: Ref): Item
      requires h.Valid() && ref < |h.objs|
    {
      (h.objs[ref].gvr, settle(h.Tree(ref)))
    }

    ghost predicate Planned(h: Heap, ref: Ref)
      requires h.Valid()
    {
      ref < |h.objs| && (h.objs[ref].gvr, h.Tree(ref)) in if h.objs[ref].action.Delete? then deletes else scope
    }

    ghost predicate InReach(h: Heap, ref: Ref, dependencies: set<string>)
      requires h.Valid() && ref < |h.objs|
    {
      GetObjectNamespace(h.Tree(ref)) == namespace || h.Uid(ref) in dependencies
    }

    ghost predicate AllPlanned(h: Heap, held: set<Ref>, sending: set<Ref>, dependencies: set<string>)
      requires h.Valid()
    {
      && (forall r | r in held :: Planned(h, r) && InReach(h, r, dependencies))
      && (forall r | r in sending :: Planned(h, r) && settle(h.Tree(r)) == h.Tree(r))
    }

    /** How deep the needs of an object on the heap are nested; one to be deleted needs nothing. */
    function Depth(h: Heap, ref: Ref): nat
      requires h.Valid() && ref < |h.objs|
    {
      if h.objs[ref].action.Delete? then 0 else rank(h.Uid(ref))
    }

    /** The worker hands the object over: it is to be deleted, or lacks nothing. */
    predicate Goes(h: Heap, ref: Ref, versions: map<string, string>)
      requires h.Valid() && ref < |h.objs|
    {
      h.objs[ref].action.Delete? || Ready(Settled(h, ref), versions)
    }

    ghost predicate OnStage(g: Stage) {
      g.heap.Valid() && AllPlanned(g.heap, g.held, g.sending, g.dependencies)
    }

    ghost predicate On(s: State) {
      s.filters == filters && s.namespace == namespace && OnStage(StageOf(s))
    }
  }

  // ---------------------------------------------------------------------
  // One iteration of the worker
  // ---------------------------------------------------------------------

  /** Existing objects stay who they are; their trees change at most by being filtered. */
  ghost predicate HeapSettles(p: Plan, g: Heap, h: Heap) {
    && g.Valid() && h.Valid() && |g.objs| <= |h.objs|
    && forall r | 0 <= r < |g.objs| ::
         h.objs[r] == g.objs[r] && (h.Tree(r) == g.Tree(r) || h.Tree(r) == p.settle(g.Tree(r)))
  }

  lemma StaysPlanned(p: Plan, g: Heap, h: Heap, r: Ref)
    requires p.Closed() && HeapSettles(p, g, h) && p.Planned(g, r)
    ensures p.Planned(h, r) && p.Settled(h, r) == p.Settled(g, r) && h.Uid(r) == g.Uid(r)
    ensures GetObjectNamespace(g.Tree(r)) == p.namespace ==> GetObjectNamespace(h.Tree(r)) == p.namespace
    ensures p.Settled(g, r) in (if g.objs[r].action.Delete? then p.deletes else p.scope)
    ensures p.settle(p.Settled(g, r).1) == p.Settled(g, r).1 && GetUID(p.Settled(g, r).1) == g.Uid(r)
    ensures GetName(h.Tree(r)) != ""
  {
    var it := (g.objs[r].gvr, g.Tree(r));
    if g.objs[r].action.Delete? {
      assert p.DeleteClosedAt(it);
      assert p.DeleteClosedAt((it.0, p.settle(it.1)));
    } else {
      assert p.ClosedAt(it);
      assert p.ClosedAt((it.0, p.settle(it.1)));
    }
  }

  lemma {:induction false} AllSameUid(h: Heap, deps: seq<Ref>, versions: map<string, string>, u: string)
    requires h.Valid() && forall i | 0 <= i < |deps| :: deps[i] < |h.objs| && h.Uid(deps[i]) == u
    ensures Untransported(h, deps, versions) == if u in versions then [] else deps
  {
    if deps != [] {
      AllSameUid(h, deps[1..], versions, u);
      assert [deps[0]] + deps[1..] == deps;
    }
  }

  /** The refs of the next `n` objects to be allocated. */
  function Fresh(base: nat, n: nat): (refs: set<Ref>)
    ensures forall r :: r in refs <==> base <= r < base + n
  {
    if n == 0 then {} else Fresh(base, n - 1) + {base + n - 1}
  }

  /** The uid that is out of scope once `ref` has been handed over. */
  function Gone(h: Heap, ref: Ref): set<string>
    requires h.Valid() && ref < |h.objs|
  {
    if h.objs[ref].action.Delete? then {h.Uid(ref)} else {}
  }

  /** The worker looked at `ref` and handed it over. */
  ghost predicate HandsOver(p: Plan, s: State, t: State, ref: Ref) {
    && s.workerQueue.queue != [] && TransportUntouched(s, t) && HeapSettles(p, s.heap, t.heap)
    && t.dropped == s.dropped && ref < |s.heap.objs|
    && t.heap.Tree(ref) == p.settle(s.heap.Tree(ref))
    && t.dependencies == s.dependencies - Gone(t.heap, ref)
    && t.workerQueue.Pending() == s.workerQueue.Pending() - {ref}
    && t.transportQueue.Pending() == s.transportQueue.Pending() + {ref}
    && t.workerQueue.waiting == s.workerQueue.waiting && t.workerQueue.queue == s.workerQueue.queue[1..]
  }

  /** The worker looked at `ref`, put it back, and now also holds what it needs. */
  ghost predicate PutsBack(p: Plan, s: State, t: State, ref: Ref, needs: Looked) {
    && s.workerQueue.queue != [] && TransportUntouched(s, t) && HeapSettles(p, s.heap, t.heap) && needs.Dependents?
    && ref < |s.heap.objs|
    && t.dropped == s.dropped && t.dependencies == s.dependencies + {GetUID(needs.tree)}
    && t.workerQueue.Pending() == s.workerQueue.Pending() + Fresh(|s.heap.objs|, |needs.headers|)
    && t.transportQueue == s.transportQueue
    && t.workerQueue.waiting == s.workerQueue.waiting + {ref} + Fresh(|s.heap.objs|, |needs.headers|)
    && t.workerQueue.queue == s.workerQueue.queue[1..]
    && Appended(|s.heap.objs|, t.heap, needs, s.heap.objs[ref].action)
  }

  ghost predicate AppendedAt(base: nat, h: Heap, needs: Looked, action: ObjectAction, i: nat)
    requires h.Valid() && needs.Dependents? && i < |needs.headers| && base + i < |h.objs|
  {
    var r := base + i;
    h.Tree(r) == needs.tree && h.objs[r].gvr == needs.headers[i].0 && h.objs[r].action == action
  }

  /** What was looked up stands at the end of the heap. */
  ghost predicate Appended(base: nat, h: Heap, needs: Looked, action: ObjectAction)
    requires h.Valid() && needs.Dependents?
  {
    |h.objs| == base + |needs.headers| && forall i: nat | i < |needs.headers| :: AppendedAt(base, h, needs, action, i)
  }

  lemma {:induction false} NothingLacks(h: Heap, deps: seq<Ref>, versions: map<string, string>)
    requires h.Valid() && forall i | 0 <= i < |deps| :: deps[i] < |h.objs| && h.Uid(deps[i]) in versions
    ensures Untransported(h, deps, versions) == []
  {
    if deps != [] {
      NothingLacks(h, deps[1..], versions);
    }
  }

  lemma GateOpens(p: Plan, s: State, h: Heap, ref: Ref, ns: string, uid: string, deps: seq<Ref>, t: State)
    requires Conserved(s) && s.workerQueue.queue != [] && ref == s.workerQueue.queue[0]
    requires HeapSettles(p, s.heap, h)
             && forall i | 0 <= i < |deps| :: deps[i] < |h.objs| && h.Uid(deps[i]) in s.versions
    requires ref < |s.heap.objs| && h.Tree(ref) == p.settle(s.heap.Tree(ref)) && !h.objs[ref].action.Delete?
    requires var u := Gate(s.(workerQueue := s.workerQueue.Get(), heap := h), ref, ns, uid, deps);
             t == u.(workerQueue := u.workerQueue.Done(ref))
    ensures HandsOver(p, s, t, ref)
  {
    NothingLacks(h, deps, s.versions);
    ServeIdle(s.workerQueue);
    assert t.workerQueue == s.workerQueue.Get().Done(ref);
    assert t.transportQueue == s.transportQueue.Add(ref);
  }

  lemma OneUid(h: Heap, deps: seq<Ref>, u: string)
    requires h.Valid() && deps != [] && forall i | 0 <= i < |deps| :: deps[i] < |h.objs| && h.Uid(deps[i]) == u
    ensures (set v | v in Uids(h, deps)) == {u}
  {
    assert Uids(h, deps)[0] == u;
  }

  lemma GateWaits(g: State, ref: Ref, ns: string, uid: string, deps: seq<Ref>, u: string) returns (a: Admission)
    requires g.heap.Valid() && deps != [] && u !in g.versions
    requires forall i | 0 <= i < |deps| :: deps[i] < |g.heap.objs| && g.heap.Uid(deps[i]) == u
    ensures Gate(g, ref, ns, uid, deps) == Wait(g, ref, deps, {u}, a)
  {
    AllSameUid(g.heap, deps, g.versions, u);
    OneUid(g.heap, deps, u);
    a := Admission(ref, ns, uid, Uids(g.heap, deps), Uids(g.heap, deps), false);
  }

  lemma WaitQueue(q: Queue<Ref>, deps: seq<Ref>, base: nat)
    requires q.Idle() && q.queue != [] && forall r | r in q.Pending() :: r < base
    requires forall i | 0 <= i < |deps| :: deps[i] == base + i
    ensures var served := q.Get().(waiting := q.Get().waiting + {q.queue[0]} + set d | d in deps).Done(q.queue[0]);
            && served.Pending() == q.Pending() + Fresh(base, |deps|)
            && served.waiting == q.waiting + {q.queue[0]} + Fresh(base, |deps|) && served.queue == q.queue[1..]
  {
    SameRefs(base, deps);
    RetryIdle(q, Fresh(base, |deps|));
  }

  lemma PendingExists(s: State)
    requires Conserved(s)
    ensures forall r | r in s.workerQueue.Pending() :: r < |s.heap.objs|
  {
    assert forall r | r in s.workerQueue.Pending() :: r in s.entered;
  }

  /** The objects of `h` are objects of `grown`, unchanged. */
  ghost predicate HeapKeeps(h: Heap, grown: Heap) {
    && h.Valid() && grown.Valid() && |h.objs| <= |grown.objs|
    && forall r | 0 <= r < |h.objs| :: grown.objs[r] == h.objs[r] && grown.Tree(r) == h.Tree(r)
  }

  lemma AllocateKeeps(h: Heap, tree: Document, headers: seq<(GroupVersionResource, bool)>, action: ObjectAction)
    requires h.Valid()
    ensures HeapKeeps(h, Allocate(h, tree, headers, action).0)
  {
    var grown := Allocate(h, tree, headers, action).0;
    forall r | 0 <= r < |h.objs| ensures grown.objs[r] == h.objs[r] {
    }
  }

  lemma AllocateAppends(h: Heap, needs: Looked, action: ObjectAction)
    requires h.Valid() && needs.Dependents?
    ensures Appended(|h.objs|, Allocate(h, needs.tree, needs.headers, action).0, needs, action)
  {
    var r := Allocate(h, needs.tree, needs.headers, action);
    forall i: nat | i < |needs.headers| ensures AppendedAt(|h.objs|, r.0, needs, action, i) {
      assert r.1[i] == |h.objs| + i;
    }
  }

  lemma SettlesOn(p: Plan, g: Heap, h: Heap, grown: Heap)
    requires HeapSettles(p, g, h) && HeapKeeps(h, grown)
    ensures HeapSettles(p, g, grown)
  {
    forall r | 0 <= r < |g.objs|
      ensures grown.objs[r] == g.objs[r] && (grown.Tree(r) == g.Tree(r) || grown.Tree(r) == p.settle(g.Tree(r)))
    {
      assert grown.objs[r] == h.objs[r] && grown.Tree(r) == h.Tree(r);
    }
  }

  lemma AllocateSettles(p: Plan, g: Heap, h: Heap, needs: Looked, action: ObjectAction)
    requires HeapSettles(p, g, h) && |h.objs| == |g.objs| && needs.Dependents?
    ensures var grown := Allocate(h, needs.tree, needs.headers, action).0;
            HeapSettles(p, g, grown) && Appended(|g.objs|, grown, needs, action)
  {
    AllocateKeeps(h, needs.tree, needs.headers, action);
    AllocateAppends(h, needs, action);
    SettlesOn(p, g, h, Allocate(h, needs.tree, needs.headers, action).0);
  }

  lemma GateCloses(p: Plan, s: State, h: Heap, ref: Ref, ns: string, uid: string, needs: Looked, t: State)
    requires Conserved(s) && s.workerQueue.queue != [] && ref == s.workerQueue.queue[0] && ref < |s.heap.objs|
    requires HeapSettles(p, s.heap, h) && h.objs == s.heap.objs
    requires needs.Dependents? && needs.headers != [] && GetUID(needs.tree) !in s.versions
    requires var r := Allocate(h, needs.tree, needs.headers, h.objs[ref].action);
             var u := Gate(s.(workerQueue := s.workerQueue.Get(), heap := r.0), ref, ns, uid, r.1);
             t == u.(workerQueue := u.workerQueue.Done(ref))
    ensures PutsBack(p, s, t, ref, needs)
  {
    var (grown, deps) := Allocate(h, needs.tree, needs.headers, h.objs[ref].action);
    AllocateSettles(p, s.heap, h, needs, h.objs[ref].action);
    var a := GateWaits(s.(workerQueue := s.workerQueue.Get(), heap := grown), ref, ns, uid, deps, GetUID(needs.tree));
    PendingExists(s);
    WaitQueue(s.workerQueue, deps, |s.heap.objs|);
  }

  lemma SameRefs(base: nat, deps: seq<Ref>)
    requires forall i | 0 <= i < |deps| :: deps[i] == base + i
    ensures forall d :: d in deps <==> d in Fresh(base, |deps|)
    ensures (set d | d in deps) == Fresh(base, |deps|)
  {
    forall r | r in Fresh(base, |deps|) ensures r in deps {
      assert deps[r - base] == r;
    }
  }

  /** `s` once `ref`, settled, has been through the gate. */
  ghost function Gated(p: Plan, s: State, ref: Ref): State
    requires s.heap.Valid() && ref < |s.heap.objs| && p.Needs(p.Settled(s.heap, ref)).Dependents?
             && s.workerQueue.queue != []
  {
    var d := s.heap.Tree(ref);
    var h := s.heap.Rewrite(ref, p.settle(d));
    var c := Allocated(h, ref, p.Needs(p.Settled(s.heap, ref)));
    var u := Gate(s.(workerQueue := s.workerQueue.Get(), heap := c.heap), ref, GetObjectNamespace(d), GetUID(d),
      c.deps);
    u.(workerQueue := u.workerQueue.Done(ref))
  }

  lemma RunIsGated(p: Plan, s: State, orders: seq<Mapping.Orders>)
    requires p.Closed() && s.heap.Valid() && s.workerQueue.queue != [] && OrdersFit(s.filters, orders)
    requires s.filters == p.filters && s.namespace == p.namespace
    requires var ref := s.workerQueue.queue[0];
             p.Planned(s.heap, ref) && p.InReach(s.heap, ref, s.dependencies) && !s.heap.objs[ref].action.Delete?
    ensures var ref := s.workerQueue.queue[0];
            p.Needs(p.Settled(s.heap, ref)).Dependents? && WorkerRun(s, p.cluster, orders) == Some(Gated(p, s, ref))
  {
    var ref := s.workerQueue.queue[0];
    var d := s.heap.Tree(ref);
    var gvr := s.heap.objs[ref].gvr;
    assert p.ClosedAt((gvr, d));
    assert ChainOut(s.filters, orders, gvr, d) == FilterOutcome(p.settle(d), Accept);
    var h := s.heap.Rewrite(ref, p.settle(d));
    var c := GetDependencies(h, ref, p.cluster);
    assert h.objs[ref] == s.heap.objs[ref] && h.Tree(ref) == p.settle(d);
    assert c == Allocated(h, ref, p.Needs(p.Settled(s.heap, ref)));
    assert AfterFilter(s.(workerQueue := s.workerQueue.Get(), heap := h), ref, p.cluster, GetObjectNamespace(d),
      GetUID(d), Accept)
        == Some(Gate(s.(workerQueue := s.workerQueue.Get(), heap := c.heap), ref, GetObjectNamespace(d), GetUID(d),
          c.deps));
  }

  lemma GateDecides(p: Plan, s: State, ref: Ref)
    requires Conserved(s) && s.workerQueue.queue != [] && ref == s.workerQueue.queue[0] && ref < |s.heap.objs|
    requires p.Needs(p.Settled(s.heap, ref)).Dependents? && !s.heap.objs[ref].action.Delete?
    ensures var t := Gated(p, s, ref);
            var it := p.Settled(s.heap, ref);
            if p.Ready(it, s.versions) then HandsOver(p, s, t, ref) else PutsBack(p, s, t, ref, p.Needs(it))
  {
    var d := s.heap.Tree(ref);
    var h := s.heap.Rewrite(ref, p.settle(d));
    var needs := p.Needs(p.Settled(s.heap, ref));
    var ns, uid := GetObjectNamespace(d), GetUID(d);
    var t := Gated(p, s, ref);
    assert HeapSettles(p, s.heap, h);
    if needs.headers == [] {
      GateOpens(p, s, h, ref, ns, uid, [], t);
    } else {
      AllocateSettles(p, s.heap, h, needs, h.objs[ref].action);
      if GetUID(needs.tree) in s.versions {
        var c := Allocated(h, ref, needs);
        GateOpens(p, s, c.heap, ref, ns, uid, c.deps, t);
      } else {
        GateCloses(p, s, h, ref, ns, uid, needs, t);
      }
    }
  }

  /** `s` once `ref`, settled, has been handed over to be deleted. */
  ghost function Deleted(p: Plan, s: State, ref: Ref): State
    requires s.heap.Valid() && ref < |s.heap.objs| && s.workerQueue.queue != []
  {
    var d := s.heap.Tree(ref);
    var h := s.heap.Rewrite(ref, p.settle(d));
    var f := s.(workerQueue := s.workerQueue.Get(), heap := h, dependencies := s.dependencies - {h.Uid(ref)});
    var u := HandOver(f, ref, Admission(ref, GetObjectNamespace(d), GetUID(d), [], [], true));
    u.(workerQueue := u.workerQueue.Done(ref))
  }

  lemma RunDeletes(p: Plan, s: State, orders: seq<Mapping.Orders>)
    requires p.Closed() && s.heap.Valid() && s.workerQueue.queue != [] && OrdersFit(s.filters, orders)
    requires s.filters == p.filters && s.namespace == p.namespace
    requires var ref := s.workerQueue.queue[0];
             p.Planned(s.heap, ref) && p.InReach(s.heap, ref, s.dependencies) && s.heap.objs[ref].action.Delete?
    ensures WorkerRun(s, p.cluster, orders) == Some(Deleted(p, s, s.workerQueue.queue[0]))
  {
    var ref := s.workerQueue.queue[0];
    var d := s.heap.Tree(ref);
    assert p.DeleteClosedAt((s.heap.objs[ref].gvr, d));
    assert ChainOut(s.filters, orders, s.heap.objs[ref].gvr, d) == FilterOutcome(p.settle(d), Accept);
  }

  lemma DeletedGoes(p: Plan, s: State, ref: Ref)
    requires Conserved(s) && s.workerQueue.queue != [] && ref == s.workerQueue.queue[0] && ref < |s.heap.objs|
    requires s.heap.objs[ref].action.Delete?
    ensures HandsOver(p, s, Deleted(p, s, ref), ref)
  {
    ServeIdle(s.workerQueue);
    var t := Deleted(p, s, ref);
    assert t.workerQueue == s.workerQueue.Get().Done(ref);
    assert t.transportQueue == s.transportQueue.Add(ref);
  }

  /** An iteration of the worker either hands its object over or puts it back, and which of the
      two is decided by the action and by what has been transported. */
  lemma WorkerStep(p: Plan, s: State, orders: seq<Mapping.Orders>)
    requires p.Closed() && Conserved(s) && p.On(s) && s.workerQueue.queue != [] && OrdersFit(s.filters, orders)
    ensures var ref := s.workerQueue.queue[0];
            && p.Planned(s.heap, ref) && ref in s.workerQueue.Pending()
            && Enabled(s, WorkerRuns(p.cluster, orders))
            && var t := Step(s, WorkerRuns(p.cluster, orders));
               if p.Goes(s.heap, ref, s.versions) then HandsOver(p, s, t, ref)
               else PutsBack(p, s, t, ref, p.Needs(p.Settled(s.heap, ref)))
  {
    var ref := s.workerQueue.queue[0];
    ServeIdle(s.workerQueue);
    assert ref in StageOf(s).held;
    assert p.Planned(s.heap, ref) && p.InReach(s.heap, ref, s.dependencies);
    if s.heap.objs[ref].action.Delete? {
      RunDeletes(p, s, orders);
      DeletedGoes(p, s, ref);
    } else {
      RunIsGated(p, s, orders);
      GateDecides(p, s, ref);
    }
  }

  // ---------------------------------------------------------------------
  // A round of the worker
  // ---------------------------------------------------------------------

  /** A dependency has been transported, or is on its way. */
  ghost predicate Met(p: Plan, h: Heap, live: set<Ref>, versions: map<string, string>, gvr: GroupVersionResource,
      d: Document)
    requires h.Valid() && forall r | r in live :: r < |h.objs|
  {
    GetUID(d) in versions || exists r :: r in live && p.Settled(h, r) == (gvr, p.settle(d))
  }

  ghost predicate Supported(p: Plan, h: Heap, live: set<Ref>, versions: map<string, string>, it: Item)
    requires h.Valid() && forall r | r in live :: r < |h.objs|
  {
    var needs := p.Needs(it);
    needs.Dependents? ==>
      forall i | 0 <= i < |needs.headers| :: Met(p, h, live, versions, needs.headers[i].0, needs.tree)
  }

  /** A settled object of rank `k` or up; what it needs and is not transported is in `A`. */
  ghost predicate OnFrontier(p: Plan, A: iset<Item>, versions: map<string, string>, k: nat, it: Item) {
    && it in p.scope && p.settle(it.1) == it.1 && p.Rank(it) >= k
    && (p.Ready(it, versions) ||
        var needs := p.Needs(it);
        needs.Dependents? && forall i | 0 <= i < |needs.headers| :: (needs.headers[i].0, p.settle(needs.tree)) in A)
  }

  ghost predicate Frontier(p: Plan, A: iset<Item>, versions: map<string, string>, k: nat) {
    forall it {:trigger OnFrontier(p, A, versions, k, it)} | it in A :: OnFrontier(p, A, versions, k, it)
  }

  /** So members of rank `k` lack nothing. */
  lemma LowestIsReady(p: Plan, A: iset<Item>, versions: map<string, string>, k: nat, it: Item)
    requires p.Closed() && Frontier(p, A, versions, k) && it in A && p.Rank(it) == k
    ensures p.Ready(it, versions)
  {
    assert OnFrontier(p, A, versions, k, it);
    assert p.ClosedAt(it);
    var needs := p.Needs(it);
    if needs.headers != [] {
      assert p.ClosedAt((needs.headers[0].0, needs.tree));
      var below := (needs.headers[0].0, p.settle(needs.tree));
      assert p.Rank(below) < k;
      assert below in A ==> OnFrontier(p, A, versions, k, below);
    }
  }

  ghost predicate Within(p: Plan, h: Heap, held: set<Ref>, A: iset<Item>)
    requires h.Valid()
  {
    forall r | r in held :: r < |h.objs| && (!h.objs[r].action.Delete? ==> p.Settled(h, r) in A)
  }

  ghost predicate Allocates(h: Heap, refs: set<Ref>) {
    forall r | r in refs :: r < |h.objs|
  }

  /** What has been looked at and is still held is waiting for something that is on its way. */
  ghost predicate ServedWait(p: Plan, g: Stage, served: set<Ref>)
    requires g.heap.Valid() && Allocates(g.heap, g.Live())
  {
    forall r | r in g.held && r in served ::
      !p.Goes(g.heap, r, g.versions) && Supported(p, g.heap, g.Live(), g.versions, p.Settled(g.heap, r))
  }

  /** In the course of a round: the worker holds nothing outside the frontier. */
  ghost predicate Underway(p: Plan, g: Stage, A: iset<Item>, k: nat, served: set<Ref>) {
    && p.OnStage(g) && Frontier(p, A, g.versions, k)
    && Allocates(g.heap, served) && Allocates(g.heap, g.Live())
    && Within(p, g.heap, g.held, A)
    && ServedWait(p, g, served)
  }

  /** Support does not vanish while the queues give nothing up. */
  lemma SupportedLater(p: Plan, g: Heap, h: Heap, live: set<Ref>, more: set<Ref>, versions: map<string, string>,
      it: Item)
    requires p.Closed() && HeapSettles(p, g, h) && live <= more && Allocates(g, live) && Allocates(h, more)
    requires forall r | r in live :: p.Planned(g, r)
    requires Supported(p, g, live, versions, it)
    ensures Supported(p, h, more, versions, it)
  {
    var needs := p.Needs(it);
    if needs.Dependents? {
      forall i | 0 <= i < |needs.headers| ensures Met(p, h, more, versions, needs.headers[i].0, needs.tree) {
        assert Met(p, g, live, versions, needs.headers[i].0, needs.tree);
        if GetUID(needs.tree) !in versions {
          var r :| r in live && p.Settled(g, r) == (needs.headers[i].0, p.settle(needs.tree));
          StaysPlanned(p, g, h, r);
          assert r in more;
        }
      }
    }
  }

  lemma StaySupported(p: Plan, g: Stage, h: Stage, served: set<Ref>)
    requires p.Closed() && p.OnStage(g) && HeapSettles(p, g.heap, h.heap) && h.versions == g.versions
    requires g.Live() <= h.Live() && Allocates(g.heap, g.Live()) && Allocates(h.heap, h.Live())
             && Allocates(g.heap, served)
    requires forall r | r in h.held && r < |g.heap.objs| :: r in g.held
    requires ServedWait(p, g, served)
    ensures ServedWait(p, h, served)
  {
    forall r | r in h.held && r in served
      ensures !p.Goes(h.heap, r, h.versions) && Supported(p, h.heap, h.Live(), h.versions, p.Settled(h.heap, r))
    {
      assert p.Planned(g.heap, r);
      StaysPlanned(p, g.heap, h.heap, r);
      SupportedLater(p, g.heap, h.heap, g.Live(), h.Live(), g.versions, p.Settled(g.heap, r));
    }
  }

  lemma WithinLater(p: Plan, g: Heap, h: Heap, held: set<Ref>, A: iset<Item>)
    requires p.Closed() && HeapSettles(p, g, h) && Within(p, g, held, A)
    requires forall r | r in held :: p.Planned(g, r)
    ensures Within(p, h, held, A)
  {
    forall r | r in held ensures p.Settled(h, r) == p.Settled(g, r) {
      StaysPlanned(p, g, h, r);
    }
  }

  lemma PlannedLater(p: Plan, g: Stage, h: Heap, after: set<string>)
    requires p.Closed() && p.OnStage(g) && HeapSettles(p, g.heap, h)
    requires forall r | r in g.held :: p.Planned(g.heap, r) && p.InReach(g.heap, r, after)
    ensures p.AllPlanned(h, g.held, g.sending, after)
  {
    forall r | r in g.held + g.sending ensures p.Planned(h, r) {
      StaysPlanned(p, g.heap, h, r);
    }
    forall r | r in g.held ensures p.InReach(h, r, after) {
      StaysPlanned(p, g.heap, h, r);
    }
  }

  /** Handing an object over, even to be deleted, leaves everything else in reach. */
  lemma StillInReach(p: Plan, g: Stage, h: Heap, ref: Ref)
    requires p.Closed() && p.OnStage(g) && HeapSettles(p, g.heap, h) && ref in g.held
    ensures forall r | r in g.held :: p.Planned(g.heap, r) && p.InReach(g.heap, r, g.dependencies - Gone(h, ref))
  {
    StaysPlanned(p, g.heap, h, ref);
    forall r | r in g.held ensures p.InReach(g.heap, r, g.dependencies - Gone(h, ref)) {
      assert p.Planned(g.heap, r) && p.InReach(g.heap, r, g.dependencies);
      var it := (g.heap.objs[r].gvr, g.heap.Tree(r));
      if g.heap.objs[r].action.Delete? {
        assert p.DeleteClosedAt(it);
      } else if g.heap.objs[ref].action.Delete? && GetObjectNamespace(it.1) != p.namespace {
        assert p.DeleteClosedAt((g.heap.objs[ref].gvr, g.heap.Tree(ref)));
        assert it in p.scope;
      }
    }
  }

  lemma Moved<T>(a: set<T>, b: set<T>, x: T)
    requires x in a
    ensures (a - {x}) + (b + {x}) == a + b
  {
  }

  lemma HandOverKeepsRound(p: Plan, g: Stage, t: Stage, A: iset<Item>, k: nat, served: set<Ref>, ref: Ref)
    requires p.Closed() && Underway(p, g, A, k, served) && ref in g.held && HeapSettles(p, g.heap, t.heap)
    requires ref < |g.heap.objs| && t.heap.Tree(ref) == p.settle(g.heap.Tree(ref))
    requires t == Stage(t.heap, g.held - {ref}, g.sending + {ref}, g.dependencies - Gone(t.heap, ref), g.versions)
    ensures Underway(p, t, A, k, served + {ref})
  {
    StillInReach(p, g, t.heap, ref);
    PlannedLater(p, g, t.heap, t.dependencies);
    StaysPlanned(p, g.heap, t.heap, ref);
    WithinLater(p, g.heap, t.heap, g.held, A);
    Moved(g.held, g.sending, ref);
    StaySupported(p, g, t, served);
  }

  lemma NeedOnFrontier(p: Plan, A: iset<Item>, versions: map<string, string>, k: nat, it: Item, i: nat)
    requires p.Closed() && Frontier(p, A, versions, k) && it in A && !p.Ready(it, versions)
    requires p.Needs(it).Dependents? && i < |p.Needs(it).headers|
    ensures (p.Needs(it).headers[i].0, p.Needs(it).tree) in p.scope
    ensures (p.Needs(it).headers[i].0, p.settle(p.Needs(it).tree)) in A
  {
    assert OnFrontier(p, A, versions, k, it);
    assert p.ClosedAt(it);
  }

  /** What is put at the end of the heap for a dependency is on plan, in reach and in the frontier. */
  lemma AppendedOnPlan(p: Plan, base: nat, h: Heap, A: iset<Item>, versions: map<string, string>, k: nat, it: Item,
                       action: ObjectAction, dependencies: set<string>, i: nat)
    requires p.Closed() && Frontier(p, A, versions, k) && it in A && !p.Ready(it, versions) && !action.Delete?
    requires var needs := p.Needs(it);
             h.Valid() && needs.Dependents? && i < |needs.headers| && GetUID(needs.tree) in dependencies
               && Appended(base, h, needs, action)
    ensures var r := base + i;
            && p.Planned(h, r) && p.InReach(h, r, dependencies)
            && p.Settled(h, r) == (p.Needs(it).headers[i].0, p.settle(p.Needs(it).tree)) && p.Settled(h, r) in A
  {
    var needs := p.Needs(it);
    NeedOnFrontier(p, A, versions, k, it, i);
    var r := base + i;
    assert AppendedAt(base, h, needs, action, i);
  }

  ghost predicate NewOnPlan(p: Plan, h: Heap, r: Ref, A: iset<Item>, dependencies: set<string>)
    requires h.Valid()
  {
    p.Planned(h, r) && p.InReach(h, r, dependencies) && p.Settled(h, r) in A
  }

  lemma AllAppendedOnPlan(p: Plan, base: nat, h: Heap, A: iset<Item>, versions: map<string, string>, k: nat, it: Item,
                          action: ObjectAction, dependencies: set<string>)
    requires p.Closed() && Frontier(p, A, versions, k) && it in A && !p.Ready(it, versions) && !action.Delete?
    requires var needs := p.Needs(it);
             h.Valid() && needs.Dependents? && GetUID(needs.tree) in dependencies && Appended(base, h, needs, action)
    ensures forall r | r in Fresh(base, |p.Needs(it).headers|) :: NewOnPlan(p, h, r, A, dependencies)
  {
    forall r | r in Fresh(base, |p.Needs(it).headers|) ensures NewOnPlan(p, h, r, A, dependencies) {
      AppendedOnPlan(p, base, h, A, versions, k, it, action, dependencies, r - base);
    }
  }

  /** An object put back is supported by what was put at the end of the heap for it. */
  lemma AppendedSupports(p: Plan, base: nat, h: Heap, A: iset<Item>, versions: map<string, string>, k: nat, it: Item,
                         action: ObjectAction, dependencies: set<string>, live: set<Ref>)
    requires p.Closed() && Frontier(p, A, versions, k) && it in A && !p.Ready(it, versions) && !action.Delete?
    requires var needs := p.Needs(it);
             h.Valid() && needs.Dependents? && GetUID(needs.tree) in dependencies && Appended(base, h, needs, action)
    requires Allocates(h, live) && Fresh(base, |p.Needs(it).headers|) <= live
    ensures Supported(p, h, live, versions, it)
  {
    var needs := p.Needs(it);
    forall i | 0 <= i < |needs.headers| ensures Met(p, h, live, versions, needs.headers[i].0, needs.tree) {
      AppendedOnPlan(p, base, h, A, versions, k, it, action, dependencies, i);
      assert base + i in Fresh(base, |needs.headers|);
      assert base + i in live;
    }
  }

  /** `ref` was put back, and what it needs put at the end of the heap. */
  ghost predicate PutBackStage(p: Plan, g: Stage, t: Stage, ref: Ref) {
    && g.heap.Valid() && ref in g.held && ref < |g.heap.objs| && HeapSettles(p, g.heap, t.heap)
    && var it := p.Settled(g.heap, ref);
       !p.Goes(g.heap, ref, g.versions) && p.Needs(it).Dependents?
       && Appended(|g.heap.objs|, t.heap, p.Needs(it), g.heap.objs[ref].action)
       && t == Stage(t.heap, g.held + Fresh(|g.heap.objs|, |p.Needs(it).headers|), g.sending,
                     g.dependencies + {GetUID(p.Needs(it).tree)}, g.versions)
  }

  lemma PutBackOnPlan(p: Plan, g: Stage, t: Stage, A: iset<Item>, k: nat, served: set<Ref>, ref: Ref)
    requires p.Closed() && Underway(p, g, A, k, served) && PutBackStage(p, g, t, ref)
    ensures p.OnStage(t) && Within(p, t.heap, t.held, A) && Allocates(t.heap, t.Live())
  {
    PlannedLater(p, g, t.heap, t.dependencies);
    WithinLater(p, g.heap, t.heap, g.held, A);
    AllAppendedOnPlan(p, |g.heap.objs|, t.heap, A, g.versions, k, p.Settled(g.heap, ref), g.heap.objs[ref].action,
      t.dependencies);
  }

  lemma PutBackKeepsRound(p: Plan, g: Stage, t: Stage, A: iset<Item>, k: nat, served: set<Ref>, ref: Ref)
    requires p.Closed() && Underway(p, g, A, k, served) && PutBackStage(p, g, t, ref)
    ensures Underway(p, t, A, k, served + {ref})
  {
    PutBackOnPlan(p, g, t, A, k, served, ref);
    StaySupported(p, g, t, served);
    StaysPlanned(p, g.heap, t.heap, ref);
    AppendedSupports(p, |g.heap.objs|, t.heap, A, g.versions, k, p.Settled(g.heap, ref), g.heap.objs[ref].action,
      t.dependencies, t.Live());
  }

  predicate WorkerEvent(p: Plan, e: Event) {
    e.WorkerDelayEnds? || (e.WorkerRuns? && e.cluster == p.cluster)
  }

  ghost function ServedBy(s: State, e: Event): set<Ref> {
    if e.WorkerRuns? && s.workerQueue.queue != [] then {s.workerQueue.queue[0]} else {}
  }

  /** The objects the worker looked at in the course of `events`. */
  ghost function ServedIn(s: State, events: seq<Event>): set<Ref>
    decreases |events|
  {
    if events == [] || !Enabled(s, events[0]) then {}
    else ServedBy(s, events[0]) + ServedIn(Step(s, events[0]), events[1..])
  }

  /** `Underway` for a state of the pipeline. */
  ghost predicate InRound(p: Plan, s: State, A: iset<Item>, k: nat, served: set<Ref>) {
    s.filters == p.filters && s.namespace == p.namespace && Underway(p, StageOf(s), A, k, served)
  }

  lemma WorkerRunKeepsRound(p: Plan, s: State, orders: seq<Mapping.Orders>, A: iset<Item>, k: nat, served: set<Ref>)
    requires p.Closed() && Conserved(s) && InRound(p, s, A, k, served)
    requires s.workerQueue.queue != [] && OrdersFit(s.filters, orders)
    ensures Enabled(s, WorkerRuns(p.cluster, orders))
    ensures var t := Step(s, WorkerRuns(p.cluster, orders));
            InRound(p, t, A, k, served + {s.workerQueue.queue[0]}) && t.dropped == s.dropped
  {
    WorkerStep(p, s, orders);
    var t := Step(s, WorkerRuns(p.cluster, orders));
    var ref := s.workerQueue.queue[0];
    if p.Goes(s.heap, ref, s.versions) {
      HandOverKeepsRound(p, StageOf(s), StageOf(t), A, k, served, ref);
    } else {
      PutBackKeepsRound(p, StageOf(s), StageOf(t), A, k, served, ref);
    }
  }

  lemma WorkerEventKeepsRound(p: Plan, s: State, e: Event, A: iset<Item>, k: nat, served: set<Ref>)
    requires p.Closed() && Conserved(s) && InRound(p, s, A, k, served) && WorkerEvent(p, e) && Enabled(s, e)
    ensures InRound(p, Step(s, e), A, k, served + ServedBy(s, e)) && Step(s, e).dropped == s.dropped
  {
    if e.WorkerRuns? {
      WorkerRunKeepsRound(p, s, e.orders, A, k, served);
    } else {
      ExpireIdle(s.workerQueue, e.ref);
      assert StageOf(Step(s, e)) == StageOf(s);
      assert served + {} == served;
    }
  }

  /** The same with everything that holds in every reachable state. */
  ghost predicate RoundAt(p: Plan, s: State, A: iset<Item>, k: nat, served: set<Ref>) {
    Invariant(s) && InRound(p, s, A, k, served)
  }

  lemma FirstEventKeepsRound(
    p: Plan, s: State, events: seq<Event>, t: State, A: iset<Item>, k: nat, served: set<Ref>, all: set<Ref>)
    returns (next: State, seen: set<Ref>)
    requires p.Closed() && RoundAt(p, s, A, k, served) && Run(s, events, t) && events != []
    requires WorkerEvent(p, events[0]) && all == served + ServedIn(s, events)
    ensures RoundAt(p, next, A, k, seen) && Run(next, events[1..], t)
    ensures next.dropped == s.dropped && all == seen + ServedIn(next, events[1..])
  {
    seen := served + ServedBy(s, events[0]);
    next := FirstServed(s, events, t, served, all);
    StepKeepsInvariant(s, events[0]);
    WorkerEventKeepsRound(p, s, events[0], A, k, served);
  }

  lemma FirstServed(s: State, events: seq<Event>, t: State, served: set<Ref>, all: set<Ref>) returns (next: State)
    requires Run(s, events, t) && events != [] && all == served + ServedIn(s, events)
    ensures Enabled(s, events[0]) && next == Step(s, events[0]) && Run(next, events[1..], t)
    ensures all == (served + ServedBy(s, events[0])) + ServedIn(next, events[1..])
  {
    next := Step(s, events[0]);
  }

  lemma {:induction false} WorkerEventsKeepRound(
    p: Plan, s: State, events: seq<Event>, t: State, A: iset<Item>, k: nat, served: set<Ref>, all: set<Ref>)
    requires p.Closed() && RoundAt(p, s, A, k, served) && Run(s, events, t)
    requires (forall e | e in events :: WorkerEvent(p, e)) && all == served + ServedIn(s, events)
    ensures RoundAt(p, t, A, k, all) && t.dropped == s.dropped
    decreases |events|
  {
    if events == [] {
      NoEvents(s, t, served, all);
    } else {
      assert events[0] in events;
      var next, seen := FirstEventKeepsRound(p, s, events, t, A, k, served, all);
      WorkerEventsKeepRound(p, next, events[1..], t, A, k, seen, all);
    }
  }

  lemma NoEvents(s: State, t: State, served: set<Ref>, all: set<Ref>)
    requires Run(s, [], t) && all == served + ServedIn(s, [])
    ensures t == s && all == served
  {
  }

  /** The worker looks at everything it holds, also at what it only got meanwhile. */
  ghost predicate WorkerRound(p: Plan, s: State, events: seq<Event>, t: State) {
    && Run(s, events, t)
    && (forall e | e in events :: WorkerEvent(p, e))
    && t.workerQueue.Pending() <= ServedIn(s, events)
  }

  // ---------------------------------------------------------------------
  // A round of the transport manager
  // ---------------------------------------------------------------------

  predicate TransportEvent(e: Event) {
    e.TransportDelayEnds? || e.TransportRuns?
  }

  /** The transport manager goes on, through faults and retries, until it holds nothing. */
  ghost predicate TransportRound(s: State, events: seq<Event>, t: State) {
    && Run(s, events, t)
    && (forall e | e in events :: TransportEvent(e))
    && t.transportQueue.Pending() == {}
  }

  /** The transport manager leaves the worker's side alone; what it gives up is transported. */
  ghost predicate OnlySends(s: State, t: State) {
    && t.heap == s.heap && t.workerQueue == s.workerQueue && t.dependencies == s.dependencies
    && t.filters == s.filters && t.namespace == s.namespace && t.dropped == s.dropped && t.heap.Valid()
    && s.versions.Keys <= t.versions.Keys
    && t.transportQueue.Pending() <= s.transportQueue.Pending()
    && forall r | r in s.transportQueue.Pending() ::
         r < |s.heap.objs| && (r in t.transportQueue.Pending() || s.heap.Uid(r) in t.versions)
  }

  lemma SendsAway(s: State, t: State, ref: Ref)
    requires Conserved(s) && s.transportQueue.queue != [] && ref == s.transportQueue.queue[0] && ref < |s.heap.objs|
    requires t == s.(remote := t.remote, versions := t.versions, successes := t.successes, settled := t.settled,
                     transportQueue := s.transportQueue.Get().Done(ref))
    requires s.versions.Keys <= t.versions.Keys && s.heap.Uid(ref) in t.versions
    ensures OnlySends(s, t)
  {
    ServeIdle(s.transportQueue);
    SendingExists(s);
  }

  lemma TransportRunOnlySends(s: State, fault: Option<Fault>)
    requires Conserved(s) && TransportReturns(s, fault)
    ensures OnlySends(s, TransportRun(s, fault))
  {
    var ref := s.transportQueue.queue[0];
    var o := s.heap.objs[ref];
    var t := TransportRun(s, fault);
    if IsNewVersion(s.versions, s.heap.Uid(ref), GetResourceVersion(s.heap.Tree(ref)))
       && TransportTo(s.remote, s.settings, o.gvr, o.action, s.heap.Tree(ref), fault).1 == Some(OtherError) {
      RetryIdle(s.transportQueue, {});
      assert s.transportQueue.Get().waiting + {ref} + {} == s.transportQueue.Get().waiting + {ref};
      assert t.transportQueue.Pending() == s.transportQueue.Pending();
      SendingExists(s);
    } else {
      SendsAway(s, t, ref);
    }
  }

  lemma TransportEventOnlySends(s: State, e: Event)
    requires Conserved(s) && Enabled(s, e) && TransportEvent(e)
    ensures OnlySends(s, Step(s, e))
  {
    if e.TransportRuns? {
      TransportRunOnlySends(s, e.fault);
    } else {
      ExpireIdle(s.transportQueue, e.ref);
      SendingExists(s);
    }
  }

  lemma SendingExists(s: State)
    requires Conserved(s)
    ensures Allocates(s.heap, s.transportQueue.Pending())
  {
    assert forall r | r in s.transportQueue.Pending() :: r in s.handed && r in s.entered;
  }

  lemma SendsOn(s: State, m: State, t: State)
    requires OnlySends(s, m) && OnlySends(m, t)
    ensures OnlySends(s, t)
  {
  }

  lemma {:induction false} EventsOnlySend(s: State, events: seq<Event>, t: State)
    requires Invariant(s) && Run(s, events, t) && forall e | e in events :: TransportEvent(e)
    ensures Invariant(t) && OnlySends(s, t)
    decreases |events|
  {
    if events == [] {
      SendingExists(s);
    } else {
      assert events[0] in events;
      StepKeepsInvariant(s, events[0]);
      TransportEventOnlySends(s, events[0]);
      EventsOnlySend(Step(s, events[0]), events[1..], t);
      SendsOn(s, Step(s, events[0]), t);
    }
  }

  // ---------------------------------------------------------------------
  // Alternating rounds
  // ---------------------------------------------------------------------

  /** What the worker holds, as a frontier. */
  ghost function HeldItems(p: Plan, h: Heap, held: set<Ref>): iset<Item>
    requires h.Valid() && Allocates(h, held)
  {
    iset r | r in held :: p.Settled(h, r)
  }

  /** Everything that was being sent has been. */
  ghost predicate AllSent(g: Stage, t: Stage) {
    && t.heap == g.heap && g.heap.Valid() && t.held == g.held && t.sending == {} && t.dependencies == g.dependencies
    && g.versions.Keys <= t.versions.Keys
    && forall r | r in g.sending :: r < |g.heap.objs| && g.heap.Uid(r) in t.versions
  }

  /** What was on its way at the end of the worker's round is transported or still held now. */
  lemma MetThenHeld(p: Plan, g: Stage, t: Stage, gvr: GroupVersionResource, d: Document)
    requires p.Closed() && p.OnStage(g) && Allocates(g.heap, g.Live()) && (gvr, d) in p.scope && AllSent(g, t)
    requires Met(p, g.heap, g.Live(), g.versions, gvr, d)
    ensures GetUID(d) in t.versions || (gvr, p.settle(d)) in HeldItems(p, g.heap, g.held)
  {
    if GetUID(d) !in g.versions {
      var q :| q in g.Live() && p.Settled(g.heap, q) == (gvr, p.settle(d));
      assert p.Planned(g.heap, q);
      StaysPlanned(p, g.heap, g.heap, q);
      assert p.ClosedAt((gvr, d));
      assert g.heap.Uid(q) == GetUID(d);
    }
  }

  lemma HeldItemRises(p: Plan, g: Stage, t: Stage, A: iset<Item>, k: nat, served: set<Ref>, r: Ref)
    requires p.Closed() && Underway(p, g, A, k, served) && g.held <= served && AllSent(g, t) && r in g.held
    ensures OnFrontier(p, HeldItems(p, g.heap, g.held), t.versions, k + 1, p.Settled(g.heap, r))
  {
    var it := p.Settled(g.heap, r);
    assert OnFrontier(p, A, g.versions, k, it);
    if p.Rank(it) == k {
      LowestIsReady(p, A, g.versions, k, it);
    }
    var needs := p.Needs(it);
    assert p.ClosedAt(it);
    if !p.Ready(it, t.versions) {
      forall i | 0 <= i < |needs.headers|
        ensures (needs.headers[i].0, p.settle(needs.tree)) in HeldItems(p, g.heap, g.held)
      {
        assert Met(p, g.heap, g.Live(), g.versions, needs.headers[i].0, needs.tree);
        MetThenHeld(p, g, t, needs.headers[i].0, needs.tree);
      }
    }
  }

  /** Nothing that is to be deleted is held. */
  ghost predicate OnlyWritesHeld(g: Stage) {
    forall r | r in g.held :: r < |g.heap.objs| && !g.heap.objs[r].action.Delete?
  }

  /** One round of each raises the frontier by one. */
  lemma RoundRaises(p: Plan, g: Stage, t: Stage, A: iset<Item>, k: nat, served: set<Ref>)
    requires p.Closed() && Underway(p, g, A, k, served) && g.held <= served && AllSent(g, t)
    ensures Underway(p, t, HeldItems(p, g.heap, g.held), k + 1, {}) && OnlyWritesHeld(t)
  {
    var B := HeldItems(p, g.heap, g.held);
    forall it | it in B ensures OnFrontier(p, B, t.versions, k + 1, it) {
      var r :| r in g.held && p.Settled(g.heap, r) == it;
      HeldItemRises(p, g, t, A, k, served, r);
    }
  }

  /** A round of the worker up to `between`, then one of the transport manager up to `after`. */
  datatype Round = Round(work: seq<Event>, between: State, sending: seq<Event>, after: State)

  ghost predicate IsRound(p: Plan, s: State, r: Round) {
    WorkerRound(p, s, r.work, r.between) && TransportRound(r.between, r.sending, r.after)
  }

  ghost predicate Rounds(p: Plan, s: State, rounds: seq<Round>, t: State)
    decreases |rounds|
  {
    if rounds == [] then s == t else IsRound(p, s, rounds[0]) && Rounds(p, rounds[0].after, rounds[1..], t)
  }

  lemma RoundAdvances(p: Plan, s: State, r: Round, A: iset<Item>, k: nat) returns (B: iset<Item>)
    requires p.Closed() && Invariant(s) && InRound(p, s, A, k, {}) && IsRound(p, s, r)
    ensures Invariant(r.after) && InRound(p, r.after, B, k + 1, {})
    ensures r.after.dropped == s.dropped && r.after.transportQueue.Pending() == {}
    ensures s.entered <= r.after.entered && OnlyWritesHeld(StageOf(r.after))
  {
    WorkerEventsKeepRound(p, s, r.work, r.between, A, k, {}, ServedIn(s, r.work));
    RunKeepsInvariant(s, r.work, r.between);
    EventsOnlySend(r.between, r.sending, r.after);
    B := HeldItems(p, r.between.heap, r.between.workerQueue.Pending());
    RoundRaises(p, StageOf(r.between), StageOf(r.after), A, k, ServedIn(s, r.work));
    RunEnters(s, r.work, r.between);
    RunEnters(r.between, r.sending, r.after);
  }

  /** No step forgets an object. */
  lemma StepEnters(s: State, e: Event)
    requires Enabled(s, e)
    ensures s.entered <= Step(s, e).entered
  {
    if e.WorkerRuns? {
      WorkerOutcome(s, e.cluster, e.orders, Step(s, e));
    }
  }

  lemma {:induction false} RunEnters(s: State, events: seq<Event>, t: State)
    requires Run(s, events, t)
    ensures s.entered <= t.entered
    decreases |events|
  {
    if events != [] {
      StepEnters(s, events[0]);
      RunEnters(Step(s, events[0]), events[1..], t);
    }
  }

  lemma {:induction false} RoundsAdvance(p: Plan, s: State, rounds: seq<Round>, t: State, A: iset<Item>, k: nat, n: nat)
    returns (B: iset<Item>)
    requires p.Closed() && Invariant(s) && InRound(p, s, A, k, {}) && Rounds(p, s, rounds, t) && n == k + |rounds|
    ensures Invariant(t) && InRound(p, t, B, n, {})
    ensures t.dropped == s.dropped && s.entered <= t.entered
    ensures rounds != [] ==> t.transportQueue.Pending() == {} && OnlyWritesHeld(StageOf(t))
    decreases |rounds|
  {
    if rounds == [] {
      B := A;
    } else {
      var after := rounds[0].after;
      var C := RoundAdvances(p, s, rounds[0], A, k);
      B := RoundsAdvance(p, after, rounds[1..], t, C, k + 1, n);
      if rounds[1..] == [] {
        assert t == after;
      }
    }
  }

  lemma StartsUnderway(p: Plan, s: State) returns (A: iset<Item>)
    requires p.Closed() && p.On(s)
    ensures InRound(p, s, A, 0, {})
  {
    A := iset it | it in p.scope && p.settle(it.1) == it.1;
    forall it | it in A ensures OnFrontier(p, A, s.versions, 0, it) {
      assert p.ClosedAt(it);
      var needs := p.Needs(it);
      forall i | 0 <= i < |needs.headers| ensures (needs.headers[i].0, p.settle(needs.tree)) in A {
        assert p.ClosedAt((needs.headers[i].0, needs.tree));
      }
    }
    forall r | r in s.workerQueue.Pending() && !s.heap.objs[r].action.Delete? ensures p.Settled(s.heap, r) in A {
      assert p.Planned(s.heap, r);
      StaysPlanned(p, s.heap, s.heap, r);
    }
  }

  lemma FrontierPastTheEnd(p: Plan, g: Stage, B: iset<Item>, k: nat)
    requires Underway(p, g, B, k, {}) && OnlyWritesHeld(g) && forall it | it in p.scope :: p.Rank(it) < k
    ensures g.held == {}
  {
    assert forall it | it in B :: OnFrontier(p, B, g.versions, k, it);
    assert forall it :: it !in B;
    assert forall r :: r !in g.held;
  }

  lemma NowhereElse(s: State, t: State)
    requires Conserved(s) && Conserved(t) && s.entered <= t.entered && t.dropped == s.dropped
    requires t.workerQueue.Pending() == {} && t.transportQueue.Pending() == {}
    ensures forall r | r in s.workerQueue.Pending() :: r in t.handed && r in t.settled
  {
    forall r | r in s.workerQueue.Pending() ensures r in t.handed && r in t.settled {
      assert r in s.entered && r !in s.dropped;
      assert r in t.entered && r !in t.dropped;
    }
  }

  /** Bounded progress: from any state on plan, with dependencies nested at most `d` deep, after
      `d + 1` rounds nothing is left in either queue; nothing was dropped on the way, so
      everything the worker held has been handed over and its version is recorded. */
  lemma BoundedProgress(p: Plan, s: State, rounds: seq<Round>, t: State, d: nat)
    requires p.Closed() && Invariant(s) && p.On(s) && forall it | it in p.scope :: p.Rank(it) <= d
    requires |rounds| == d + 1 && Rounds(p, s, rounds, t)
    ensures t.workerQueue.Pending() == {} && t.transportQueue.Pending() == {}
    ensures t.dropped == s.dropped
    ensures forall r | r in s.workerQueue.Pending() ::
              r in t.handed && r in t.settled && Covered(t.versions, t.settled[r].0, t.settled[r].1)
  {
    var A := StartsUnderway(p, s);
    var B := RoundsAdvance(p, s, rounds, t, A, 0, d + 1);
    FrontierPastTheEnd(p, StageOf(t), B, d + 1);
    NowhereElse(s, t);
  }
}
