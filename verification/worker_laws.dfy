/**
 What becomes of the object at the head of the worker's queue, said in terms of the object, the source
 cluster and what has been transported: when it is dropped and why, when it is handed over, and what it
 waits for.
 */
module WorkerLaws {
  import opened Wrappers
  import opened Json
  import opened ApiTypes
  import opened Objects
  import opened WorkQueue
  import Mapping = VariableMappingFilter
  import opened FilterChain
  import opened DependencyCheckers
  import opened LookupLaws
  import opened KubeTransporter
  import opened Pipeline
  import opened PipelineSafety

  /** An iteration that returns, with the object it takes and what the filters make of it. */
  ghost predicate Takes(s: State, cluster: Cluster, orders: seq<Mapping.Orders>, ref: Ref, r: FilterOutcome) {
    && Conserved(s) && Enabled(s, WorkerRuns(cluster, orders)) && ref == s.workerQueue.queue[0]
    && r == ChainOut(s.filters, orders, s.heap.objs[ref].gvr, s.heap.Tree(ref))
  }

  /** In the namespace, or asked for as a dependency; cluster-scoped objects count as kube-system. */
  ghost predicate Reached(s: State, d: Document) {
    var ns := GetString(d, ["metadata", "namespace"]);
    GetString(d, ["metadata", "uid"]) in s.dependencies || (if ns == "" then "kube-system" else ns) == s.namespace
  }

  /** What the object depends on is looked up and not found. */
  ghost predicate LookupMisses(gvr: GroupVersionResource, d: Document, cluster: Cluster) {
    if gvr == PERSISTENT_VOLUME_CLAIM_GVR then
      GetString(d, ["spec", "volumeName"]) != "" && GetString(d, ["spec", "volumeName"]) !in cluster.volumes
    else gvr == STATEFUL_SET_GVR && !SetReadable(d, cluster)
  }

  /** What the object depends on as far as it is waited for: a claim's volume, the last claim of a set. */
  ghost predicate DependsOn(gvr: GroupVersionResource, d: Document, cluster: Cluster, tree: Document) {
    if gvr == PERSISTENT_VOLUME_CLAIM_GVR then
      var volume := GetString(d, ["spec", "volumeName"]);
      volume != "" && volume in cluster.volumes && tree == cluster.volumes[volume]
    else gvr == STATEFUL_SET_GVR && exists claims :: ClaimsEndWith(d, cluster, claims, tree)
  }

  ghost predicate ClaimsEndWith(d: Document, cluster: Cluster, claims: seq<Document>, tree: Document) {
    SetClaims(d, cluster, claims) && claims != [] && claims[|claims| - 1] == tree
  }

  /** Everything the object waits for has been transported. */
  ghost predicate NothingLacks(s: State, gvr: GroupVersionResource, d: Document, cluster: Cluster) {
    forall tree: Document | DependsOn(gvr, d, cluster, tree) :: GetString(tree, ["metadata", "uid"]) in s.versions
  }

  // ---------------------------------------------------------------------
  // Arrivals and delays
  // ---------------------------------------------------------------------

  /** An event of the collector becomes a new object of its own, which waits for its turn. */
  lemma ArrivesAsIs(s: State, gvr: GroupVersionResource, namespaced: bool, action: ObjectAction, d: Document)
    requires Conserved(s)
    ensures var t, ref := Step(s, ObjectArrives(gvr, namespaced, action, d)), |s.heap.objs|;
            && t.heap.Valid() && |t.heap.objs| == ref + 1 && s.heap.objs <= t.heap.objs && s.heap.trees <= t.heap.trees
            && t.heap.Tree(ref) == d && t.heap.objs[ref].gvr == gvr && t.heap.objs[ref].namespaced == namespaced
            && t.heap.objs[ref].action == action
            && (forall o | o in s.heap.objs :: o.unstructured != t.heap.objs[ref].unstructured)
            && ref !in s.workerQueue.waiting
            && t.workerQueue == s.workerQueue.(waiting := s.workerQueue.waiting + {ref})
  {
    forall o | o in s.heap.objs ensures o.unstructured < |s.heap.trees| {
      var i :| 0 <= i < |s.heap.objs| && s.heap.objs[i] == o;
    }
    assert |s.heap.objs| !in s.entered;
  }

  /** An object whose delay is over is at the end of the queue, once. */
  lemma DelayIsOver(s: State, ref: Ref)
    requires Conserved(s)
    ensures ref in s.workerQueue.waiting ==>
              var q := Step(s, WorkerDelayEnds(ref)).workerQueue;
              q.queue == s.workerQueue.queue + [ref] && q.waiting == s.workerQueue.waiting - {ref}
              && ref !in s.workerQueue.queue
    ensures ref in s.transportQueue.waiting ==>
              var q := Step(s, TransportDelayEnds(ref)).transportQueue;
              q.queue == s.transportQueue.queue + [ref] && q.waiting == s.transportQueue.waiting - {ref}
              && ref !in s.transportQueue.queue
  {
  }

  // ---------------------------------------------------------------------
  // What a lookup comes to
  // ---------------------------------------------------------------------

  lemma LookupVerdict(gvr: GroupVersionResource, d: Document, cluster: Cluster)
    requires !DependencyCheckers.Lookup(gvr, d, cluster).LookupPanics?
    ensures DependencyCheckers.Lookup(gvr, d, cluster).NoAnswer? <==> LookupMisses(gvr, d, cluster)
  {
    SetVerdict(d, cluster);
  }

  lemma EndIsLast(d: Document, cluster: Cluster, claims: seq<Document>, tree: Document)
    requires SetClaims(d, cluster, claims)
    ensures (exists all :: ClaimsEndWith(d, cluster, all, tree)) <==> claims != [] && claims[|claims| - 1] == tree
  {
    if claims != [] && claims[|claims| - 1] == tree {
      assert ClaimsEndWith(d, cluster, claims, tree);
    }
    if exists all :: ClaimsEndWith(d, cluster, all, tree) {
      var all :| ClaimsEndWith(d, cluster, all, tree);
      SetClaimsUnique(d, cluster, all, claims);
    }
  }

  lemma LookupTree(gvr: GroupVersionResource, d: Document, cluster: Cluster, tree: Document)
    requires DependencyCheckers.Lookup(gvr, d, cluster).Dependents?
    ensures DependsOn(gvr, d, cluster, tree) <==>
              && DependencyCheckers.Lookup(gvr, d, cluster).headers != []
              && DependencyCheckers.Lookup(gvr, d, cluster).tree == tree
  {
    if gvr == STATEFUL_SET_GVR {
      assert STATEFUL_SET_GVR != PERSISTENT_VOLUME_CLAIM_GVR;
      var claims := SetLookup(d, cluster);
      EndIsLast(d, cluster, claims, tree);
    }
  }

  // ---------------------------------------------------------------------
  // The steps of an iteration
  // ---------------------------------------------------------------------

  lemma OutOfReach(s: State, cluster: Cluster, orders: seq<Mapping.Orders>, ref: Ref, r: FilterOutcome)
    requires Takes(s, cluster, orders, ref, r) && !Reached(s, s.heap.Tree(ref))
    ensures Step(s, WorkerRuns(cluster, orders)) ==
            s.(workerQueue := s.workerQueue.Get().Done(ref), dropped := s.dropped[ref := OutOfScope])
  {
  }

  /** The object taken, and rewritten. */
  ghost function Taken(s: State, ref: Ref, r: FilterOutcome): State
    requires s.heap.Valid() && ref < |s.heap.objs| && s.workerQueue.queue != []
  {
    s.(workerQueue := s.workerQueue.Get(), heap := s.heap.Rewrite(ref, r.tree))
  }

  lemma InReach(s: State, cluster: Cluster, orders: seq<Mapping.Orders>, ref: Ref, r: FilterOutcome)
    returns (f: State, p: State)
    requires Takes(s, cluster, orders, ref, r) && Reached(s, s.heap.Tree(ref))
    ensures f == Taken(s, ref, r) && f.heap.Valid() && f.heap.objs == s.heap.objs && f.heap.Tree(ref) == r.tree
    ensures AfterFilter(f, ref, cluster, GetObjectNamespace(s.heap.Tree(ref)), s.heap.Uid(ref), r.verdict) == Some(p)
    ensures Step(s, WorkerRuns(cluster, orders)) == p.(workerQueue := p.workerQueue.Done(ref))
  {
    f := Taken(s, ref, r);
    p := AfterFilter(f, ref, cluster, GetObjectNamespace(s.heap.Tree(ref)), s.heap.Uid(ref), r.verdict).value;
  }

  // ---------------------------------------------------------------------
  // Dropping
  // ---------------------------------------------------------------------

  /** Why the object is dropped, if it is. */
  ghost function DropFor(s: State, cluster: Cluster, ref: Ref, r: FilterOutcome): Option<DropReason>
    requires s.heap.Valid() && ref < |s.heap.objs|
  {
    var o := s.heap.objs[ref];
    if !Reached(s, s.heap.Tree(ref)) then Some(OutOfScope)
    else if r.verdict.Reject? then Some(FilterRejected)
    else if r.verdict.Error? then Some(FilterErrored)
    else if !o.action.Delete? && LookupMisses(o.gvr, r.tree, cluster) then Some(LookupFailed)
    else None
  }

  /** An object is dropped exactly if it is out of scope, refused by a filter, or not to be deleted and
      depends on something that is not found; then it is not handed over. */
  lemma DroppedIff(s: State, cluster: Cluster, orders: seq<Mapping.Orders>, ref: Ref, r: FilterOutcome)
    requires Takes(s, cluster, orders, ref, r)
    ensures ref !in s.dropped && ref !in s.handed
    ensures var t := Step(s, WorkerRuns(cluster, orders));
            match DropFor(s, cluster, ref, r)
            case None => t.dropped == s.dropped
            case Some(reason) =>
              && t.dropped == s.dropped[ref := reason]
              && t.handed == s.handed && t.transportQueue == s.transportQueue && t.dependencies == s.dependencies
  {
    ServeIdle(s.workerQueue);
    if !Reached(s, s.heap.Tree(ref)) {
      OutOfReach(s, cluster, orders, ref, r);
    } else {
      var f, p := InReach(s, cluster, orders, ref, r);
      FilterDrops(f, ref, cluster, GetObjectNamespace(s.heap.Tree(ref)), s.heap.Uid(ref), r.verdict, p);
    }
  }

  lemma FilterDrops(f: State, ref: Ref, cluster: Cluster, ns: string, uid: string, verdict: FilterVerdict, p: State)
    requires f.heap.Valid() && ref < |f.heap.objs| && AfterFilter(f, ref, cluster, ns, uid, verdict) == Some(p)
    ensures var o := f.heap.objs[ref];
            if verdict.Reject? then p == f.(dropped := f.dropped[ref := FilterRejected])
            else if verdict.Error? then p == f.(dropped := f.dropped[ref := FilterErrored])
            else if !o.action.Delete? && LookupMisses(o.gvr, f.heap.Tree(ref), cluster) then
              p == f.(dropped := f.dropped[ref := LookupFailed])
            else p.dropped == f.dropped
  {
    if verdict.Accept? && !f.heap.objs[ref].action.Delete? {
      var c := Looks(f, ref, cluster, ns, uid, p);
    }
  }

  /** An object that is not to be deleted has its dependencies looked up, ... */
  lemma Looks(f: State, ref: Ref, cluster: Cluster, ns: string, uid: string, p: State) returns (c: Checked)
    requires f.heap.Valid() && ref < |f.heap.objs| && !f.heap.objs[ref].action.Delete?
    requires AfterFilter(f, ref, cluster, ns, uid, Accept) == Some(p)
    ensures c == GetDependencies(f.heap, ref, cluster)
    ensures if LookupMisses(f.heap.objs[ref].gvr, f.heap.Tree(ref), cluster) then p == Drop(f, ref, LookupFailed)
            else c.Resolved? && p == Gate(f.(heap := c.heap), ref, ns, uid, c.deps)
    ensures p.dropped == if c.Resolved? then f.dropped else f.dropped[ref := LookupFailed]
  {
    c := GetDependencies(f.heap, ref, cluster);
    LookupVerdict(f.heap.objs[ref].gvr, f.heap.Tree(ref), cluster);
  }

  // ---------------------------------------------------------------------
  // Handing over and waiting
  // ---------------------------------------------------------------------

  /** The object goes on to the transport manager: it is to be deleted, or lacks nothing. */
  ghost predicate Goes(s: State, cluster: Cluster, ref: Ref, r: FilterOutcome)
    requires s.heap.Valid() && ref < |s.heap.objs|
  {
    && DropFor(s, cluster, ref, r).None?
    && (s.heap.objs[ref].action.Delete? || NothingLacks(s, s.heap.objs[ref].gvr, r.tree, cluster))
  }

  /** All objects a lookup found show one tree, ... */
  lemma OneTree(h: Heap, ref: Ref, looked: Looked) returns (c: Checked)
    requires h.Valid() && ref < |h.objs| && looked.Dependents?
    ensures c == Allocated(h, ref, looked) && c.Resolved? && c.heap.Valid() && c.heap.Tree(ref) == h.Tree(ref)
    ensures |c.deps| == |looked.headers| && |c.heap.objs| == |h.objs| + |c.deps|
    ensures forall i | 0 <= i < |c.deps| ::
              && c.deps[i] == |h.objs| + i && c.heap.Tree(c.deps[i]) == looked.tree
              && c.heap.objs[c.deps[i]].gvr == looked.headers[i].0
              && c.heap.objs[c.deps[i]].namespaced == looked.headers[i].1
              && c.heap.objs[c.deps[i]].action == h.objs[ref].action
  {
    c := Allocated(h, ref, looked);
  }

  /** ... so that one uid decides whether any of them, and then all, lack. */
  lemma AllOrNone(h: Heap, deps: seq<Ref>, uid: string, versions: map<string, string>)
    requires h.Valid() && forall i | 0 <= i < |deps| :: deps[i] < |h.objs| && h.Uid(deps[i]) == uid
    ensures var lacking := Untransported(h, deps, versions);
            if deps == [] || uid in versions then lacking == []
            else lacking != [] && forall d :: d in lacking <==> d in deps
  {
    var lacking := Untransported(h, deps, versions);
    if deps == [] || uid in versions {
      SomeRef(lacking);
    } else {
      assert deps[0] in lacking;
    }
  }

  lemma SomeRef(a: seq<Ref>)
    ensures a != [] ==> exists x: Ref :: x in a
  {
    if a != [] {
      assert a[0] in a;
    }
  }

  lemma GateOpen(f: State, ref: Ref, ns: string, uid: string, deps: seq<Ref>)
    requires f.heap.Valid() && forall i | 0 <= i < |deps| :: deps[i] < |f.heap.objs|
    requires Untransported(f.heap, deps, f.versions) == []
    ensures var p := Gate(f, ref, ns, uid, deps);
            p == f.(transportQueue := f.transportQueue.Add(ref), handed := f.handed[ref := |f.admissions|],
                    admissions := p.admissions)
  {
  }

  lemma ShutIsWait(f: State, ref: Ref, ns: string, uid: string, deps: seq<Ref>)
    requires f.heap.Valid() && forall i | 0 <= i < |deps| :: deps[i] < |f.heap.objs|
    requires Untransported(f.heap, deps, f.versions) != []
    ensures var lacking := Untransported(f.heap, deps, f.versions);
            var p := Gate(f, ref, ns, uid, deps);
            var more := set d | d in lacking;
            p == f.(workerQueue := f.workerQueue.(waiting := f.workerQueue.waiting + {ref} + more),
                    dependencies := f.dependencies + (set u | u in Uids(f.heap, lacking)),
                    entered := f.entered + more, admissions := p.admissions)
  {
  }

  lemma LackingSets(h: Heap, deps: seq<Ref>, uid: string, versions: map<string, string>)
    requires h.Valid() && forall i | 0 <= i < |deps| :: deps[i] < |h.objs| && h.Uid(deps[i]) == uid
    requires deps != [] && uid !in versions
    ensures var lacking := Untransported(h, deps, versions);
            lacking != [] && (set d | d in lacking) == (set d | d in deps) && (set u | u in Uids(h, lacking)) == {uid}
  {
    AllOrNone(h, deps, uid, versions);
    UidsAreOne(h, Untransported(h, deps, versions), uid);
  }

  lemma GateShut(f: State, ref: Ref, ns: string, uid: string, deps: seq<Ref>, u: string)
    requires f.heap.Valid() && forall i | 0 <= i < |deps| :: deps[i] < |f.heap.objs| && f.heap.Uid(deps[i]) == u
    requires deps != [] && u !in f.versions
    ensures var p := Gate(f, ref, ns, uid, deps);
            var more := set d | d in deps;
            p == f.(workerQueue := f.workerQueue.(waiting := f.workerQueue.waiting + {ref} + more),
                    dependencies := f.dependencies + {u}, entered := f.entered + more, admissions := p.admissions)
  {
    LackingSets(f.heap, deps, u, f.versions);
    ShutIsWait(f, ref, ns, uid, deps);
  }

  lemma UidsAreOne(h: Heap, refs: seq<Ref>, uid: string)
    requires h.Valid() && refs != [] && forall d | d in refs :: d < |h.objs| && h.Uid(d) == uid
    ensures forall i | 0 <= i < |refs| :: refs[i] < |h.objs|
    ensures (set u | u in Uids(h, refs)) == {uid}
  {
    assert forall i | 0 <= i < |refs| :: refs[i] in refs;
    assert Uids(h, refs)[0] == uid;
  }

  /** What an object that is not to be deleted comes to: handed over, or waiting with what it lacks. */
  lemma Gated(f: State, ref: Ref, cluster: Cluster, ns: string, uid: string, p: State) returns (c: Checked)
    requires f.heap.Valid() && ref < |f.heap.objs| && !f.heap.objs[ref].action.Delete?
    requires AfterFilter(f, ref, cluster, ns, uid, Accept) == Some(p)
    requires !LookupMisses(f.heap.objs[ref].gvr, f.heap.Tree(ref), cluster)
    ensures var looked := DependencyCheckers.Lookup(f.heap.objs[ref].gvr, f.heap.Tree(ref), cluster);
            && looked.Dependents? && c == Allocated(f.heap, ref, looked) && c.Resolved?
            && var more := set d | d in c.deps;
               if looked.headers == [] || GetUID(looked.tree) in f.versions then
                 p == f.(heap := c.heap, transportQueue := f.transportQueue.Add(ref),
                         handed := f.handed[ref := |f.admissions|], admissions := p.admissions)
               else
                 p == f.(heap := c.heap, entered := f.entered + more, admissions := p.admissions,
                         workerQueue := f.workerQueue.(waiting := f.workerQueue.waiting + {ref} + more),
                         dependencies := f.dependencies + {GetUID(looked.tree)})
  {
    c := Looks(f, ref, cluster, ns, uid, p);
    var looked := DependencyCheckers.Lookup(f.heap.objs[ref].gvr, f.heap.Tree(ref), cluster);
    var all := OneTree(f.heap, ref, looked);
    AllOrNone(c.heap, c.deps, GetUID(looked.tree), f.versions);
    if looked.headers == [] || GetUID(looked.tree) in f.versions {
      GateOpen(f.(heap := c.heap), ref, ns, uid, c.deps);
    } else {
      GateShut(f.(heap := c.heap), ref, ns, uid, c.deps, GetUID(looked.tree));
    }
  }

  lemma DeletedGoes(f: State, ref: Ref, cluster: Cluster, ns: string, uid: string, p: State)
    requires f.heap.Valid() && ref < |f.heap.objs| && f.heap.objs[ref].action.Delete?
    requires AfterFilter(f, ref, cluster, ns, uid, Accept) == Some(p)
    ensures p == f.(dependencies := f.dependencies - {f.heap.Uid(ref)}, transportQueue := f.transportQueue.Add(ref),
                    handed := f.handed[ref := |f.admissions|], admissions := p.admissions)
  {
  }

  lemma LacksByLookup(s: State, gvr: GroupVersionResource, d: Document, cluster: Cluster)
    requires DependencyCheckers.Lookup(gvr, d, cluster).Dependents?
    ensures var looked := DependencyCheckers.Lookup(gvr, d, cluster);
            NothingLacks(s, gvr, d, cluster) <==> looked.headers == [] || GetUID(looked.tree) in s.versions
  {
    var looked := DependencyCheckers.Lookup(gvr, d, cluster);
    forall tree: Document ensures DependsOn(gvr, d, cluster, tree) <==> looked.headers != [] && looked.tree == tree {
      LookupTree(gvr, d, cluster, tree);
    }
  }

  /** What the transport side and the object look like once it has been handed over. */
  ghost predicate HandedAs(s: State, p: State, ref: Ref, r: FilterOutcome, dependencies: set<string>)
    requires s.workerQueue.queue != []
  {
    && p.transportQueue == s.transportQueue.Add(ref) && p.handed == s.handed[ref := |s.admissions|]
    && p.workerQueue == s.workerQueue.Get() && p.dependencies == dependencies
    && p.heap.Valid() && ref < |p.heap.objs| && p.heap.Tree(ref) == r.tree
  }

  ghost predicate NotHanded(s: State, p: State) {
    p.transportQueue == s.transportQueue && p.handed == s.handed
  }

  lemma FoundGoes(s: State, f: State, cluster: Cluster, ref: Ref, r: FilterOutcome, ns: string, uid: string, p: State)
    requires s.heap.Valid() && ref < |s.heap.objs| && s.workerQueue.queue != [] && f == Taken(s, ref, r)
    requires f.heap.Valid() && f.heap.objs == s.heap.objs && f.heap.Tree(ref) == r.tree
    requires !s.heap.objs[ref].action.Delete? && !LookupMisses(s.heap.objs[ref].gvr, r.tree, cluster)
    requires AfterFilter(f, ref, cluster, ns, uid, Accept) == Some(p)
    ensures if NothingLacks(s, s.heap.objs[ref].gvr, r.tree, cluster) then HandedAs(s, p, ref, r, s.dependencies)
            else NotHanded(s, p)
  {
    var gvr := s.heap.objs[ref].gvr;
    var c := Gated(f, ref, cluster, ns, uid, p);
    LacksByLookup(s, gvr, r.tree, cluster);
    var all := OneTree(f.heap, ref, DependencyCheckers.Lookup(gvr, r.tree, cluster));
  }

  /** Between the filters and `Done`. */
  lemma GoesOrStays(s: State, f: State, cluster: Cluster, ref: Ref, r: FilterOutcome, ns: string, uid: string, p: State)
    requires s.heap.Valid() && ref < |s.heap.objs| && s.workerQueue.queue != [] && f == Taken(s, ref, r)
    requires f.heap.Valid() && f.heap.objs == s.heap.objs && f.heap.Tree(ref) == r.tree
    requires Reached(s, s.heap.Tree(ref)) && AfterFilter(f, ref, cluster, ns, uid, r.verdict) == Some(p)
    ensures if Goes(s, cluster, ref, r) then
              HandedAs(s, p, ref, r, if s.heap.objs[ref].action.Delete? then s.dependencies - {GetUID(r.tree)}
                                     else s.dependencies)
            else NotHanded(s, p)
  {
    var o := s.heap.objs[ref];
    if r.verdict.Accept? && o.action.Delete? {
      DeletedGoes(f, ref, cluster, ns, uid, p);
    } else if r.verdict.Accept? && !LookupMisses(o.gvr, r.tree, cluster) {
      FoundGoes(s, f, cluster, ref, r, ns, uid, p);
    } else {
      FilterDrops(f, ref, cluster, ns, uid, r.verdict, p);
    }
  }

  /** An object is handed over exactly if it is reached and accepted, and is to be deleted or has all it
      depends on found and transported. It goes as the filters left it, to the end of the transport
      queue; a deletion takes its uid out of scope. */
  lemma HandedIff(s: State, cluster: Cluster, orders: seq<Mapping.Orders>, ref: Ref, r: FilterOutcome)
    requires Takes(s, cluster, orders, ref, r)
    ensures ref !in s.handed
    ensures var t := Step(s, WorkerRuns(cluster, orders));
            if Goes(s, cluster, ref, r) then
              && t.handed == s.handed[ref := |s.admissions|]
              && t.transportQueue.queue == s.transportQueue.queue + [ref]
              && t.workerQueue.waiting == s.workerQueue.waiting
              && t.heap.Valid() && ref < |t.heap.objs| && t.heap.Tree(ref) == r.tree
              && t.dependencies == (if s.heap.objs[ref].action.Delete?
                                    then s.dependencies - {GetString(r.tree, ["metadata", "uid"])} else s.dependencies)
            else t.handed == s.handed && t.transportQueue == s.transportQueue
  {
    ServeIdle(s.workerQueue);
    assert ref in s.workerQueue.Pending() && ref !in s.transportQueue.Pending();
    if !Reached(s, s.heap.Tree(ref)) {
      OutOfReach(s, cluster, orders, ref, r);
    } else {
      var f, p := InReach(s, cluster, orders, ref, r);
      GoesOrStays(s, f, cluster, ref, r, GetObjectNamespace(s.heap.Tree(ref)), s.heap.Uid(ref), p);
    }
  }

  /** `ref` waits with new objects that all show `tree`, in the object's own action; `tree` is in scope. */
  ghost predicate WaitsFor(s: State, t: State, ref: Ref, tree: Document)
    requires s.heap.Valid() && ref < |s.heap.objs|
  {
    && t.heap.Valid() && |t.heap.objs| > |s.heap.objs|
    && (forall x :: x in t.workerQueue.waiting <==>
          x in s.workerQueue.waiting || x == ref || |s.heap.objs| <= x < |t.heap.objs|)
    && t.dependencies == s.dependencies + {GetString(tree, ["metadata", "uid"])}
    && (forall x | |s.heap.objs| <= x < |t.heap.objs| ::
          t.heap.Tree(x) == tree && t.heap.objs[x].action == s.heap.objs[ref].action)
    && (s.heap.objs[ref].gvr == PERSISTENT_VOLUME_CLAIM_GVR ==>
          && |t.heap.objs| == |s.heap.objs| + 1
          && t.heap.objs[|s.heap.objs|].gvr == PERSISTENT_VOLUME_GVR && !t.heap.objs[|s.heap.objs|].namespaced)
  }

  /** What waits, by number. */
  lemma NewWait(waiting: set<Ref>, ref: Ref, base: nat, deps: seq<Ref>)
    requires forall i | 0 <= i < |deps| :: deps[i] == base + i
    ensures forall x :: x in waiting + {ref} + (set d | d in deps) <==>
              x in waiting || x == ref || base <= x < base + |deps|
  {
    forall x: Ref | base <= x < base + |deps| ensures x in deps {
      assert deps[x - base] == x;
    }
  }

  /** The new objects, by number. */
  lemma NewShow(h: Heap, ref: Ref, looked: Looked) returns (c: Checked)
    requires h.Valid() && ref < |h.objs| && looked.Dependents?
    ensures c == Allocated(h, ref, looked) && c.Resolved? && c.heap.Valid()
    ensures |c.deps| == |looked.headers| && |c.heap.objs| == |h.objs| + |c.deps|
    ensures forall i | 0 <= i < |c.deps| :: c.deps[i] == |h.objs| + i
    ensures c.heap.Tree(ref) == h.Tree(ref)
    ensures forall x | |h.objs| <= x < |c.heap.objs| ::
              && c.heap.Tree(x) == looked.tree && c.heap.objs[x].action == h.objs[ref].action
              && (c.heap.objs[x].gvr, c.heap.objs[x].namespaced) == looked.headers[x - |h.objs|]
  {
    c := OneTree(h, ref, looked);
    forall x | |h.objs| <= x < |c.heap.objs|
      ensures c.heap.Tree(x) == looked.tree && c.heap.objs[x].action == h.objs[ref].action
      ensures (c.heap.objs[x].gvr, c.heap.objs[x].namespaced) == looked.headers[x - |h.objs|]
    {
      assert c.deps[x - |h.objs|] == x;
    }
  }

  lemma VolumeHeader(d: Document, cluster: Cluster)
    requires LookupVolume(d, cluster).Dependents? && LookupVolume(d, cluster).headers != []
    ensures LookupVolume(d, cluster).headers == [(PERSISTENT_VOLUME_GVR, false)]
  {
  }

  lemma FoundWaits(s: State, f: State, cluster: Cluster, ref: Ref, r: FilterOutcome, ns: string, uid: string, p: State)
    returns (tree: Document)
    requires s.heap.Valid() && ref < |s.heap.objs| && s.workerQueue.queue != [] && f == Taken(s, ref, r)
    requires f.heap.Valid() && f.heap.objs == s.heap.objs && f.heap.Tree(ref) == r.tree
    requires !s.heap.objs[ref].action.Delete? && !LookupMisses(s.heap.objs[ref].gvr, r.tree, cluster)
    requires AfterFilter(f, ref, cluster, ns, uid, Accept) == Some(p)
    requires !NothingLacks(s, s.heap.objs[ref].gvr, r.tree, cluster)
    ensures DependsOn(s.heap.objs[ref].gvr, r.tree, cluster, tree)
    ensures GetString(tree, ["metadata", "uid"]) !in s.versions
    ensures WaitsFor(s, p, ref, tree) && ref < |p.heap.objs| && p.heap.Tree(ref) == r.tree
  {
    var gvr := s.heap.objs[ref].gvr;
    var c := Gated(f, ref, cluster, ns, uid, p);
    var looked := DependencyCheckers.Lookup(gvr, r.tree, cluster);
    tree := looked.tree;
    LacksByLookup(s, gvr, r.tree, cluster);
    LookupTree(gvr, r.tree, cluster, tree);
    var all := NewShow(f.heap, ref, looked);
    NewWait(s.workerQueue.waiting, ref, |s.heap.objs|, c.deps);
    if gvr == PERSISTENT_VOLUME_CLAIM_GVR {
      VolumeHeader(r.tree, cluster);
    }
  }

  /** An object that is neither dropped nor handed over waits, together with what it depends on and has
      not been transported. */
  lemma WaitsWithDependency(s: State, cluster: Cluster, orders: seq<Mapping.Orders>, ref: Ref, r: FilterOutcome)
    returns (tree: Document)
    requires Takes(s, cluster, orders, ref, r) && DropFor(s, cluster, ref, r).None? && !Goes(s, cluster, ref, r)
    ensures DependsOn(s.heap.objs[ref].gvr, r.tree, cluster, tree)
    ensures GetString(tree, ["metadata", "uid"]) !in s.versions
    ensures var t := Step(s, WorkerRuns(cluster, orders));
            WaitsFor(s, t, ref, tree) && ref < |t.heap.objs| && t.heap.Tree(ref) == r.tree
  {
    var f, p := InReach(s, cluster, orders, ref, r);
    tree := FoundWaits(s, f, cluster, ref, r, GetObjectNamespace(s.heap.Tree(ref)), s.heap.Uid(ref), p);
  }

  // ---------------------------------------------------------------------
  // Claims and sets
  // ---------------------------------------------------------------------

  lemma ClaimGoes(s: State, cluster: Cluster, ref: Ref, r: FilterOutcome, volume: string)
    requires s.heap.Valid() && ref < |s.heap.objs| && s.heap.objs[ref].gvr == PERSISTENT_VOLUME_CLAIM_GVR
    requires volume == GetString(r.tree, ["spec", "volumeName"]) && volume != "" && !s.heap.objs[ref].action.Delete?
    requires Goes(s, cluster, ref, r)
    ensures volume in cluster.volumes && GetString(cluster.volumes[volume], ["metadata", "uid"]) in s.versions
  {
    assert DependsOn(PERSISTENT_VOLUME_CLAIM_GVR, r.tree, cluster, cluster.volumes[volume]);
  }

  /** A claim that names a volume is handed over, other than to be deleted, only when the volume is found
      and has been transported, and is dropped as soon as it is not found. */
  lemma ClaimNeedsItsVolume(s: State, cluster: Cluster, orders: seq<Mapping.Orders>, ref: Ref, r: FilterOutcome,
      volume: string)
    requires Takes(s, cluster, orders, ref, r) && s.heap.objs[ref].gvr == PERSISTENT_VOLUME_CLAIM_GVR
    requires volume == GetString(r.tree, ["spec", "volumeName"]) && volume != "" && !s.heap.objs[ref].action.Delete?
    ensures ref in Step(s, WorkerRuns(cluster, orders)).handed ==>
              volume in cluster.volumes && GetString(cluster.volumes[volume], ["metadata", "uid"]) in s.versions
    ensures Reached(s, s.heap.Tree(ref)) && r.verdict.Accept? && volume !in cluster.volumes ==>
              var t := Step(s, WorkerRuns(cluster, orders));
              ref in t.dropped && t.dropped[ref] == LookupFailed && t.transportQueue == s.transportQueue
  {
    HandedIff(s, cluster, orders, ref, r);
    DroppedIff(s, cluster, orders, ref, r);
    if Goes(s, cluster, ref, r) {
      ClaimGoes(s, cluster, ref, r, volume);
    }
  }

  lemma SetGoes(s: State, cluster: Cluster, ref: Ref, r: FilterOutcome, claims: seq<Document>, last: Document)
    requires s.heap.Valid() && ref < |s.heap.objs| && s.heap.objs[ref].gvr == STATEFUL_SET_GVR
    requires !s.heap.objs[ref].action.Delete? && Goes(s, cluster, ref, r)
    ensures SetReadable(r.tree, cluster)
    ensures ClaimsEndWith(r.tree, cluster, claims, last) ==> GetString(last, ["metadata", "uid"]) in s.versions
  {
    assert STATEFUL_SET_GVR != PERSISTENT_VOLUME_CLAIM_GVR;
    if ClaimsEndWith(r.tree, cluster, claims, last) {
      assert DependsOn(STATEFUL_SET_GVR, r.tree, cluster, last);
    }
  }

  /** A set is handed over, other than to be deleted, only when its pods were listed and every claim they
      mount was found, and the last of these claims has been transported. */
  lemma SetNeedsItsClaims(s: State, cluster: Cluster, orders: seq<Mapping.Orders>, ref: Ref, r: FilterOutcome,
      claims: seq<Document>, last: Document)
    requires Takes(s, cluster, orders, ref, r) && s.heap.objs[ref].gvr == STATEFUL_SET_GVR
    requires !s.heap.objs[ref].action.Delete? && ref in Step(s, WorkerRuns(cluster, orders)).handed
    ensures SetReadable(r.tree, cluster)
    ensures ClaimsEndWith(r.tree, cluster, claims, last) ==> GetString(last, ["metadata", "uid"]) in s.versions
  {
    HandedIff(s, cluster, orders, ref, r);
    SetGoes(s, cluster, ref, r, claims, last);
  }

  // ---------------------------------------------------------------------
  // What an admission names
  // ---------------------------------------------------------------------

  /** An admission that names the object as it came in and, if it is not to be deleted, exactly the uid
      of what it depends on. */
  ghost predicate Names(s: State, cluster: Cluster, ref: Ref, r: FilterOutcome, a: Admission)
    requires s.heap.Valid() && ref < |s.heap.objs|
  {
    var o := s.heap.objs[ref];
    && a.ref == ref && a.uid == GetString(s.heap.Tree(ref), ["metadata", "uid"])
    && a.handed == Goes(s, cluster, ref, r)
    && forall u :: u in a.resolved <==> !o.action.Delete? && DependsOnUid(o.gvr, r.tree, cluster, u)
  }

  ghost predicate DependsOnUid(gvr: GroupVersionResource, d: Document, cluster: Cluster, u: string) {
    exists tree: Document :: DependsOn(gvr, d, cluster, tree) && GetString(tree, ["metadata", "uid"]) == u
  }

  lemma UidByLookup(gvr: GroupVersionResource, d: Document, cluster: Cluster, u: string)
    requires DependencyCheckers.Lookup(gvr, d, cluster).Dependents?
    ensures var looked := DependencyCheckers.Lookup(gvr, d, cluster);
            DependsOnUid(gvr, d, cluster, u) <==> looked.headers != [] && u == GetUID(looked.tree)
  {
    var looked := DependencyCheckers.Lookup(gvr, d, cluster);
    LookupTree(gvr, d, cluster, looked.tree);
    if DependsOnUid(gvr, d, cluster, u) {
      var tree: Document :| DependsOn(gvr, d, cluster, tree) && GetString(tree, ["metadata", "uid"]) == u;
      LookupTree(gvr, d, cluster, tree);
    }
  }

  lemma GateAdmits(f: State, ref: Ref, ns: string, uid: string, deps: seq<Ref>, u: string)
    requires f.heap.Valid() && forall i | 0 <= i < |deps| :: deps[i] < |f.heap.objs| && f.heap.Uid(deps[i]) == u
    ensures var p := Gate(f, ref, ns, uid, deps);
            && |p.admissions| == |f.admissions| + 1
            && var a := p.admissions[|f.admissions|];
               && a.ref == ref && a.uid == uid && (a.handed <==> deps == [] || u in f.versions)
               && forall v :: v in a.resolved <==> deps != [] && v == u
  {
    AllOrNone(f.heap, deps, u, f.versions);
    if deps != [] {
      assert Uids(f.heap, deps)[0] == u;
    }
  }

  /** Every object that is not dropped is admitted under its uid and the uid of what it depends on. */
  lemma AdmittedByName(s: State, cluster: Cluster, orders: seq<Mapping.Orders>, ref: Ref, r: FilterOutcome)
    requires Takes(s, cluster, orders, ref, r) && DropFor(s, cluster, ref, r).None?
    ensures var t := Step(s, WorkerRuns(cluster, orders));
            |t.admissions| == |s.admissions| + 1 && Names(s, cluster, ref, r, t.admissions[|s.admissions|])
  {
    var f, p := InReach(s, cluster, orders, ref, r);
    var ns, uid := GetObjectNamespace(s.heap.Tree(ref)), s.heap.Uid(ref);
    if !s.heap.objs[ref].action.Delete? {
      FoundNames(s, f, cluster, ref, r, ns, uid, p);
    }
  }

  lemma FoundNames(s: State, f: State, cluster: Cluster, ref: Ref, r: FilterOutcome, ns: string, uid: string, p: State)
    requires s.heap.Valid() && ref < |s.heap.objs| && s.workerQueue.queue != [] && f == Taken(s, ref, r)
    requires f.heap.Valid() && f.heap.objs == s.heap.objs && f.heap.Tree(ref) == r.tree
    requires DropFor(s, cluster, ref, r).None? && !s.heap.objs[ref].action.Delete? && uid == s.heap.Uid(ref)
    requires AfterFilter(f, ref, cluster, ns, uid, Accept) == Some(p)
    ensures |p.admissions| == |s.admissions| + 1 && Names(s, cluster, ref, r, p.admissions[|s.admissions|])
  {
    var gvr := s.heap.objs[ref].gvr;
    var c := Looks(f, ref, cluster, ns, uid, p);
    var looked := DependencyCheckers.Lookup(gvr, r.tree, cluster);
    var all := OneTree(f.heap, ref, looked);
    GateAdmits(f.(heap := c.heap), ref, ns, uid, c.deps, GetUID(looked.tree));
    LacksByLookup(s, gvr, r.tree, cluster);
    var a := p.admissions[|s.admissions|];
    forall u ensures u in a.resolved <==> DependsOnUid(gvr, r.tree, cluster, u) {
      UidByLookup(gvr, r.tree, cluster, u);
    }
  }

  // ---------------------------------------------------------------------
  // Over runs
  // ---------------------------------------------------------------------

  lemma LogStep(s: State, e: Event)
    requires Enabled(s, e)
    ensures s.successes <= Step(s, e).successes
  {
    if e.WorkerRuns? {
      WorkerLeavesTransport(s, e.cluster, e.orders);
    }
  }

  lemma {:induction false} LogGrows(s: State, events: seq<Event>, t: State)
    requires Run(s, events, t)
    ensures s.successes <= t.successes
    decreases |events|
  {
    if events != [] {
      LogStep(s, events[0]);
      LogGrows(Step(s, events[0]), events[1..], t);
    }
  }

  /** When an object is handed over, what it depends on has succeeded, and it has not itself. */
  lemma HandedAfterDependency(s: State, cluster: Cluster, orders: seq<Mapping.Orders>, ref: Ref, r: FilterOutcome,
      tree: Document) returns (j: nat)
    requires Invariant(s) && Takes(s, cluster, orders, ref, r) && !s.heap.objs[ref].action.Delete?
    requires ref in Step(s, WorkerRuns(cluster, orders)).handed
    requires DependsOn(s.heap.objs[ref].gvr, r.tree, cluster, tree)
    ensures j < |s.successes| && s.successes[j].uid == GetString(tree, ["metadata", "uid"])
    ensures forall k | 0 <= k < |s.successes| :: s.successes[k].ref != ref
  {
    HandedIff(s, cluster, orders, ref, r);
    j :| SuccessfulAt(s.successes, j, GetString(tree, ["metadata", "uid"]));
    assert forall k | 0 <= k < |s.successes| :: s.successes[k].ref in s.handed;
  }

  /** In every run: what an object depends on has succeeded before it was handed over, and the object
      itself only succeeds afterwards. */
  lemma DependencySucceedsFirst(namespace: string, remote: Remote, before: seq<Event>, s: State, cluster: Cluster,
      orders: seq<Mapping.Orders>, ref: Ref, r: FilterOutcome, tree: Document, after: seq<Event>, t: State, i: nat)
    returns (j: nat)
    requires Run(Initial(namespace, remote), before, s) && Takes(s, cluster, orders, ref, r)
    requires ref in Step(s, WorkerRuns(cluster, orders)).handed && !s.heap.objs[ref].action.Delete?
    requires DependsOn(s.heap.objs[ref].gvr, r.tree, cluster, tree)
    requires Run(Step(s, WorkerRuns(cluster, orders)), after, t)
    requires i < |t.successes| && t.successes[i].ref == ref
    ensures j < i && t.successes[j].uid == GetString(tree, ["metadata", "uid"])
  {
    InvariantInEveryRun(namespace, remote, before, s);
    j := HandedAfterDependency(s, cluster, orders, ref, r, tree);
    LogGrowsAfter(s, WorkerRuns(cluster, orders), after, t);
    NewerInLog(s.successes, t.successes, i, ref);
  }

  lemma LogGrowsAfter(s: State, e: Event, after: seq<Event>, t: State)
    requires Enabled(s, e) && Run(Step(s, e), after, t)
    ensures s.successes <= t.successes
  {
    LogStep(s, e);
    LogGrows(Step(s, e), after, t);
  }

  lemma NewerInLog(before: seq<Success>, after: seq<Success>, i: nat, ref: Ref)
    requires before <= after && i < |after| && after[i].ref == ref
    requires forall k | 0 <= k < |before| :: before[k].ref != ref
    ensures |before| <= i && forall k | 0 <= k < |before| :: after[k] == before[k]
  {
  }
}
