/**
 Objects of the kind that is white-listed last are recorded without their uid. So nothing
 that is found to depend on one of them is ever handed over: here over every run.
 */
module NeverRecorded {
  import opened Wrappers
  import opened Json
  import opened Strconv
  import opened ApiTypes
  import opened Objects
  import opened WorkQueue
  import Mapping = VariableMappingFilter
  import opened MappingOrder
  import Deleting = VariableDeleteFilter
  import opened FilterChain
  import opened InstalledChain
  import opened Identity
  import opened DependencyCheckers
  import opened KubeTransporter
  import opened Pipeline
  import opened PipelineSafety
  import Retry

  /** The uid belongs to an object of the kind. */
  predicate Tied(d: Document, u: string, kind: GroupVersionKind) {
    GetUID(d) == u ==> KindOf(d) == kind
  }

  // ---------------------------------------------------------------------
  // Mapping, also when it stops half way
  // ---------------------------------------------------------------------

  /** A leaf that is walked into stays. */
  lemma LeafStays(path: Path, v: VariableMapping, t: Value)
    requires !t.Obj? && !t.Arr?
    ensures Mapping.Iterate(path, v, t).tree == t
  {
  }

  lemma KeyKeepsTop(r: Mapping.Rule, d: Document, k: string)
    ensures GetString(Mapping.ApplyKey(r.0, r.1, d).tree, [k]) == GetString(d, [k])
  {
    var d' := Mapping.ApplyKey(r.0, r.1, d).tree;
    assert [k][1..] == [];
    assert Nested(d, [k]) == if k in d.fields then Found(d.fields[k]) else Missing;
    assert Nested(d', [k]) == if k in d'.fields then Found(d'.fields[k]) else Missing;
    if PathOf(r)[0] == k && k in d.fields && !d.fields[k].Obj? && !d.fields[k].Arr? {
      LeafStays(PathOf(r)[1..], r.1, d.fields[k]);
    }
  }

  lemma KeyKeepsUid(r: Mapping.Rule, d: Document)
    requires PathOf(r) != UID
    ensures GetUID(Mapping.ApplyKey(r.0, r.1, d).tree) == GetUID(d)
  {
    var p := PathOf(r);
    var d' := Mapping.ApplyKey(r.0, r.1, d).tree;
    assert UID[1..] == ["uid"] && ["uid"][1..] == [];
    if p[0] == "metadata" && "metadata" in d.fields {
      var m := d.fields["metadata"];
      assert |p| == 2 ==> p == [p[0], p[1]];
      assert Nested(d, UID) == Nested(m, ["uid"]) && Nested(d', UID) == Nested(d'.fields["metadata"], ["uid"]);
      if m.Obj? {
        MapKeepsUid(p[1..], r.1, m.fields);
      } else if !m.Arr? {
        LeafStays(p[1..], r.1, m);
      }
    }
  }

  lemma MapKeepsUid(path: Path, v: VariableMapping, m: map<string, Value>)
    requires |path| == 1 ==> path[0] != "uid"
    ensures Mapping.Iterate(path, v, Obj(m)).tree.Obj?
    ensures GetString(Mapping.Iterate(path, v, Obj(m)).tree, ["uid"]) == GetString(Obj(m), ["uid"])
  {
    var n := Mapping.Iterate(path, v, Obj(m)).tree.fields;
    assert ["uid"][1..] == [];
    assert Nested(Obj(m), ["uid"]) == if "uid" in m then Found(m["uid"]) else Missing;
    assert Nested(Obj(n), ["uid"]) == if "uid" in n then Found(n["uid"]) else Missing;
    if path != [] && path[0] == "uid" && "uid" in m && !m["uid"].Obj? && !m["uid"].Arr? {
      LeafStays(path[1..], v, m["uid"]);
    }
  }

  /** Same kind and same uid. */
  ghost predicate SameIdentity(x: Document, y: Document) {
    SameKindStrings(x, y) && GetUID(x) == GetUID(y)
  }

  lemma {:induction false} RulesKeepIdentity(rules: seq<Mapping.Rule>, d: Document)
    requires forall i | 0 <= i < |rules| :: PathOf(rules[i]) != UID
    ensures SameIdentity(Mapping.ApplyRules(rules, d).tree, d)
  {
    if rules != [] {
      KeyKeepsTop(rules[0], d, "kind");
      KeyKeepsTop(rules[0], d, "apiVersion");
      KeyKeepsUid(rules[0], d);
      RulesKeepIdentity(rules[1..], AfterRule(rules[0], d));
    }
  }

  /** No mapping rule is about the uid. */
  ghost predicate NoUidRule(entries: seq<VariableMappings>) {
    forall i, k | 0 <= i < |entries| && k in entries[i].keyValueMappings :: SplitComma(k) != UID
  }

  lemma {:induction false} MapOutKeepsIdentity(entries: seq<VariableMappings>, orders: Mapping.Orders, d: Document)
    requires Mapping.AreOrders(orders, entries) && NoUidRule(entries)
    ensures SameIdentity(Mapping.MapOut(entries, orders, d).tree, d)
  {
    if entries != [] && entries[0].kind.Some? {
      assert Mapping.AreOrders(orders[1..], entries[1..]) && NoUidRule(entries[1..]);
      if KindOf(d) != entries[0].kind.value {
        MapOutKeepsIdentity(entries[1..], orders[1..], d);
      } else {
        var block := Mapping.RulesOf(orders[0], entries[0].keyValueMappings);
        forall i | 0 <= i < |block| ensures PathOf(block[i]) != UID {
          assert orders[0][i] in orders[0];
        }
        RulesKeepIdentity(block, d);
        MapOutKeepsIdentity(entries[1..], orders[1..], Mapping.ApplyRules(block, d).tree);
      }
    }
  }

  // ---------------------------------------------------------------------
  // Chains that lose the uid
  // ---------------------------------------------------------------------

  ghost predicate LosesAt(filters: seq<Filter>, orders: seq<Mapping.Orders>, gvr: GroupVersionResource, d: Document,
      u: string, kind: GroupVersionKind)
    requires OrdersFit(filters, orders)
  {
    var r := ChainOut(filters, orders, gvr, d);
    r.verdict != Panic ==>
      && Tied(r.tree, u, kind)
      && (r.verdict == Accept ==> GetUID(r.tree) != u)
      && (GetUID(d) != u ==> GetUID(r.tree) != u)
  }

  /** Whatever the chain accepts has another uid, and it gives the uid to nothing. */
  ghost predicate Loses(filters: seq<Filter>, u: string, kind: GroupVersionKind) {
    forall orders, gvr, d | OrdersFit(filters, orders) && Tied(d, u, kind) :: LosesAt(filters, orders, gvr, d, u, kind)
  }

  /** White-listed last, and no rule about the uid or the kind. */
  ghost predicate LastKind(c: DRFilterConfig, kind: GroupVersionKind) {
    && WhiteListOf(c).kindWhiteList != [] && kind == Last(WhiteListOf(c).kindWhiteList)
    && Retry.KeepsKind(c, kind)
    && (c.variableMappingFilter.Some? ==> NoUidRule(c.variableMappingFilter.value.kindVariableMappings))
  }

  lemma DeletedHasNoUid(c: DRFilterConfig, t: Document, u: string, kind: GroupVersionKind)
    requires LastKind(c, kind) && u != "" && Tied(t, u, kind)
    requires DeleteFrom(Enrich(c), t).verdict == Passed
    ensures GetUID(DeleteFrom(Enrich(c), t).tree) != u
  {
    var e, v, w := Enrich(c), DeletesOf(c), WhiteListOf(c);
    var r := DeleteFrom(e, t).tree;
    Retry.DeletePrunes(e, t);
    PrunedString(r, t, UID);
    if GetUID(t) == u {
      Retry.DeleteFromIsOut(e, t);
      assert DeletesOf(e).kindDeleteList == v.kindDeleteList + KindDefaults(w);
      KindListSplit(v.kindDeleteList, KindDefaults(w), t);
      Deleting.KindRulesSpare(v.kindDeleteList, t, KIND);
      var configured := Deleting.DeleteForKind(v.kindDeleteList, t).tree;
      DefaultsExact(w, configured, KeysOf(UID));
      var middle := Deleting.DeleteForKind(DeletesOf(e).kindDeleteList, t).tree;
      Deleting.StringIsProbed(middle, UID);
      Deleting.DeleteForObjectPrunes(DeletesOf(e).objectDeleteList, middle);
      PrunedString(r, middle, UID);
    }
  }

  /** The chain of such a configuration does. */
  lemma InstalledLoses(c: DRFilterConfig, u: string, kind: GroupVersionKind)
    requires LastKind(c, kind) && u != ""
    ensures Loses(Chain(Some(Enrich(c))), u, kind)
  {
    var e := Enrich(c);
    forall orders, gvr, d | OrdersFit(Chain(Some(e)), orders) && Tied(d, u, kind)
      ensures LosesAt(Chain(Some(e)), orders, gvr, d, u, kind)
    {
      ChainRuns(e, orders, gvr, d);
      var t := Map(e, MapOrder(e, orders), d);
      if e.variableMappingFilter.Some? {
        MapOutKeepsIdentity(e.variableMappingFilter.value.kindVariableMappings, MapOrder(e, orders), d);
      }
      if t.verdict == Passed && DeleteFrom(e, t.tree).verdict == Passed {
        DeletedHasNoUid(c, t.tree, u, kind);
      }
      InstalledDeletePanics(c, t.tree);
    }
  }

  // ---------------------------------------------------------------------
  // Every run
  // ---------------------------------------------------------------------

  ghost predicate AllTied(trees: seq<Document>, u: string, kind: GroupVersionKind) {
    forall i | 0 <= i < |trees| :: Tied(trees[i], u, kind)
  }

  ghost predicate NoneSent(h: Heap, sending: set<Ref>, u: string)
    requires h.Valid()
  {
    forall r | r in sending :: r < |h.objs| && h.Uid(r) != u
  }

  /** Nothing with the uid was recorded, and nothing with it is on its way. */
  ghost predicate Hidden(s: State, u: string, kind: GroupVersionKind) {
    HiddenIn(s.heap, s.transportQueue.Pending(), s.versions, u, kind) && Loses(s.filters, u, kind)
  }

  ghost predicate HiddenIn(h: Heap, sending: set<Ref>, versions: map<string, string>, u: string,
      kind: GroupVersionKind) {
    h.Valid() && AllTied(h.trees, u, kind) && NoneSent(h, sending, u) && u !in versions
  }

  ghost predicate TiedCluster(cluster: Cluster, u: string, kind: GroupVersionKind) {
    && (forall k | k in cluster.claims :: Tied(cluster.claims[k], u, kind))
    && (forall k | k in cluster.volumes :: Tied(cluster.volumes[k], u, kind))
  }

  /** In the source cluster the uid belongs to an object of the kind, and every configuration loses it. */
  ghost predicate TiedEvent(e: Event, u: string, kind: GroupVersionKind) {
    match e
    case ObjectArrives(_, _, _, d) => Tied(d, u, kind)
    case WorkerRuns(cluster, _) => TiedCluster(cluster, u, kind)
    case FiltersChange(filters) => Loses(filters, u, kind)
    case _ => true
  }

  lemma {:induction false} VolumeClaimsTied(volumes: seq<Value>, ns: string, cluster: Cluster, u: string,
      kind: GroupVersionKind)
    requires TiedCluster(cluster, u, kind)
    ensures var r := ClaimsOfVolumes(volumes, ns, cluster); r.Claims? ==> AllTied(r.found, u, kind)
  {
    if volumes != [] {
      VolumeClaimsTied(volumes[1..], ns, cluster, u, kind);
    }
  }

  lemma {:induction false} PodClaimsTied(pods: seq<Document>, cluster: Cluster, u: string, kind: GroupVersionKind)
    requires TiedCluster(cluster, u, kind)
    ensures var r := ClaimsOfPods(pods, cluster); r.Claims? ==> AllTied(r.found, u, kind)
  {
    if pods != [] {
      match Nested(pods[0], ["spec", "volumes"]) {
        case Found(Arr(volumes)) => VolumeClaimsTied(volumes, GetNamespace(pods[0]), cluster, u, kind);
        case _ =>
      }
      PodClaimsTied(pods[1..], cluster, u, kind);
    }
  }

  /** What is found in such a cluster is tied, too. */
  lemma LookupTied(gvr: GroupVersionResource, d: Document, cluster: Cluster, u: string, kind: GroupVersionKind)
    requires TiedCluster(cluster, u, kind) && Tied(d, u, kind)
    ensures var r := DependencyCheckers.Lookup(gvr, d, cluster); r.Dependents? ==> Tied(r.tree, u, kind)
  {
    if gvr == STATEFUL_SET_GVR && cluster.pods.Some? {
      var owned := SiftPods(cluster.pods.value, GetUID(d));
      if owned.Some? {
        PodClaimsTied(owned.value, cluster, u, kind);
      }
    }
  }

  lemma ResolvedTied(h: Heap, ref: Ref, cluster: Cluster, u: string, kind: GroupVersionKind)
    requires h.Valid() && ref < |h.objs| && AllTied(h.trees, u, kind) && TiedCluster(cluster, u, kind)
    ensures var r := GetDependencies(h, ref, cluster); r.Resolved? ==> AllTied(r.heap.trees, u, kind)
  {
    LookupTied(h.objs[ref].gvr, h.Tree(ref), cluster, u, kind);
  }

  lemma StaysNoneSent(h: Heap, t: Heap, sending: set<Ref>, u: string)
    requires h.Valid() && t.Valid() && t.Extends(h) && NoneSent(h, sending, u)
    ensures NoneSent(t, sending, u)
  {
  }

  /** Rewriting an object the way the chain does. */
  lemma RewriteHides(h: Heap, ref: Ref, d: Document, sending: set<Ref>, u: string, kind: GroupVersionKind)
    requires h.Valid() && ref < |h.objs| && AllTied(h.trees, u, kind) && NoneSent(h, sending, u)
    requires Tied(d, u, kind) && (h.Uid(ref) != u ==> GetUID(d) != u)
    ensures AllTied(h.Rewrite(ref, d).trees, u, kind) && NoneSent(h.Rewrite(ref, d), sending, u)
  {
  }

  /** The heap and the transport queue after an iteration of the worker. */
  lemma WorkerHides(s: State, cluster: Cluster, orders: seq<Mapping.Orders>, u: string, kind: GroupVersionKind)
    requires Conserved(s) && Hidden(s, u, kind) && Enabled(s, WorkerRuns(cluster, orders))
             && TiedCluster(cluster, u, kind)
    ensures Hidden(WorkerRun(s, cluster, orders).value, u, kind)
  {
    var ref := s.workerQueue.queue[0];
    var d := s.heap.Tree(ref);
    var got := s.(workerQueue := s.workerQueue.Get());
    WorkerLeavesTransport(s, cluster, orders);
    if GetUID(d) in s.dependencies || GetObjectNamespace(d) == s.namespace {
      assert Tied(d, u, kind) && LosesAt(s.filters, orders, s.heap.objs[ref].gvr, d, u, kind);
      var r := ChainOut(s.filters, orders, s.heap.objs[ref].gvr, d);
      RewriteHides(s.heap, ref, r.tree, s.transportQueue.Pending(), u, kind);
      FilteredHides(got.(heap := s.heap.Rewrite(ref, r.tree)), ref, cluster, GetObjectNamespace(d), GetUID(d),
        r.verdict, u, kind);
    }
  }

  lemma FilteredHides(s: State, ref: Ref, cluster: Cluster, ns: string, uid: string, verdict: FilterVerdict, u: string,
      kind: GroupVersionKind)
    requires Hidden(s, u, kind) && ref < |s.heap.objs| && TiedCluster(cluster, u, kind) && s.transportQueue.Idle()
    requires verdict == Accept ==> s.heap.Uid(ref) != u
    requires AfterFilter(s, ref, cluster, ns, uid, verdict).Some?
    ensures Hidden(AfterFilter(s, ref, cluster, ns, uid, verdict).value, u, kind)
  {
    if verdict == Accept {
      if s.heap.objs[ref].action.Delete? {
        HandingHides(s, s.dependencies - {s.heap.Uid(ref)}, ref, Admission(ref, ns, uid, [], [], true), u, kind);
      } else {
        var r := GetDependencies(s.heap, ref, cluster);
        if r.Resolved? {
          ResolvedTied(s.heap, ref, cluster, u, kind);
          StaysNoneSent(s.heap, r.heap, s.transportQueue.Pending(), u);
          GateHides(s.(heap := r.heap), ref, ns, uid, r.deps, u, kind);
        }
      }
    }
  }

  lemma HandingHides(s: State, dependencies: set<string>, ref: Ref, a: Admission, u: string, kind: GroupVersionKind)
    requires Hidden(s, u, kind) && s.transportQueue.Idle() && ref < |s.heap.objs| && s.heap.Uid(ref) != u
    ensures Hidden(HandOver(s.(dependencies := dependencies), ref, a), u, kind)
  {
    AddedIsPending(s.transportQueue, ref);
  }

  lemma GateHides(s: State, ref: Ref, ns: string, uid: string, deps: seq<Ref>, u: string, kind: GroupVersionKind)
    requires Hidden(s, u, kind) && s.transportQueue.Idle() && ref < |s.heap.objs| && s.heap.Uid(ref) != u
    requires forall i | 0 <= i < |deps| :: deps[i] < |s.heap.objs|
    ensures Hidden(Gate(s, ref, ns, uid, deps), u, kind)
  {
    AddedIsPending(s.transportQueue, ref);
  }

  lemma AddedIsPending(q: Queue<Ref>, ref: Ref)
    requires q.Idle()
    ensures q.Add(ref).Pending() == q.Pending() + {ref}
  {
  }

  lemma StepHides(s: State, e: Event, u: string, kind: GroupVersionKind)
    requires Conserved(s) && Hidden(s, u, kind) && Enabled(s, e) && TiedEvent(e, u, kind)
    ensures Hidden(Step(s, e), u, kind)
  {
    match e
    case ObjectArrives(gvr, namespaced, action, d) =>
      StaysNoneSent(s.heap, Step(s, e).heap, s.transportQueue.Pending(), u);
    case WorkerRuns(cluster, orders) => WorkerHides(s, cluster, orders, u, kind);
    case TransportDelayEnds(ref) => ExpireIdle(s.transportQueue, ref);
    case TransportRuns(fault) => SendHides(s, fault, u, kind);
    case _ =>
  }

  lemma SendHides(s: State, fault: Option<Fault>, u: string, kind: GroupVersionKind)
    requires Conserved(s) && Hidden(s, u, kind) && TransportReturns(s, fault)
    ensures Hidden(TransportRun(s, fault), u, kind)
  {
    var t := TransportRun(s, fault);
    SendParts(s, fault);
    ServeIdle(s.transportQueue);
    assert NoneSent(t.heap, t.transportQueue.Pending(), u) && u !in t.versions;
  }

  lemma SendParts(s: State, fault: Option<Fault>)
    requires s.transportQueue.Idle() && TransportReturns(s, fault)
    ensures var t := TransportRun(s, fault);
            && t.heap == s.heap && t.filters == s.filters
            && t.transportQueue.Pending() <= s.transportQueue.Pending()
            && t.versions.Keys <= s.versions.Keys + {s.heap.Uid(s.transportQueue.queue[0])}
  {
    ServeIdle(s.transportQueue);
  }

  lemma {:induction false} RunHides(s: State, events: seq<Event>, t: State, u: string, kind: GroupVersionKind)
    requires Invariant(s) && Hidden(s, u, kind) && Run(s, events, t)
    requires forall i | 0 <= i < |events| :: TiedEvent(events[i], u, kind)
    ensures Hidden(t, u, kind)
    decreases |events|
  {
    if events != [] {
      assert TiedEvent(events[0], u, kind);
      StepHides(s, events[0], u, kind);
      StepKeepsInvariant(s, events[0]);
      RunHides(Step(s, events[0]), events[1..], t, u, kind);
    }
  }

  /** If the uid belongs to an object of a kind whose uid every configuration of the run takes, then in
      every state of the run nothing is recorded for it, and nothing that was found to depend on it has
      been handed over: a claim bound to such a volume waits for good. */
  lemma DependentNeverGoes(namespace: string, remote: Remote, events: seq<Event>, t: State, u: string,
      kind: GroupVersionKind)
    requires Run(Initial(namespace, remote), events, t)
    requires forall i | 0 <= i < |events| :: TiedEvent(events[i], u, kind)
    ensures u !in t.versions
    ensures forall r | r in t.handed :: t.handed[r] < |t.admissions| && u !in t.admissions[t.handed[r]].resolved
  {
    var s := Initial(namespace, remote);
    forall orders, gvr, d | OrdersFit([], orders) && Tied(d, u, kind) ensures LosesAt([], orders, gvr, d, u, kind) {
    }
    RunHides(s, events, t, u, kind);
    InvariantInEveryRun(namespace, remote, events, t);
  }
}
