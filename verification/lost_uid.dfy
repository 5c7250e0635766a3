/**
 What follows from the default delete rule: objects of the kind that is white-listed last
 lose their uid before they are sent, so that all of them share one recorded version.
 */
module LostUid {
  import opened Wrappers
  import opened Json
  import opened Strconv
  import opened ApiTypes
  import opened Objects
  import opened WorkQueue
  import Mapping = VariableMappingFilter
  import Deleting = VariableDeleteFilter
  import opened FilterChain
  import opened InstalledChain
  import opened DependencyCheckers
  import opened KubeTransporter
  import opened Pipeline
  import opened PipelineSafety
  import opened PipelineTheorems

  /** Nothing is under way. */
  ghost predicate Quiet(s: State) {
    s.heap.Valid() && s.workerQueue == Empty() && s.transportQueue == Empty()
  }

  /** The chain accepts a new object of the namespace, without dependencies, as `out`. */
  ghost predicate Admits(s: State, gvr: GroupVersionResource, d: Document, orders: seq<Mapping.Orders>, out: Document) {
    && gvr != PERSISTENT_VOLUME_CLAIM_GVR && gvr != STATEFUL_SET_GVR && GetObjectNamespace(d) == s.namespace
    && OrdersFit(s.filters, orders) && ChainOut(s.filters, orders, gvr, d) == FilterOutcome(out, Accept)
  }

  function HeapWith(h: Heap, gvr: GroupVersionResource, d: Document): (r: Heap)
    requires h.Valid()
    ensures r.Valid() && |r.objs| == |h.objs| + 1 && r.Tree(|h.objs|) == d
  {
    Heap(h.objs + [ObjResource(|h.trees|, gvr, true, Create)], h.trees + [d])
  }

  /** The state once the object has arrived and been handed over as `out`. */
  ghost function HandedState(s: State, gvr: GroupVersionResource, d: Document, out: Document): State
    requires s.heap.Valid()
  {
    var ref := |s.heap.objs|;
    var a := Admission(ref, GetObjectNamespace(d), GetUID(d), [], [], true);
    s.(heap := HeapWith(s.heap, gvr, out), entered := s.entered + {ref}, transportQueue := Queue([ref], {ref}, {}, {}),
       handed := s.handed[ref := |s.admissions|], admissions := s.admissions + [a])
  }

  lemma Arrives(s: State, gvr: GroupVersionResource, d: Document) returns (t: State)
    requires Quiet(s)
    ensures Run(s, [ObjectArrives(gvr, true, Create, d), WorkerDelayEnds(|s.heap.objs|)], t)
    ensures t == s.(heap := HeapWith(s.heap, gvr, d), entered := s.entered + {|s.heap.objs|},
                    workerQueue := Queue([|s.heap.objs|], {|s.heap.objs|}, {}, {}))
  {
    var ref := |s.heap.objs|;
    var events := [ObjectArrives(gvr, true, Create, d), WorkerDelayEnds(ref)];
    var one := Step(s, events[0]);
    assert one.workerQueue == Queue([], {}, {}, {ref});
    t := Step(one, events[1]);
    assert t.workerQueue == Queue([ref], {ref}, {}, {});
    assert events[1..] == [events[1]] && events[1..][1..] == [];
    assert Run(t, [], t);
  }

  lemma IsHandedOver(s: State, gvr: GroupVersionResource, d: Document, orders: seq<Mapping.Orders>, out: Document,
      cluster: Cluster, t: State)
    requires Quiet(s) && Admits(s, gvr, d, orders, out)
    requires t == s.(heap := HeapWith(s.heap, gvr, d), entered := s.entered + {|s.heap.objs|},
                     workerQueue := Queue([|s.heap.objs|], {|s.heap.objs|}, {}, {}))
    ensures Enabled(t, WorkerRuns(cluster, orders))
            && Step(t, WorkerRuns(cluster, orders)) == HandedState(s, gvr, d, out)
  {
    var ref := |s.heap.objs|;
    var got := t.(workerQueue := t.workerQueue.Get());
    assert got.workerQueue == Queue([], {}, {ref}, {});
    var h := got.heap.Rewrite(ref, out);
    assert h == HeapWith(s.heap, gvr, out);
    assert GetDependencies(h, ref, cluster) == Resolved(h, []);
    assert Uids(h, []) == [] && Untransported(h, [], s.versions) == [];
    assert HandOver(got.(heap := h), ref,
      Admission(ref, GetObjectNamespace(d), GetUID(d), [], [], true)).transportQueue == Queue([ref], {ref}, {}, {});
    assert t.workerQueue.Get().Done(ref) == Empty();
  }

  /** `t` is `s` with one more object sent as `out`: written if it is newer, settled in any case. */
  ghost predicate SentAs(s: State, gvr: GroupVersionResource, out: Document, t: State) {
    var uid, version := GetUID(out), GetResourceVersion(out);
    && s.heap.Valid() && t.filters == s.filters && t.settings == s.settings && t.namespace == s.namespace
    && |t.heap.objs| == |s.heap.objs| + 1 && t.settled == s.settled[|s.heap.objs| := (uid, version)]
    && (IsNewVersion(s.versions, uid, version) ==>
          && t.remote == CreateRemote(s.remote, gvr, out).0 && t.versions == s.versions[uid := version]
          && |t.successes| == |s.successes| + 1 && s.successes <= t.successes
          && t.successes[|s.successes|].ref == |s.heap.objs|)
    && (!IsNewVersion(s.versions, uid, version) ==>
         t.remote == s.remote && t.versions == s.versions && t.successes == s.successes)
  }

  lemma IsSent(s: State, gvr: GroupVersionResource, d: Document, out: Document)
    requires Quiet(s) && s.settings.Some?
    ensures var h := HandedState(s, gvr, d, out);
            && Enabled(h, TransportRuns(None))
            && Quiet(Step(h, TransportRuns(None))) && SentAs(s, gvr, out, Step(h, TransportRuns(None)))
  {
    var h := HandedState(s, gvr, d, out);
    var ref := |s.heap.objs|;
    assert h.transportQueue.Get() == Queue([], {}, {ref}, {});
    assert h.transportQueue.Get().Done(ref) == Empty();
  }

  /** From a state where nothing is under way, one new object passes through the whole pipeline. */
  lemma Delivered(s: State, gvr: GroupVersionResource, d: Document, orders: seq<Mapping.Orders>, out: Document,
      cluster: Cluster)
    returns (events: seq<Event>, t: State)
    requires Quiet(s) && Admits(s, gvr, d, orders, out) && s.settings.Some?
    ensures Run(s, events, t) && Quiet(t) && SentAs(s, gvr, out, t)
  {
    var arrived := Arrives(s, gvr, d);
    IsHandedOver(s, gvr, d, orders, out, cluster, arrived);
    IsSent(s, gvr, d, out);
    var first := [ObjectArrives(gvr, true, Create, d), WorkerDelayEnds(|s.heap.objs|)];
    var second := [WorkerRuns(cluster, orders), TransportRuns(None)];
    t := Step(HandedState(s, gvr, d, out), TransportRuns(None));
    assert second[1..] == [second[1]] && second[1..][1..] == [];
    assert Run(t, [], t) && Run(arrived, second, t);
    events := first + second;
    RunsJoin(s, first, arrived, second, t);
  }

  /** The pipeline with a configuration and settings in place. */
  lemma Configured(namespace: string, remote: Remote, filters: seq<Filter>, settings: PairClusterSettings)
    returns (events: seq<Event>, s: State)
    ensures Run(Initial(namespace, remote), events, s) && Quiet(s)
    ensures s == Initial(namespace, remote).(filters := filters, settings := Some(settings))
  {
    events := [FiltersChange(filters), SettingsChange(settings)];
    s := Step(Step(Initial(namespace, remote), events[0]), events[1]);
    assert events[1..] == [events[1]] && events[1..][1..] == [];
    assert Run(s, [], s);
  }

  /** White-lists one kind and has no rules. */
  function OnlyKind(kind: GroupVersionKind): DRFilterConfig {
    DRFilterConfig(None, None, Some(WhiteListFilterConfig([], [kind])))
  }

  /** It takes the uid from every object of the kind, and nothing else. */
  lemma OnlyUidTaken(kind: GroupVersionKind, gvr: GroupVersionResource, d: Document, orders: seq<Mapping.Orders>)
    requires KindOf(d) == kind && gvr != PERSISTENT_VOLUME_CLAIM_GVR
             && OrdersFit(Chain(Some(Enrich(OnlyKind(kind)))), orders)
    ensures ChainOut(Chain(Some(Enrich(OnlyKind(kind)))), orders, gvr, d) == FilterOutcome(Remove(d, UID), Accept)
  {
    var e := Enrich(OnlyKind(kind));
    ChainRuns(e, orders, gvr, d);
    OnlyDefault(kind);
    assert WhiteListed(e.whiteListFilter, d) by { assert kind in [kind]; }
    DefaultTakesUid(d, DeletesOf(e).kindDeleteList);
  }

  lemma OnlyDefault(kind: GroupVersionKind)
    ensures Enrich(OnlyKind(kind)).whiteListFilter == Some(WhiteListFilterConfig([], [kind]))
    ensures Enrich(OnlyKind(kind)).variableMappingFilter == None
    ensures Enrich(OnlyKind(kind)).variableDeleteFilter ==
            Some(VariableDeleteFilterConfig([], [VariableDelete(None, Some(kind), DEFAULT_DELETE)]))
  {
    var v := DeletesOf(Enrich(OnlyKind(kind)));
    assert v.kindDeleteList == [VariableDelete(None, Some(kind), DEFAULT_DELETE)] && v.objectDeleteList == [];
  }

  lemma DefaultTakesUid(d: Document, rules: seq<VariableDelete>)
    requires rules == [VariableDelete(None, Some(KindOf(d)), DEFAULT_DELETE)]
    ensures Deleting.DeleteForKind(rules, d) == Mapping.Outcome(Remove(d, UID), Passed)
  {
    UidKey(DEFAULT_DELETE[0]);
    var paths := Deleting.SplitAll(DEFAULT_DELETE);
    assert |paths| == 1 && paths[0] == UID && paths[1..] == [] && rules[1..] == [];
    assert Deleting.RemoveAll(paths, d) == Deleting.RemoveAll(paths[1..], Remove(d, paths[0]));
  }

  lemma UidTaken(d: Document)
    ensures GetUID(Remove(d, UID)) == "" && SameKey(Remove(d, UID), d)
    ensures GetResourceVersion(Remove(d, UID)) == GetResourceVersion(d)
  {
    StringRemoved(d, UID);
    assert UID[1] == "uid" && NAME[1] == "name" && NAMESPACE[1] == "namespace"
      && RESOURCE_VERSION[1] == "resourceVersion";
    StringUntouched(d, UID, NAME);
    StringUntouched(d, UID, NAMESPACE);
    StringUntouched(d, UID, RESOURCE_VERSION);
  }

  /** Two objects of the white-listed kind, the second with no higher version than the first: a run
      from the start in which the second is settled as stale, and then never written, however the
      run goes on. */
  lemma SecondNeverWritten(namespace: string, remote: Remote, settings: PairClusterSettings, cluster: Cluster,
      kind: GroupVersionKind, gvr: GroupVersionResource, d: Document, d2: Document)
    returns (events: seq<Event>, t: State)
    requires gvr != PERSISTENT_VOLUME_CLAIM_GVR && gvr != STATEFUL_SET_GVR && KindOf(d) == KindOf(d2) == kind
    requires GetObjectNamespace(d) == GetObjectNamespace(d2) == namespace && GetName(d) != GetName(d2)
    requires Atoi(GetResourceVersion(d2)).0 <= Atoi(GetResourceVersion(d)).0
    ensures Run(Initial(namespace, remote), events, t) && t.filters == Chain(Some(Enrich(OnlyKind(kind))))
    ensures t.settled.Keys == {0, 1} && KeyFor(gvr, d) in t.remote
    ensures KeyFor(gvr, d2) in t.remote ==>
              KeyFor(gvr, d2) in remote && t.remote[KeyFor(gvr, d2)] == remote[KeyFor(gvr, d2)]
    ensures forall more: seq<Event>, u: State | Run(t, more, u) :: 1 in u.settled && !Succeeded(u, 1)
  {
    var filters := Chain(Some(Enrich(OnlyKind(kind))));
    var orders := AnyFilterOrders(filters);
    var out, out2 := Remove(d, UID), Remove(d2, UID);
    OnlyUidTaken(kind, gvr, d, orders);
    OnlyUidTaken(kind, gvr, d2, orders);
    UidTaken(d);
    UidTaken(d2);
    var s, m;
    events, s, m, t := TwoDelivered(namespace, remote, settings, cluster, filters, gvr, d, out, d2, out2, orders);
    SecondStaysBehind(s, gvr, out, m, out2, t);
    InvariantInEveryRun(namespace, remote, events, t);
    forall more: seq<Event>, u: State | Run(t, more, u) ensures 1 in u.settled && !Succeeded(u, 1) {
      StaysUnwritten(t, more, u, 1);
    }
  }

  lemma TwoDelivered(
    namespace: string, remote: Remote, settings: PairClusterSettings, cluster: Cluster, filters: seq<Filter>,
    gvr: GroupVersionResource, d: Document, out: Document, d2: Document, out2: Document, orders: seq<Mapping.Orders>)
    returns (events: seq<Event>, s: State, m: State, t: State)
    requires Admits(Initial(namespace, remote).(filters := filters), gvr, d, orders, out)
    requires Admits(Initial(namespace, remote).(filters := filters), gvr, d2, orders, out2)
    ensures Run(Initial(namespace, remote), events, t) && SentAs(s, gvr, out, m) && SentAs(m, gvr, out2, t)
    ensures s == Initial(namespace, remote).(filters := filters, settings := Some(settings))
  {
    var e;
    e, s := Configured(namespace, remote, filters, settings);
    var first, second;
    first, m := Delivered(s, gvr, d, orders, out, cluster);
    RunsJoin(Initial(namespace, remote), e, s, first, m);
    second, t := Delivered(m, gvr, d2, orders, out2, cluster);
    RunsJoin(Initial(namespace, remote), e + first, m, second, t);
    events := e + first + second;
  }

  lemma FirstIsRecorded(s: State, gvr: GroupVersionResource, out: Document, m: State)
    requires SentAs(s, gvr, out, m) && s.heap.objs == [] && s.settled == map[] && s.versions == map[]
             && s.successes == []
    requires GetUID(out) == ""
    ensures m.settled.Keys == {0} && m.versions == map["" := GetResourceVersion(out)]
    ensures |m.successes| == 1 && m.successes[0].ref == 0 && m.remote == CreateRemote(s.remote, gvr, out).0
  {
  }

  lemma SecondStaysBehind(s: State, gvr: GroupVersionResource, out: Document, m: State, out2: Document, t: State)
    requires SentAs(s, gvr, out, m) && SentAs(m, gvr, out2, t)
    requires s.heap.objs == [] && s.settled == map[] && s.versions == map[] && s.successes == []
    requires GetUID(out) == GetUID(out2) == "" && KeyFor(gvr, out) != KeyFor(gvr, out2)
    requires Atoi(GetResourceVersion(out2)).0 <= Atoi(GetResourceVersion(out)).0
    ensures t.settled.Keys == {0, 1} && KeyFor(gvr, out) in t.remote && !Succeeded(t, 1)
    ensures KeyFor(gvr, out2) in t.remote ==>
              KeyFor(gvr, out2) in s.remote && t.remote[KeyFor(gvr, out2)] == s.remote[KeyFor(gvr, out2)]
  {
    FirstIsRecorded(s, gvr, out, m);
    CreatedWithoutIdentity(gvr, out);
    assert !IsNewVersion(m.versions, "", GetResourceVersion(out2));
  }
}
