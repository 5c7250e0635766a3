/** What every step of the pipeline keeps, and what therefore holds in every run. */
module PipelineSafety {
  import opened Wrappers
  import opened Json
  import opened Strconv
  import opened ApiTypes
  import opened Objects
  import opened WorkQueue
  import Mapping = VariableMappingFilter
  import opened FilterChain
  import opened DependencyCheckers
  import opened KubeTransporter
  import opened Pipeline

  // ---------------------------------------------------------------------
  // The ways an iteration of the worker can end
  // ---------------------------------------------------------------------

  /** The worker touches neither what has been transported nor the remote cluster. */
  ghost predicate TransportUntouched(s: State, t: State) {
    && t.namespace == s.namespace && t.filters == s.filters && t.versions == s.versions
    && t.settings == s.settings && t.remote == s.remote && t.successes == s.successes && t.settled == s.settled
    && t.heap.Valid() && |s.heap.objs| <= |t.heap.objs|
  }

  ghost predicate Dropped(s: State, t: State, ref: Ref) {
    && s.workerQueue.queue != [] && ref == s.workerQueue.queue[0]
    && TransportUntouched(s, t)
    && t.workerQueue == s.workerQueue.Get().Done(ref) && t.transportQueue == s.transportQueue
    && t.dependencies == s.dependencies && t.entered == s.entered
    && t.admissions == s.admissions && t.handed == s.handed
    && ref in t.dropped && t.dropped == s.dropped[ref := t.dropped[ref]]
  }

  ghost predicate Handed(s: State, t: State, ref: Ref, a: Admission) {
    && s.workerQueue.queue != [] && ref == s.workerQueue.queue[0]
    && TransportUntouched(s, t)
    && t.workerQueue == s.workerQueue.Get().Done(ref) && t.transportQueue == s.transportQueue.Add(ref)
    && t.dependencies <= s.dependencies && t.entered == s.entered && t.dropped == s.dropped
    && t.admissions == s.admissions + [a] && t.handed == s.handed[ref := |s.admissions|]
    && a.ref == ref && a.handed && a.waitsFor == []
    && (a.ns == s.namespace || a.uid in s.dependencies)
    && (forall u | u in a.resolved :: u in s.versions)
  }

  ghost predicate Waits(s: State, t: State, ref: Ref, a: Admission, more: set<Ref>) {
    && s.workerQueue.queue != [] && ref == s.workerQueue.queue[0]
    && TransportUntouched(s, t)
    && t.workerQueue == s.workerQueue.Get().Done(ref).(waiting := s.workerQueue.Get().waiting + {ref} + more)
    && t.transportQueue == s.transportQueue
    && t.dependencies == s.dependencies + (set u | u in a.waitsFor)
    && t.entered == s.entered + more && t.dropped == s.dropped && t.handed == s.handed
    && (forall d | d in more :: |s.heap.objs| <= d < |t.heap.objs|)
    && t.admissions == s.admissions + [a]
    && a.ref == ref && !a.handed
    && (a.ns == s.namespace || a.uid in s.dependencies)
    && (forall u | u in a.waitsFor :: u in a.resolved)
  }

  lemma UntransportedUids(h: Heap, deps: seq<Ref>, versions: map<string, string>)
    requires h.Valid() && forall i | 0 <= i < |deps| :: deps[i] < |h.objs|
    ensures forall u :: u in Uids(h, Untransported(h, deps, versions)) ==> u in Uids(h, deps)
    ensures Untransported(h, deps, versions) == [] ==> forall u :: u in Uids(h, deps) ==> u in versions
  {
    var lacking := Untransported(h, deps, versions);
    forall u | u in Uids(h, lacking) ensures u in Uids(h, deps) {
      var i :| 0 <= i < |lacking| && Uids(h, lacking)[i] == u;
      assert lacking[i] in deps;
      var j :| 0 <= j < |deps| && deps[j] == lacking[i];
      assert Uids(h, deps)[j] == u;
    }
    if lacking == [] {
      forall u | u in Uids(h, deps) ensures u in versions {
        var j :| 0 <= j < |deps| && Uids(h, deps)[j] == u;
        assert deps[j] in deps && deps[j] !in lacking;
      }
    }
  }

  lemma HandOverOutcome(s: State, g: State, ref: Ref, a: Admission, t: State)
    requires s.workerQueue.queue != [] && ref == s.workerQueue.queue[0]
    requires g == s.(workerQueue := s.workerQueue.Get(), heap := g.heap, dependencies := g.dependencies)
    requires g.heap.Valid() && |s.heap.objs| <= |g.heap.objs| && g.dependencies <= s.dependencies
    requires a.ref == ref && a.handed && a.waitsFor == [] && (a.ns == s.namespace || a.uid in s.dependencies)
    requires forall u | u in a.resolved :: u in s.versions
    requires var u := HandOver(g, ref, a); t == u.(workerQueue := u.workerQueue.Done(ref))
    ensures t.admissions != [] && Last(t.admissions) == a && Handed(s, t, ref, a)
  {
  }

  lemma DropOutcome(s: State, g: State, ref: Ref, reason: DropReason, t: State)
    requires s.workerQueue.queue != [] && ref == s.workerQueue.queue[0]
    requires g == s.(workerQueue := s.workerQueue.Get(), heap := g.heap)
    requires g.heap.Valid() && |s.heap.objs| <= |g.heap.objs|
    requires var u := Drop(g, ref, reason); t == u.(workerQueue := u.workerQueue.Done(ref))
    ensures Dropped(s, t, ref)
  {
  }

  lemma WaitOutcome(s: State, g: State, ref: Ref, lacking: seq<Ref>, a: Admission, t: State)
    requires s.workerQueue.queue != [] && ref == s.workerQueue.queue[0]
    requires g == s.(workerQueue := s.workerQueue.Get(), heap := g.heap)
    requires g.heap.Valid() && |s.heap.objs| <= |g.heap.objs|
    requires forall d | d in lacking :: |s.heap.objs| <= d < |g.heap.objs|
    requires a.ref == ref && !a.handed && (a.ns == s.namespace || a.uid in s.dependencies)
    requires forall u | u in a.waitsFor :: u in a.resolved
    requires var u := Wait(g, ref, lacking, (set u | u in a.waitsFor), a);
             t == u.(workerQueue := u.workerQueue.Done(ref))
    ensures t.admissions != [] && Last(t.admissions) == a && Waits(s, t, ref, a, set d | d in lacking)
  {
    var more := set d | d in lacking;
    assert t.workerQueue == s.workerQueue.Get().Done(ref).(waiting := s.workerQueue.Get().waiting + {ref} + more);
  }

  /** How the worker's part of an iteration ends for an object that was accepted and not deleted. */
  lemma GateOutcome(s: State, g: State, ref: Ref, ns: string, uid: string, deps: seq<Ref>, t: State)
    requires s.workerQueue.queue != [] && ref == s.workerQueue.queue[0]
    requires g == s.(workerQueue := s.workerQueue.Get(), heap := g.heap)
    requires g.heap.Valid() && |s.heap.objs| <= |g.heap.objs|
    requires forall i | 0 <= i < |deps| :: |s.heap.objs| <= deps[i] < |g.heap.objs|
    requires ns == s.namespace || uid in s.dependencies
    requires var u := Gate(g, ref, ns, uid, deps); t == u.(workerQueue := u.workerQueue.Done(ref))
    ensures t.admissions != []
    ensures Handed(s, t, ref, Last(t.admissions)) || exists more :: Waits(s, t, ref, Last(t.admissions), more)
  {
    var lacking := Untransported(g.heap, deps, s.versions);
    var lacks := Uids(g.heap, lacking);
    var a := Admission(ref, ns, uid, Uids(g.heap, deps), lacks, lacking == []);
    UntransportedUids(g.heap, deps, s.versions);
    if lacking == [] {
      HandOverOutcome(s, g, ref, a, t);
    } else {
      WaitOutcome(s, g, ref, lacking, a, t);
    }
  }

  ghost predicate Outcome(s: State, t: State, ref: Ref) {
    || Dropped(s, t, ref)
    || (t.admissions != [] && Handed(s, t, ref, Last(t.admissions)))
    || (t.admissions != [] && exists more :: Waits(s, t, ref, Last(t.admissions), more))
  }

  lemma FilteredOutcome(s: State, f: State, ref: Ref, cluster: Cluster, ns: string, uid: string, verdict: FilterVerdict,
      p: State)
    requires s.workerQueue.queue != [] && ref == s.workerQueue.queue[0]
    requires f == s.(workerQueue := s.workerQueue.Get(), heap := f.heap)
    requires f.heap.Valid() && |s.heap.objs| <= |f.heap.objs| && ref < |f.heap.objs|
    requires ns == s.namespace || uid in s.dependencies
    requires AfterFilter(f, ref, cluster, ns, uid, verdict) == Some(p)
    ensures Outcome(s, p.(workerQueue := p.workerQueue.Done(ref)), ref)
  {
    var t := p.(workerQueue := p.workerQueue.Done(ref));
    if !verdict.Accept? {
      DropOutcome(s, f, ref, if verdict.Reject? then FilterRejected else FilterErrored, t);
    } else if f.heap.objs[ref].action.Delete? {
      HandOverOutcome(s, f.(dependencies := f.dependencies - {f.heap.Uid(ref)}), ref,
        Admission(ref, ns, uid, [], [], true), t);
    } else if GetDependencies(f.heap, ref, cluster).Resolved? {
      var c := GetDependencies(f.heap, ref, cluster);
      GateOutcome(s, f.(heap := c.heap), ref, ns, uid, c.deps, t);
    } else {
      DropOutcome(s, f, ref, LookupFailed, t);
    }
  }

  lemma WorkerOutcome(s: State, cluster: Cluster, orders: seq<Mapping.Orders>, t: State)
    requires s.workerQueue.queue != [] && ValidRef(s, s.workerQueue.queue[0]) && OrdersFit(s.filters, orders)
    requires WorkerRun(s, cluster, orders) == Some(t)
    ensures Outcome(s, t, s.workerQueue.queue[0])
  {
    var ref := s.workerQueue.queue[0];
    var tree := s.heap.Tree(ref);
    var ns, uid := GetObjectNamespace(tree), GetUID(tree);
    var taken := s.(workerQueue := s.workerQueue.Get());
    if uid in s.dependencies || ns == s.namespace {
      var r := ChainOut(s.filters, orders, s.heap.objs[ref].gvr, tree);
      var p := Process(taken, ref, cluster, orders).value;
      FilteredOutcome(s, taken.(heap := s.heap.Rewrite(ref, r.tree)), ref, cluster, ns, uid, r.verdict, p);
    } else {
      DropOutcome(s, taken, ref, OutOfScope, t);
    }
  }

  /** An iteration of the worker leaves everything on the transport side alone. */
  lemma WorkerLeavesTransport(s: State, cluster: Cluster, orders: seq<Mapping.Orders>)
    requires s.workerQueue.queue != [] && ValidRef(s, s.workerQueue.queue[0]) && OrdersFit(s.filters, orders)
    requires WorkerRun(s, cluster, orders).Some?
    ensures TransportUntouched(s, WorkerRun(s, cluster, orders).value)
  {
    WorkerOutcome(s, cluster, orders, WorkerRun(s, cluster, orders).value);
  }

  // ---------------------------------------------------------------------
  // The worker keeps the invariant
  // ---------------------------------------------------------------------

  lemma DroppedKeeps(s: State, t: State)
    requires Invariant(s) && s.workerQueue.queue != [] && Dropped(s, t, s.workerQueue.queue[0])
    ensures Invariant(t)
  {
    ServeIdle(s.workerQueue);
    var ref := s.workerQueue.queue[0];
    assert t.workerQueue.Pending() == s.workerQueue.Pending() - {ref};
    assert t.dropped.Keys == s.dropped.Keys + {ref};
  }

  lemma HandedConserves(s: State, t: State, a: Admission)
    requires Conserved(s) && s.workerQueue.queue != [] && Handed(s, t, s.workerQueue.queue[0], a)
    ensures Conserved(t)
    ensures a.ref !in s.handed
  {
    var ref := s.workerQueue.queue[0];
    ServeIdle(s.workerQueue);
    ArriveIdle(s.transportQueue, ref);
    assert t.workerQueue.Pending() == s.workerQueue.Pending() - {ref};
    assert t.handed.Keys == s.handed.Keys + {ref};
    assert t.transportQueue.Pending() == s.transportQueue.Pending() + {ref};
  }

  /** One more admission, handed over or not. */
  lemma AdmissionLogged(handed: map<Ref, nat>, admissions: seq<Admission>, a: Admission, versions: map<string, string>,
      successes: seq<Success>)
    returns (handed': map<Ref, nat>)
    requires HandedOnce(handed, admissions) && ResolvedTransported(admissions, versions)
    requires DependenciesFirst(successes, handed, admissions)
    requires a.handed ==> a.ref !in handed && forall u | u in a.resolved :: u in versions
    ensures handed' == if a.handed then handed[a.ref := |admissions|] else handed
    ensures HandedOnce(handed', admissions + [a]) && ResolvedTransported(admissions + [a], versions)
    ensures DependenciesFirst(successes, handed', admissions + [a])
  {
    handed' := if a.handed then handed[a.ref := |admissions|] else handed;
  }

  /** One more admission, of an object that was in scope, and at most its own uids in scope afterwards. */
  lemma ScopeKept(namespace: string, before: set<string>, after: set<string>, admissions: seq<Admission>, a: Admission)
    requires InScope(namespace, before, admissions)
    requires a.ns == namespace || a.uid in before
    requires forall u | u in a.waitsFor :: u in a.resolved
    requires forall u | u in after :: u in before || u in a.waitsFor
    ensures InScope(namespace, after, admissions + [a])
  {
    var n := |admissions|;
    var all := admissions + [a];
    forall k, u | RequestedBefore(admissions, k, u)
      ensures RequestedBefore(all, k, u) && RequestedBefore(all, n + 1, u) {
      var j :| 0 <= j < k && j < n && u in admissions[j].waitsFor;
      assert u in all[j].waitsFor;
    }
    forall u | u in after ensures RequestedBefore(all, n + 1, u) {
      if u in before {
        assert RequestedBefore(admissions, n, u);
      } else {
        assert u in all[n].waitsFor;
      }
    }
    forall k | 0 <= k < n + 1 ensures all[k].ns == namespace || RequestedBefore(all, k, all[k].uid) {
      if k < n {
        assert all[k] == admissions[k];
      } else if a.ns != namespace {
        assert RequestedBefore(admissions, n, a.uid);
      }
    }
  }

  lemma HandedKeeps(s: State, t: State, a: Admission)
    requires Invariant(s) && s.workerQueue.queue != [] && Handed(s, t, s.workerQueue.queue[0], a)
    ensures Invariant(t)
  {
    HandedConserves(s, t, a);
    var handed := AdmissionLogged(s.handed, s.admissions, a, s.versions, s.successes);
    ScopeKept(s.namespace, s.dependencies, t.dependencies, s.admissions, a);
  }

  lemma WaitsConserves(s: State, t: State, a: Admission, more: set<Ref>)
    requires Conserved(s) && s.workerQueue.queue != [] && Waits(s, t, s.workerQueue.queue[0], a, more)
    ensures Conserved(t)
  {
    RetryIdle(s.workerQueue, more);
    assert t.workerQueue.Pending() == s.workerQueue.Pending() + more;
  }

  lemma WaitsKeeps(s: State, t: State, a: Admission, more: set<Ref>)
    requires Invariant(s) && s.workerQueue.queue != [] && Waits(s, t, s.workerQueue.queue[0], a, more)
    ensures Invariant(t)
  {
    WaitsConserves(s, t, a, more);
    var handed := AdmissionLogged(s.handed, s.admissions, a, s.versions, s.successes);
    ScopeKept(s.namespace, s.dependencies, t.dependencies, s.admissions, a);
  }

  // ---------------------------------------------------------------------
  // The transport manager keeps the invariant
  // ---------------------------------------------------------------------

  lemma SendSettles(s: State, t: State, ref: Ref)
    requires Conserved(s) && s.transportQueue.queue != [] && ref == s.transportQueue.queue[0]
    requires t.transportQueue == s.transportQueue.Get().Done(ref)
    requires ref in t.settled && t.settled == s.settled[ref := t.settled[ref]]
    requires t.heap == s.heap && t.workerQueue == s.workerQueue && t.entered == s.entered
    requires t.handed == s.handed && t.dropped == s.dropped
    ensures Conserved(t) && ref in s.handed
  {
    ServeIdle(s.transportQueue);
    assert t.transportQueue.Pending() == s.transportQueue.Pending() - {ref};
    assert t.settled.Keys == s.settled.Keys + {ref};
  }

  lemma StaleKeeps(s: State, t: State, ref: Ref, uid: string, version: string)
    requires Invariant(s) && s.transportQueue.queue != [] && ref == s.transportQueue.queue[0]
    requires !IsNewVersion(s.versions, uid, version)
    requires t == s.(settled := s.settled[ref := (uid, version)], transportQueue := s.transportQueue.Get().Done(ref))
    ensures Invariant(t)
  {
    SendSettles(s, t, ref);
    assert Covered(s.versions, uid, version);
  }

  /** Recording a newer version keeps the watermark and everything below it. */
  lemma WatermarkRises(versions: map<string, string>, n: Success, uid: string, version: string)
    requires IsNewVersion(versions, n.uid, n.version) && Covered(versions, uid, version)
    ensures Covered(versions[n.uid := n.version], uid, version)
    ensures uid == n.uid ==> Atoi(version).0 < Atoi(n.version).0
  {
  }

  lemma SuccessLogGrows(versions: map<string, string>, successes: seq<Success>, n: Success)
    requires VersionsAreSuccesses(versions, successes) && Increasing(successes)
    requires IsNewVersion(versions, n.uid, n.version)
    ensures VersionsAreSuccesses(versions[n.uid := n.version], successes + [n]) && Increasing(successes + [n])
  {
    var m := |successes|;
    var all, after := successes + [n], versions[n.uid := n.version];
    forall u | u in after ensures exists i :: SuccessfulAt(all, i, u) {
      if u == n.uid {
        assert SuccessfulAt(all, m, u);
      } else {
        var i :| SuccessfulAt(successes, i, u);
        assert SuccessfulAt(all, i, u);
      }
    }
    forall i | 0 <= i < m
      ensures Covered(after, all[i].uid, all[i].version)
      ensures all[i].uid == n.uid ==> Atoi(all[i].version).0 < Atoi(n.version).0
    {
      assert Covered(versions, successes[i].uid, successes[i].version);
      WatermarkRises(versions, n, successes[i].uid, successes[i].version);
    }
    assert Covered(after, all[m].uid, all[m].version);
    forall i, j | 0 <= i < j < |all| && all[i].uid == all[j].uid
      ensures Atoi(all[i].version).0 < Atoi(all[j].version).0 {
      if j < m {
        assert all[i] == successes[i] && all[j] == successes[j];
      }
    }
  }

  /** The core of the gate: a new success finds successes of all dependencies in the log. */
  lemma SuccessAfterDependencies(s: State, n: Success)
    requires DependenciesFirst(s.successes, s.handed, s.admissions) && HandedOnce(s.handed, s.admissions)
    requires ResolvedTransported(s.admissions, s.versions) && VersionsAreSuccesses(s.versions, s.successes)
    requires n.ref in s.handed
    ensures DependenciesFirst(s.successes + [n], s.handed, s.admissions)
  {
    var m := |s.successes|;
    var all := s.successes + [n];
    forall i, u | 0 <= i < |all| && u in s.admissions[s.handed[all[i].ref]].resolved
      ensures SuccessfulBefore(all, i, u) {
      if i < m {
        assert all[i] == s.successes[i];
        var j :| j < i && SuccessfulAt(s.successes, j, u);
        assert SuccessfulAt(all, j, u);
      } else {
        assert u in s.versions;
        var j :| SuccessfulAt(s.successes, j, u);
        assert SuccessfulAt(all, j, u);
      }
    }
  }

  lemma SuccessKeeps(s: State, t: State, ref: Ref, n: Success)
    requires Invariant(s) && s.transportQueue.queue != [] && ref == s.transportQueue.queue[0]
    requires n.ref == ref && IsNewVersion(s.versions, n.uid, n.version)
    requires t == s.(remote := t.remote, versions := s.versions[n.uid := n.version], successes := s.successes + [n],
                     settled := s.settled[ref := (n.uid, n.version)],
                     transportQueue := s.transportQueue.Get().Done(ref))
    ensures Invariant(t)
  {
    SendSettles(s, t, ref);
    SuccessLogGrows(s.versions, s.successes, n);
    SuccessAfterDependencies(s, n);
    forall r | r in t.settled ensures Covered(t.versions, t.settled[r].0, t.settled[r].1) {
      if r != ref {
        WatermarkRises(s.versions, n, s.settled[r].0, s.settled[r].1);
      }
    }
  }

  lemma FailureKeeps(s: State, t: State, ref: Ref)
    requires Invariant(s) && s.transportQueue.queue != [] && ref == s.transportQueue.queue[0]
    requires t == s.(remote := t.remote, transportQueue := s.transportQueue.Get().AddRateLimited(ref).Done(ref))
    ensures Invariant(t)
  {
    RetryIdle(s.transportQueue, {});
    assert s.transportQueue.Get().waiting + {ref} + {} == s.transportQueue.Get().waiting + {ref};
    assert t.transportQueue.Pending() == s.transportQueue.Pending();
  }

  lemma TransportKeeps(s: State, fault: Option<Fault>)
    requires Invariant(s) && TransportReturns(s, fault)
    ensures Invariant(TransportRun(s, fault))
  {
    var ref := s.transportQueue.queue[0];
    var o := s.heap.objs[ref];
    var d := s.heap.Tree(ref);
    var uid, version := GetUID(d), GetResourceVersion(d);
    var t := TransportRun(s, fault);
    if !IsNewVersion(s.versions, uid, version) {
      StaleKeeps(s, t, ref, uid, version);
    } else {
      var (remote, err) := TransportTo(s.remote, s.settings, o.gvr, o.action, d, fault);
      if err == Some(OtherError) {
        FailureKeeps(s, t, ref);
      } else {
        SuccessKeeps(s, t, ref, Success(ref, uid, version, o.action, err.None?));
      }
    }
  }

  // ---------------------------------------------------------------------
  // Every step, every run
  // ---------------------------------------------------------------------

  lemma ArrivalKeeps(s: State, gvr: GroupVersionResource, namespaced: bool, action: ObjectAction, d: Document)
    requires Invariant(s)
    ensures Invariant(Arrive(s, gvr, namespaced, action, d))
  {
    var t := Arrive(s, gvr, namespaced, action, d);
    ArriveIdle(s.workerQueue, |s.heap.objs|);
    assert t.workerQueue.Pending() == s.workerQueue.Pending() + {|s.heap.objs|};
  }

  lemma OtherStepsKeep(s: State, e: Event)
    requires Invariant(s) && Enabled(s, e) && !e.WorkerRuns? && !e.TransportRuns? && !e.ObjectArrives?
    ensures Invariant(Step(s, e))
  {
    var t := Step(s, e);
    if e.WorkerDelayEnds? {
      ExpireIdle(s.workerQueue, e.ref);
    } else if e.TransportDelayEnds? {
      ExpireIdle(s.transportQueue, e.ref);
    }
    assert t.workerQueue.Pending() == s.workerQueue.Pending();
    assert t.transportQueue.Pending() == s.transportQueue.Pending();
  }

  lemma StepKeepsInvariant(s: State, e: Event)
    requires Invariant(s) && Enabled(s, e)
    ensures Invariant(Step(s, e))
  {
    match e
    case WorkerRuns(cluster, orders) =>
      var t := Step(s, e);
      var ref := s.workerQueue.queue[0];
      WorkerOutcome(s, cluster, orders, t);
      if Dropped(s, t, ref) {
        DroppedKeeps(s, t);
      } else if Handed(s, t, ref, Last(t.admissions)) {
        HandedKeeps(s, t, Last(t.admissions));
      } else {
        var more :| Waits(s, t, ref, Last(t.admissions), more);
        WaitsKeeps(s, t, Last(t.admissions), more);
      }
    case TransportRuns(fault) => TransportKeeps(s, fault);
    case ObjectArrives(gvr, namespaced, action, d) => ArrivalKeeps(s, gvr, namespaced, action, d);
    case _ => OtherStepsKeep(s, e);
  }

  lemma {:induction false} RunsJoin(s: State, events: seq<Event>, m: State, more: seq<Event>, t: State)
    requires Run(s, events, m) && Run(m, more, t)
    ensures Run(s, events + more, t)
    decreases |events|
  {
    if events == [] {
      assert events + more == more;
    } else {
      RunsJoin(Step(s, events[0]), events[1..], m, more, t);
      assert (events + more)[1..] == events[1..] + more;
    }
  }

  lemma {:induction false} RunKeepsInvariant(s: State, events: seq<Event>, t: State)
    requires Invariant(s) && Run(s, events, t)
    ensures Invariant(t)
    decreases |events|
  {
    if events != [] {
      StepKeepsInvariant(s, events[0]);
      RunKeepsInvariant(Step(s, events[0]), events[1..], t);
    }
  }

  /** The invariant holds in every reachable state. */
  lemma InvariantInEveryRun(namespace: string, remote: Remote, events: seq<Event>, t: State)
    requires Run(Initial(namespace, remote), events, t)
    ensures Invariant(t)
  {
    RunKeepsInvariant(Initial(namespace, remote), events, t);
  }
}
