/** What holds in every run of the replication pipeline, whatever the paired cluster holds when the
    worker starts, and under any interleaving. */
module PipelineTheorems {
  import opened Wrappers
  import opened Json
  import opened Strconv
  import opened ApiTypes
  import opened Objects
  import opened WorkQueue
  import opened FilterChain
  import opened KubeTransporter
  import opened Pipeline
  import opened PipelineSafety

  /** Dependency before dependent: when an object handed over by the worker is recorded as a
      success, every uid its dependencies were resolved to was recorded as one before. */
  lemma DependencyBeforeDependent(namespace: string, remote: Remote, events: seq<Event>, t: State, i: nat, u: string)
    requires Run(Initial(namespace, remote), events, t) && i < |t.successes|
    ensures t.successes[i].ref in t.handed && t.handed[t.successes[i].ref] < |t.admissions|
    ensures t.admissions[t.handed[t.successes[i].ref]].ref == t.successes[i].ref
    ensures u in t.admissions[t.handed[t.successes[i].ref]].resolved ==>
            exists j :: 0 <= j < i && t.successes[j].uid == u
  {
    InvariantInEveryRun(namespace, remote, events, t);
    if u in t.admissions[t.handed[t.successes[i].ref]].resolved {
      assert SuccessfulBefore(t.successes, i, u);
      var j :| j < i && SuccessfulAt(t.successes, j, u);
      assert 0 <= j < i && t.successes[j].uid == u;
    }
  }

  /** No lost hand-over: an object handed to the transport manager is still queued or waiting
      there, or its version is covered by the recorded one. */
  lemma NoLostHandOver(namespace: string, remote: Remote, events: seq<Event>, t: State, ref: Ref)
    requires Run(Initial(namespace, remote), events, t) && ref in t.handed
    ensures ref in t.transportQueue.Pending() <==> ref !in t.settled
    ensures ref in t.settled ==> Covered(t.versions, t.settled[ref].0, t.settled[ref].1)
  {
    InvariantInEveryRun(namespace, remote, events, t);
  }

  /** Conservation: an object that entered the worker is in exactly one place, and was handed
      over by exactly one admission if it was at all. */
  lemma EveryObjectInOnePlace(namespace: string, remote: Remote, events: seq<Event>, t: State, ref: Ref)
    requires Run(Initial(namespace, remote), events, t) && ref in t.entered
    ensures ref in t.workerQueue.Pending() <==> ref !in t.handed && ref !in t.dropped
    ensures !(ref in t.handed && ref in t.dropped)
    ensures ref in t.handed <==>
              exists k :: 0 <= k < |t.admissions| && t.admissions[k].ref == ref && t.admissions[k].handed
    ensures forall j, k | 0 <= j < |t.admissions| && 0 <= k < |t.admissions|
              && t.admissions[j].ref == t.admissions[k].ref == ref
              && t.admissions[j].handed && t.admissions[k].handed :: j == k
  {
    InvariantInEveryRun(namespace, remote, events, t);
    if ref in t.handed {
      var k := t.handed[ref];
      assert t.admissions[k].ref == ref && t.admissions[k].handed;
    }
  }

  /** Nothing is resurrected: whatever succeeds for a uid after a success at some version, a
      delete in particular, carries a strictly higher version. */
  lemma NoResurrection(namespace: string, remote: Remote, events: seq<Event>, t: State, i: nat, j: nat)
    requires Run(Initial(namespace, remote), events, t) && i < j < |t.successes|
    requires t.successes[i].uid == t.successes[j].uid
    ensures Atoi(t.successes[i].version).0 < Atoi(t.successes[j].version).0
  {
    InvariantInEveryRun(namespace, remote, events, t);
  }

  lemma ErrorWritesNothing(remote: Remote, settings: Option<PairClusterSettings>, gvr: GroupVersionResource,
      action: ObjectAction, d: Document, fault: Option<Fault>)
    requires !ReadPanics(settings, action, d, fault) && TransportTo(remote, settings, gvr, action, d, fault).1.Some?
    ensures TransportTo(remote, settings, gvr, action, d, fault).0 == remote
  {
  }

  /** A transport iteration that changes the remote cluster records a newer version for it. */
  lemma WriteIsRecorded(s: State, fault: Option<Fault>)
    requires TransportReturns(s, fault) && TransportRun(s, fault).remote != s.remote
    ensures var t := TransportRun(s, fault);
            exists n :: t.successes == s.successes + [n] && n.wrote && IsNewVersion(s.versions, n.uid, n.version)
  {
    var ref := s.transportQueue.queue[0];
    var d := s.heap.Tree(ref);
    var o := s.heap.objs[ref];
    var n := Success(ref, GetUID(d), GetResourceVersion(d), o.action, true);
    if IsNewVersion(s.versions, n.uid, n.version)
      && TransportTo(s.remote, s.settings, o.gvr, o.action, d, fault).1.Some? {
      ErrorWritesNothing(s.remote, s.settings, o.gvr, o.action, d, fault);
    }
    assert TransportRun(s, fault).successes == s.successes + [n];
  }

  lemma OnlyTransportWrites(s: State, e: Event)
    requires Enabled(s, e) && Step(s, e).remote != s.remote
    ensures e.TransportRuns?
  {
    if e.WorkerRuns? {
      WorkerLeavesTransport(s, e.cluster, e.orders);
    }
  }

  /** The remote cluster only changes by a write that is logged, for a version newer than everything
      logged for its uid before. A call that fails has no effect there: a write whose reply is lost
      is not in the model. */
  lemma RemoteChangesAreNew(namespace: string, remote: Remote, events: seq<Event>, s: State, e: Event)
    returns (n: Success)
    requires Run(Initial(namespace, remote), events, s) && Enabled(s, e)
    requires Step(s, e).remote != s.remote
    ensures n.wrote && Step(s, e).successes == s.successes + [n]
    ensures forall i | 0 <= i < |s.successes| && s.successes[i].uid == n.uid ::
              Atoi(s.successes[i].version).0 < Atoi(n.version).0
  {
    InvariantInEveryRun(namespace, remote, events, s);
    OnlyTransportWrites(s, e);
    WriteIsRecorded(s, e.fault);
    n :| Step(s, e).successes == s.successes + [n] && n.wrote && IsNewVersion(s.versions, n.uid, n.version);
    forall i | 0 <= i < |s.successes| && s.successes[i].uid == n.uid
      ensures Atoi(s.successes[i].version).0 < Atoi(n.version).0
    {
      WatermarkRises(s.versions, n, s.successes[i].uid, s.successes[i].version);
    }
  }

  /** No step drops a uid from `versions` or lowers its version. */
  lemma WatermarkMonotone(s: State, e: Event, u: string)
    requires Enabled(s, e) && u in s.versions
    ensures u in Step(s, e).versions && Atoi(s.versions[u]).0 <= Atoi(Step(s, e).versions[u]).0
  {
    if e.WorkerRuns? {
      WorkerLeavesTransport(s, e.cluster, e.orders);
    }
  }

  /** What sending does to the two logs. */
  lemma SendLogs(s: State, fault: Option<Fault>)
    requires TransportReturns(s, fault)
    ensures var ref := s.transportQueue.queue[0];
            var t := TransportRun(s, fault);
            && t.settled in {s.settled, s.settled[ref := (s.heap.Uid(ref), GetResourceVersion(s.heap.Tree(ref)))]}
            && s.successes <= t.successes
            && (forall i | |s.successes| <= i < |t.successes| :: t.successes[i].ref == ref)
  {
  }

  lemma HeadNotSettled(s: State, fault: Option<Fault>)
    requires Conserved(s) && TransportReturns(s, fault)
    ensures s.transportQueue.queue[0] !in s.settled
  {
    ServeIdle(s.transportQueue);
  }

  /** An object is settled by the iteration that takes it from the queue, under the uid and the version
      it has then, and stays settled so. */
  lemma SettledAsSent(s: State, e: Event, ref: Ref)
    requires Conserved(s) && Enabled(s, e)
    ensures ref in s.settled ==> ref in Step(s, e).settled && Step(s, e).settled[ref] == s.settled[ref]
    ensures ref !in s.settled && ref in Step(s, e).settled ==>
              && e.TransportRuns? && ref == s.transportQueue.queue[0]
              && Step(s, e).settled[ref] == (s.heap.Uid(ref), GetResourceVersion(s.heap.Tree(ref)))
  {
    match e
    case WorkerRuns(cluster, orders) => WorkerLeavesTransport(s, cluster, orders);
    case TransportRuns(fault) =>
      SendLogs(s, fault);
      HeadNotSettled(s, fault);
    case _ =>
  }

  ghost predicate Succeeded(s: State, ref: Ref) {
    exists i :: 0 <= i < |s.successes| && s.successes[i].ref == ref
  }

  /** What was settled without a success never has one. */
  lemma {:induction false} StaysUnwritten(s: State, events: seq<Event>, t: State, ref: Ref)
    requires Invariant(s) && Run(s, events, t) && ref in s.settled && !Succeeded(s, ref)
    ensures ref in t.settled && !Succeeded(t, ref)
    decreases |events|
  {
    if events != [] {
      StepKeepsInvariant(s, events[0]);
      SettledAsSent(s, events[0], ref);
      UnwrittenStep(s, events[0], ref);
      StaysUnwritten(Step(s, events[0]), events[1..], t, ref);
    }
  }

  lemma UnwrittenStep(s: State, e: Event, ref: Ref)
    requires Conserved(s) && Enabled(s, e) && ref in s.settled && !Succeeded(s, ref)
    ensures !Succeeded(Step(s, e), ref)
  {
    match e
    case WorkerRuns(cluster, orders) => WorkerLeavesTransport(s, cluster, orders);
    case TransportRuns(fault) =>
      SendLogs(s, fault);
      HeadNotSettled(s, fault);
    case _ =>
  }

  // ---------------------------------------------------------------------
  // Scope closure
  // ---------------------------------------------------------------------

  /** A chain of admissions: the first in the namespace, each other one resolved as a dependency of
      the one before it, which was admitted earlier. */
  ghost predicate DependencyChain(t: State, path: seq<nat>) {
    && path != []
    && (forall i | 0 <= i < |path| :: path[i] < |t.admissions|)
    && t.admissions[path[0]].ns == t.namespace
    && forall i | 0 < i < |path| ::
         path[i - 1] < path[i] && t.admissions[path[i]].uid in t.admissions[path[i - 1]].resolved
  }

  lemma {:induction false} ChainTo(t: State, k: nat) returns (path: seq<nat>)
    requires InScope(t.namespace, t.dependencies, t.admissions) && k < |t.admissions|
    ensures DependencyChain(t, path) && Last(path) == k
  {
    if t.admissions[k].ns == t.namespace {
      path := [k];
    } else {
      assert RequestedBefore(t.admissions, k, t.admissions[k].uid);
      var j :| 0 <= j < k && t.admissions[k].uid in t.admissions[j].waitsFor;
      var before := ChainTo(t, j);
      path := before + [k];
      forall i | 0 < i < |path|
        ensures path[i - 1] < path[i] && t.admissions[path[i]].uid in t.admissions[path[i - 1]].resolved
      {
        if i == |before| {
          assert path[i - 1] == Last(before) == j;
        }
      }
    }
  }

  /** Nothing outside the dependency closure of the namespace is ever handed over. */
  lemma ScopeClosure(namespace: string, remote: Remote, events: seq<Event>, t: State, ref: Ref)
    requires Run(Initial(namespace, remote), events, t) && ref in t.handed
    ensures t.namespace == namespace
    ensures exists path: seq<nat> :: DependencyChain(t, path) && t.admissions[Last(path)].ref == ref
  {
    InvariantInEveryRun(namespace, remote, events, t);
    NamespaceKept(Initial(namespace, remote), events, t);
    var path := ChainTo(t, t.handed[ref]);
  }

  lemma {:induction false} NamespaceKept(s: State, events: seq<Event>, t: State)
    requires Run(s, events, t)
    ensures t.namespace == s.namespace
    decreases |events|
  {
    if events != [] {
      var e := events[0];
      if e.WorkerRuns? {
        WorkerLeavesTransport(s, e.cluster, e.orders);
      }
      NamespaceKept(Step(s, e), events[1..], t);
    }
  }

  // ---------------------------------------------------------------------
  // Comparing versions
  // ---------------------------------------------------------------------

  /** For versions as the API server prints them, `isNewVersion` is length-then-lexicographic
      order, as long as the recorded one is below the largest 63-bit number; from there on
      nothing is newer. */
  lemma NewVersionIsStringOrder(versions: map<string, string>, uid: string, version: string)
    requires uid in versions && Canonical(versions[uid]) && Canonical(version)
    ensures IsNewVersion(versions, uid, version) <==>
            StringBefore(versions[uid], version) && Horner(versions[uid], 0) < MAX_INT64
  {
    CanonicalIsNumeral(versions[uid]);
    CanonicalIsNumeral(version);
    StringOrderIsNumeric(versions[uid], version);
  }

  lemma CanonicalIsNumeral(s: string)
    requires Canonical(s)
    ensures Atoi(s).0 == Clamp(Horner(s, 0))
  {
    assert IsDigit(s[0]);
    assert Unsigned(s) == s;
    AtoiSaturates(s);
  }

  /** A version that is no numeral counts as zero, on either side of the comparison: recorded, exactly
      positive versions are newer; received, it is newer exactly than negative ones. */
  lemma MalformedCountsAsZero(versions: map<string, string>, uid: string, version: string)
    requires uid in versions
    ensures !SignedNumeral(versions[uid]) && Horner(LeadingDigits(Unsigned(versions[uid])), 0) <= MAX_UINT64 ==>
            (IsNewVersion(versions, uid, version) <==> Atoi(version).0 > 0)
    ensures !SignedNumeral(version) && Horner(LeadingDigits(Unsigned(version)), 0) <= MAX_UINT64 ==>
            (IsNewVersion(versions, uid, version) <==> Atoi(versions[uid]).0 < 0)
  {
    if !SignedNumeral(versions[uid]) {
      AtoiMalformed(versions[uid]);
    }
    if !SignedNumeral(version) {
      AtoiMalformed(version);
    }
  }

  /** So once something was recorded for an object, a delivery of it without a version is skipped. */
  lemma NoVersionIsNeverNewer(versions: map<string, string>, uid: string)
    requires uid in versions && Atoi(versions[uid]).0 >= 0
    ensures !IsNewVersion(versions, uid, "")
  {
    MalformedCountsAsZero(versions, uid, "");
  }
}
