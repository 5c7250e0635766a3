/** The rounds of `PipelineProgress` can always be completed: a schedule that does it. */
module PipelineSchedule {
  import opened Wrappers
  import opened Json
  import opened ApiTypes
  import opened Objects
  import opened WorkQueue
  import Mapping = VariableMappingFilter
  import opened FilterChain
  import opened KubeTransporter
  import opened Pipeline
  import opened PipelineSafety
  import opened PipelineProgress

  lemma ServesFrom(s: State, e: Event, rest: seq<Event>)
    requires Enabled(s, e)
    ensures ServedIn(s, [e] + rest) == ServedBy(s, e) + ServedIn(Step(s, e), rest)
  {
    assert ([e] + rest)[1..] == rest;
  }

  lemma RunsFrom(s: State, e: Event, next: State, rest: seq<Event>, t: State)
    requires Enabled(s, e) && next == Step(s, e) && Run(next, rest, t)
    ensures Run(s, [e] + rest, t) && ServedIn(s, [e] + rest) == ServedBy(s, e) + ServedIn(next, rest)
  {
    ServesFrom(s, e, rest);
    assert ([e] + rest)[1..] == rest;
  }

  lemma Regrouped<T>(a: set<T>, b: set<T>, c: set<T>)
    ensures (a + b) + c == a + (b + c)
  {
  }

  lemma FirstServed(s: State, events: seq<Event>, m: State, more: seq<Event>) returns (next: State, now: set<Ref>)
    requires Run(s, events, m) && events != []
    ensures Run(next, events[1..], m)
    ensures ServedIn(s, events) == now + ServedIn(next, events[1..])
    ensures ServedIn(s, events + more) == now + ServedIn(next, events[1..] + more)
  {
    next, now := Step(s, events[0]), ServedBy(s, events[0]);
    ServesFrom(s, events[0], events[1..] + more);
    assert events + more == [events[0]] + (events[1..] + more);
  }

  lemma {:induction false} ServesOn(s: State, events: seq<Event>, m: State, more: seq<Event>)
    requires Run(s, events, m)
    ensures ServedIn(s, events + more) == ServedIn(s, events) + ServedIn(m, more)
    decreases |events|
  {
    if events == [] {
      assert events + more == more;
    } else {
      var next, now := FirstServed(s, events, m, more);
      ServesOn(next, events[1..], m, more);
      Regrouped(now, ServedIn(next, events[1..]), ServedIn(m, more));
    }
  }

  // ---------------------------------------------------------------------
  // The worker
  // ---------------------------------------------------------------------

  ghost predicate Good(p: Plan, s: State) {
    p.Closed() && Invariant(s) && p.On(s)
  }

  /** What matters of an iteration for the schedule: the queue moves on, and what is new waits
      and is nested less deep than the object served. */
  ghost predicate Serves(p: Plan, g: Heap, h: Heap, q: Queue<Ref>, r: Queue<Ref>, ref: Ref, n: nat) {
    && g.Valid() && h.Valid() && Allocates(g, q.waiting + {ref}) && q.queue != []
    && r.queue == q.queue[1..]
    && r.Pending() <= q.Pending() + Fresh(|g.objs|, n)
    && q.waiting + Fresh(|g.objs|, n) <= r.waiting
    && |g.objs| + n <= |h.objs|
    && (forall x | x in q.waiting :: p.Depth(h, x) == p.Depth(g, x))
    && (forall x | x in Fresh(|g.objs|, n) :: p.Depth(h, x) < p.Depth(g, ref))
  }

  lemma WaitingStay(p: Plan, g: Heap, h: Heap, held: set<Ref>, waiting: set<Ref>)
    requires p.Closed() && HeapSettles(p, g, h) && waiting <= held && forall r | r in held :: p.Planned(g, r)
    ensures forall r | r in waiting :: r < |g.objs| && p.Depth(h, r) == p.Depth(g, r)
  {
    forall r | r in waiting ensures r < |g.objs| && p.Depth(h, r) == p.Depth(g, r) {
      StaysPlanned(p, g, h, r);
    }
  }

  lemma NeedsNestedLess(p: Plan, g: Heap, h: Heap, ref: Ref, action: ObjectAction)
    requires p.Closed() && g.Valid() && h.Valid() && p.Planned(g, ref) && !g.objs[ref].action.Delete?
    requires var needs := p.Needs(p.Settled(g, ref)); needs.Dependents? && Appended(|g.objs|, h, needs, action)
    ensures forall x | x in Fresh(|g.objs|, |p.Needs(p.Settled(g, ref)).headers|) ::
              x < |h.objs| && p.Depth(h, x) < p.Depth(g, ref)
  {
    var it := p.Settled(g, ref);
    var needs := p.Needs(it);
    StaysPlanned(p, g, g, ref);
    assert p.ClosedAt(it);
    forall x | x in Fresh(|g.objs|, |needs.headers|) ensures x < |h.objs| && p.Depth(h, x) < p.Depth(g, ref) {
      assert AppendedAt(|g.objs|, h, needs, action, x - |g.objs|);
    }
  }

  lemma HandOverServes(p: Plan, g: Heap, h: Heap, q: Queue<Ref>, r: Queue<Ref>, ref: Ref)
    requires p.Closed() && HeapSettles(p, g, h) && ref < |g.objs| && forall x | x in q.Pending() :: p.Planned(g, x)
    requires q.queue != [] && r.queue == q.queue[1..] && r.waiting == q.waiting && r.Pending() == q.Pending() - {ref}
    ensures Serves(p, g, h, q, r, ref, 0)
  {
    assert Fresh(|g.objs|, 0) == {};
    WaitingStay(p, g, h, q.Pending(), q.waiting);
  }

  lemma PutBackServes(p: Plan, s: State, t: State, ref: Ref)
    requires p.Closed() && p.OnStage(StageOf(s)) && p.Planned(s.heap, ref) && !s.heap.objs[ref].action.Delete?
    requires PutsBack(p, s, t, ref, p.Needs(p.Settled(s.heap, ref)))
    ensures Serves(p, s.heap, t.heap, s.workerQueue, t.workerQueue, ref, |p.Needs(p.Settled(s.heap, ref)).headers|)
  {
    WaitingStay(p, s.heap, t.heap, s.workerQueue.Pending(), s.workerQueue.waiting);
    NeedsNestedLess(p, s.heap, t.heap, ref, s.heap.objs[ref].action);
  }

  lemma StepServes(p: Plan, s: State, e: Event) returns (n: nat)
    requires p.Closed() && Conserved(s) && p.On(s) && s.workerQueue.queue != []
    requires e == WorkerRuns(p.cluster, AnyFilterOrders(s.filters))
    ensures Enabled(s, e)
    ensures Serves(p, s.heap, Step(s, e).heap, s.workerQueue, Step(s, e).workerQueue, s.workerQueue.queue[0], n)
    ensures Step(s, e).settings == s.settings
  {
    WorkerStep(p, s, e.orders);
    var ref := s.workerQueue.queue[0];
    assert forall x | x in s.workerQueue.Pending() :: p.Planned(s.heap, x);
    if p.Goes(s.heap, ref, s.versions) {
      n := 0;
      HandOverServes(p, s.heap, Step(s, e).heap, s.workerQueue, Step(s, e).workerQueue, ref);
    } else {
      n := |p.Needs(p.Settled(s.heap, ref)).headers|;
      PutBackServes(p, s, Step(s, e), ref);
    }
  }

  lemma WorkerStaysOnPlan(p: Plan, s: State, e: Event)
    requires Good(p, s) && WorkerEvent(p, e) && Enabled(s, e)
    ensures Good(p, Step(s, e))
  {
    var A := StartsUnderway(p, s);
    StepKeepsInvariant(s, e);
    WorkerEventKeepsRound(p, s, e, A, 0, {});
  }

  lemma ServeHead(p: Plan, s: State) returns (e: Event, t: State, n: nat)
    requires Good(p, s) && s.workerQueue.queue != []
    ensures WorkerEvent(p, e) && e.WorkerRuns? && Enabled(s, e) && t == Step(s, e) && Good(p, t)
            && t.settings == s.settings
    ensures Serves(p, s.heap, t.heap, s.workerQueue, t.workerQueue, s.workerQueue.queue[0], n)
  {
    e := WorkerRuns(p.cluster, AnyFilterOrders(s.filters));
    n := StepServes(p, s, e);
    t := Step(s, e);
    WorkerStaysOnPlan(p, s, e);
  }

  /** Everything held is waiting out its delay. */
  ghost predicate Rested(p: Plan, s: State) {
    Good(p, s) && s.workerQueue.queue == []
  }

  ghost predicate WorkerEvents(p: Plan, events: seq<Event>) {
    forall e | e in events :: WorkerEvent(p, e)
  }

  lemma ExpireAlone(q: Queue<Ref>, ref: Ref)
    requires q.Idle() && q.queue == [] && ref in q.waiting
    ensures q.Expire(ref).queue == [ref] && q.Expire(ref).waiting == q.waiting - {ref}
            && q.Expire(ref).Pending() == q.Pending()
  {
    ExpireIdle(q, ref);
    assert ref !in q.dirty;
  }

  lemma DelayEnds(p: Plan, s: State, ref: Ref) returns (m: State)
    requires Rested(p, s) && ref in s.workerQueue.waiting
    ensures Enabled(s, WorkerDelayEnds(ref)) && m == Step(s, WorkerDelayEnds(ref)) && Good(p, m)
    ensures m.heap == s.heap && m.settings == s.settings && m.workerQueue.queue == [ref]
    ensures m.workerQueue.waiting == s.workerQueue.waiting - {ref} && m.workerQueue.Pending() == s.workerQueue.Pending()
  {
    m := Step(s, WorkerDelayEnds(ref));
    WorkerStaysOnPlan(p, s, WorkerDelayEnds(ref));
    ExpireAlone(s.workerQueue, ref);
  }

  /** Serving one waiting object leaves the others waiting, and adds `n` that are nested less deep. */
  ghost predicate ServesOne(p: Plan, g: Heap, h: Heap, q: Queue<Ref>, r: Queue<Ref>, ref: Ref, n: nat) {
    && g.Valid() && h.Valid() && ref < |g.objs| && Allocates(g, q.waiting)
    && |g.objs| + n <= |h.objs|
    && r.queue == []
    && r.Pending() <= q.Pending() + Fresh(|g.objs|, n)
    && q.waiting - {ref} + Fresh(|g.objs|, n) <= r.waiting
    && (forall x | x in q.waiting && x != ref :: p.Depth(h, x) == p.Depth(g, x))
    && (forall x | x in Fresh(|g.objs|, n) :: p.Depth(h, x) < p.Depth(g, ref))
  }

  lemma ServesOneAfterDelay(p: Plan, g: Heap, h: Heap, q: Queue<Ref>, m: Queue<Ref>, r: Queue<Ref>, ref: Ref, n: nat)
    requires m.queue == [ref] && ref in q.waiting && m.waiting == q.waiting - {ref} && m.Pending() == q.Pending()
    requires Serves(p, g, h, m, r, ref, n)
    ensures ServesOne(p, g, h, q, r, ref, n)
  {
    assert m.queue[1..] == [];
    forall x | x in q.waiting ensures x < |g.objs| && (x != ref ==> p.Depth(h, x) == p.Depth(g, x)) {
      assert x in m.waiting + {ref};
    }
  }

  lemma DelayThenRun(p: Plan, s: State, ref: Ref, m: State, e: Event, t: State) returns (events: seq<Event>)
    requires Enabled(s, WorkerDelayEnds(ref)) && m == Step(s, WorkerDelayEnds(ref)) && m.workerQueue.queue == [ref]
    requires Enabled(m, e) && e.WorkerRuns? && WorkerEvent(p, e) && t == Step(m, e)
    ensures Run(s, events, t) && WorkerEvents(p, events) && ref in ServedIn(s, events)
  {
    RunsFrom(m, e, t, [], t);
    RunsFrom(s, WorkerDelayEnds(ref), m, [e] + [], t);
    events := [WorkerDelayEnds(ref)] + ([e] + []);
  }

  /** One object's delay ends and it is served. */
  lemma ServeWaiting(p: Plan, s: State, ref: Ref) returns (events: seq<Event>, t: State, n: nat)
    requires Rested(p, s) && ref in s.workerQueue.waiting
    ensures Run(s, events, t) && WorkerEvents(p, events) && ref in ServedIn(s, events)
    ensures Good(p, t) && t.settings == s.settings && ServesOne(p, s.heap, t.heap, s.workerQueue, t.workerQueue, ref, n)
  {
    var m := DelayEnds(p, s, ref);
    var e;
    e, t, n := ServeHead(p, m);
    events := DelayThenRun(p, s, ref, m, e, t);
    ServesOneAfterDelay(p, s.heap, t.heap, s.workerQueue, m.workerQueue, t.workerQueue, ref, n);
  }

  ghost predicate Distinct(refs: seq<Ref>) {
    forall i, j | 0 <= i < j < |refs| :: refs[i] != refs[j]
  }

  /** The waiting objects other than `refs` still wait, unchanged. */
  ghost predicate OthersWait(p: Plan, s: State, t: State, refs: seq<Ref>) {
    && s.heap.Valid() && t.heap.Valid() && Allocates(s.heap, s.workerQueue.waiting) && |s.heap.objs| <= |t.heap.objs|
    && forall r | r in s.workerQueue.waiting && r !in refs ::
         r in t.workerQueue.waiting && p.Depth(t.heap, r) == p.Depth(s.heap, r)
  }

  /** Everything held at the end was served on the way, or was held all along and is none of `refs`. */
  ghost predicate AllServed(s: State, events: seq<Event>, t: State, refs: seq<Ref>) {
    forall r | r in t.workerQueue.Pending() :: r in ServedIn(s, events) || (r in s.workerQueue.Pending() && r !in refs)
  }

  ghost predicate ReadyToServe(p: Plan, s: State, refs: seq<Ref>, k: nat)
    requires s.heap.Valid()
  {
    Distinct(refs) && forall r | r in refs :: r in s.workerQueue.waiting && r < |s.heap.objs| && p.Depth(s.heap, r) < k
  }

  function NewRefs(base: nat, n: nat): (refs: seq<Ref>)
    ensures |refs| == n && forall i | 0 <= i < n :: refs[i] == base + i
  {
    seq(n, i => base + i)
  }

  lemma NewRefsReady(p: Plan, s: State, m: State, ref: Ref, n: nat)
    requires ServesOne(p, s.heap, m.heap, s.workerQueue, m.workerQueue, ref, n)
    ensures ReadyToServe(p, m, NewRefs(|s.heap.objs|, n), p.Depth(s.heap, ref))
    ensures forall r :: r in NewRefs(|s.heap.objs|, n) <==> r in Fresh(|s.heap.objs|, n)
  {
    SameRefs(|s.heap.objs|, NewRefs(|s.heap.objs|, n));
  }

  lemma RestReady(p: Plan, s: State, m: State, m': State, refs: seq<Ref>, n: nat, k: nat)
    requires refs != [] && s.heap.Valid() && ReadyToServe(p, s, refs, k)
    requires ServesOne(p, s.heap, m.heap, s.workerQueue, m.workerQueue, refs[0], n)
             && OthersWait(p, m, m', NewRefs(|s.heap.objs|, n))
    ensures ReadyToServe(p, m', refs[1..], k)
    ensures forall r | r in s.workerQueue.waiting && r !in refs ::
              r in m'.workerQueue.waiting && r !in refs[1..] && p.Depth(m'.heap, r) == p.Depth(s.heap, r)
  {
    forall r | r in s.workerQueue.waiting && r != refs[0]
      ensures r in m'.workerQueue.waiting && p.Depth(m'.heap, r) == p.Depth(s.heap, r)
    {
      assert r in m.workerQueue.waiting && r !in NewRefs(|s.heap.objs|, n);
    }
    forall r | r in refs[1..] ensures r != refs[0] {
      var i :| 0 <= i < |refs[1..]| && refs[1..][i] == r;
      assert refs[i + 1] == r;
    }
  }

  /** Serve the given objects, each followed by whatever it turns out to need. */
  lemma {:induction false} ServeAll(p: Plan, s: State, refs: seq<Ref>, k: nat) returns (events: seq<Event>, t: State)
    requires Rested(p, s) && ReadyToServe(p, s, refs, k)
    ensures Run(s, events, t) && WorkerEvents(p, events) && Rested(p, t) && t.settings == s.settings
    ensures AllServed(s, events, t, refs) && OthersWait(p, s, t, refs)
    decreases k, |refs|
  {
    if refs == [] {
      events, t := [], s;
      WaitingStay(p, s.heap, s.heap, s.workerQueue.Pending(), s.workerQueue.waiting);
    } else {
      var first, m, n := ServeWaiting(p, s, refs[0]);
      NewRefsReady(p, s, m, refs[0], n);
      var second, m' := ServeAll(p, m, NewRefs(|s.heap.objs|, n), p.Depth(s.heap, refs[0]));
      RestReady(p, s, m, m', refs, n, k);
      var third;
      third, t := ServeAll(p, m', refs[1..], k);
      RunsJoin(s, first, m, second, m');
      RunsJoin(s, first + second, m', third, t);
      ServesOn(s, first, m, second);
      ServesOn(s, first + second, m', third);
      events := first + second + third;
      ServedTogether(p, s, first, m, second, m', third, t, refs, n);
    }
  }

  lemma ServedTogether(p: Plan, s: State, first: seq<Event>, m: State, second: seq<Event>, m': State, third: seq<Event>,
      t: State, refs: seq<Ref>, n: nat)
    requires refs != [] && ServesOne(p, s.heap, m.heap, s.workerQueue, m.workerQueue, refs[0], n)
             && refs[0] in ServedIn(s, first)
    requires forall r :: r in NewRefs(|s.heap.objs|, n) <==> r in Fresh(|s.heap.objs|, n)
    requires AllServed(m, second, m', NewRefs(|s.heap.objs|, n)) && AllServed(m', third, t, refs[1..])
    requires ServedIn(s, first + second + third) == ServedIn(s, first) + ServedIn(m, second) + ServedIn(m', third)
    ensures AllServed(s, first + second + third, t, refs)
  {
    assert forall r | r in refs :: r == refs[0] || r in refs[1..];
  }

  /** Serve whatever is queued. */
  lemma {:induction false} ServeQueue(p: Plan, s: State) returns (events: seq<Event>, t: State)
    requires Good(p, s)
    ensures Run(s, events, t) && WorkerEvents(p, events) && Rested(p, t) && t.settings == s.settings
    decreases |s.workerQueue.queue|
  {
    if s.workerQueue.queue == [] {
      events, t := [], s;
    } else {
      var e, m, n := ServeHead(p, s);
      var rest;
      rest, t := ServeQueue(p, m);
      events := [e] + rest;
      RunsFrom(s, e, m, rest, t);
    }
  }

  lemma WithinDepth(p: Plan, g: Stage, r: Ref, k: nat)
    requires p.OnStage(g) && r in g.held && k > 0 && forall it | it in p.scope :: p.Rank(it) < k
    ensures r < |g.heap.objs| && p.Depth(g.heap, r) < k
  {
    assert p.Planned(g.heap, r);
    var it := (g.heap.objs[r].gvr, g.heap.Tree(r));
    assert !g.heap.objs[r].action.Delete? ==> it in p.scope;
  }

  /** The worker can complete a round. */
  lemma WorkerRoundExists(p: Plan, s: State, k: nat) returns (events: seq<Event>, t: State)
    requires Good(p, s) && k > 0 && forall it | it in p.scope :: p.Rank(it) < k
    ensures WorkerRound(p, s, events, t) && Good(p, t) && t.settings == s.settings
  {
    var first, m := ServeQueue(p, s);
    var refs := Mapping.AnyOrder(m.workerQueue.waiting);
    forall r | r in refs ensures r < |m.heap.objs| && p.Depth(m.heap, r) < k {
      assert r in m.workerQueue.Pending();
      WithinDepth(p, StageOf(m), r, k);
    }
    var second;
    second, t := ServeAll(p, m, refs, k);
    RunsJoin(s, first, m, second, t);
    ServesOn(s, first, m, second);
    events := first + second;
    assert forall x :: x in m.workerQueue.queue <==> x in m.workerQueue.dirty;
    assert forall r | r in m.workerQueue.Pending() :: r in refs;
  }

  // ---------------------------------------------------------------------
  // Objects to be deleted
  // ---------------------------------------------------------------------

  ghost predicate ToDelete(g: Stage, r: Ref)
    requires g.heap.Valid()
  {
    r in g.Live() && r < |g.heap.objs| && g.heap.objs[r].action.Delete?
  }

  function KeyOf(p: Plan, h: Heap, r: Ref): RemoteKey
    requires h.Valid() && r < |h.objs|
  {
    KeyFor(h.objs[r].gvr, p.Settled(h, r).1)
  }

  /** Everything to be deleted is there remotely, under a name of its own. */
  ghost predicate DeletesFound(p: Plan, g: Stage, remote: Remote)
    requires g.heap.Valid()
  {
    && (forall r | ToDelete(g, r) :: KeyOf(p, g.heap, r) in remote)
    && (forall r, q | ToDelete(g, r) && ToDelete(g, q) && r != q :: KeyOf(p, g.heap, r) != KeyOf(p, g.heap, q))
  }

  /** No new deletes. */
  lemma DeletesStayFound(p: Plan, g: Stage, t: Stage, remote: Remote)
    requires p.Closed() && p.OnStage(g) && HeapSettles(p, g.heap, t.heap) && DeletesFound(p, g, remote)
    requires forall r: Ref | ToDelete(t, r) :: r in g.Live() && r < |g.heap.objs|
    ensures DeletesFound(p, t, remote)
  {
    forall r | ToDelete(t, r) ensures ToDelete(g, r) && KeyOf(p, t.heap, r) == KeyOf(p, g.heap, r) {
      assert p.Planned(g.heap, r);
      StaysPlanned(p, g.heap, t.heap, r);
    }
  }

  lemma HandOverKeepsDeletes(p: Plan, g: Stage, t: Stage, ref: Ref, remote: Remote)
    requires p.Closed() && p.OnStage(g) && ref in g.held && HeapSettles(p, g.heap, t.heap) && DeletesFound(p, g, remote)
    requires Allocates(g.heap, g.Live()) && t.held == g.held - {ref} && t.sending == g.sending + {ref}
    ensures DeletesFound(p, t, remote)
  {
    DeletesStayFound(p, g, t, remote);
  }

  lemma PutBackKeepsDeletes(p: Plan, g: Stage, t: Stage, ref: Ref, remote: Remote)
    requires p.Closed() && p.OnStage(g) && PutBackStage(p, g, t, ref) && DeletesFound(p, g, remote)
    requires Allocates(g.heap, g.Live())
    ensures DeletesFound(p, t, remote)
  {
    var needs := p.Needs(p.Settled(g.heap, ref));
    forall r | r in Fresh(|g.heap.objs|, |needs.headers|) ensures r < |t.heap.objs| && !t.heap.objs[r].action.Delete? {
      assert AppendedAt(|g.heap.objs|, t.heap, needs, g.heap.objs[ref].action, r - |g.heap.objs|);
    }
    DeletesStayFound(p, g, t, remote);
  }

  lemma LiveExists(s: State)
    requires Conserved(s)
    ensures Allocates(s.heap, StageOf(s).Live())
  {
    PendingExists(s);
    SendingExists(s);
  }

  lemma WorkerRunKeepsDeletes(p: Plan, s: State, orders: seq<Mapping.Orders>)
    requires p.Closed() && Conserved(s) && p.On(s) && s.workerQueue.queue != [] && OrdersFit(s.filters, orders)
    requires DeletesFound(p, StageOf(s), s.remote)
    ensures Enabled(s, WorkerRuns(p.cluster, orders))
    ensures var t := Step(s, WorkerRuns(p.cluster, orders));
            t.heap.Valid() && DeletesFound(p, StageOf(t), t.remote)
  {
    WorkerStep(p, s, orders);
    LiveExists(s);
    var t := Step(s, WorkerRuns(p.cluster, orders));
    var ref := s.workerQueue.queue[0];
    if p.Goes(s.heap, ref, s.versions) {
      HandOverKeepsDeletes(p, StageOf(s), StageOf(t), ref, s.remote);
    } else {
      PutBackKeepsDeletes(p, StageOf(s), StageOf(t), ref, s.remote);
    }
  }

  lemma WorkerEventKeepsDeletes(p: Plan, s: State, e: Event)
    requires Good(p, s) && WorkerEvent(p, e) && Enabled(s, e) && DeletesFound(p, StageOf(s), s.remote)
    ensures Good(p, Step(s, e)) && DeletesFound(p, StageOf(Step(s, e)), Step(s, e).remote)
  {
    WorkerStaysOnPlan(p, s, e);
    if e.WorkerRuns? {
      WorkerRunKeepsDeletes(p, s, e.orders);
    } else {
      ExpireIdle(s.workerQueue, e.ref);
      assert StageOf(Step(s, e)) == StageOf(s);
    }
  }

  lemma FirstEventKeepsDeletes(p: Plan, s: State, events: seq<Event>, t: State) returns (next: State)
    requires Good(p, s) && events != [] && WorkerEvent(p, events[0]) && Run(s, events, t)
             && DeletesFound(p, StageOf(s), s.remote)
    ensures Good(p, next) && Run(next, events[1..], t) && DeletesFound(p, StageOf(next), next.remote)
  {
    next := Step(s, events[0]);
    WorkerEventKeepsDeletes(p, s, events[0]);
  }

  lemma {:induction false} WorkerEventsKeepDeletes(p: Plan, s: State, events: seq<Event>, t: State)
    requires Good(p, s) && WorkerEvents(p, events) && Run(s, events, t) && DeletesFound(p, StageOf(s), s.remote)
    ensures t.heap.Valid() && DeletesFound(p, StageOf(t), t.remote)
    decreases |events|
  {
    if events != [] {
      assert events[0] in events;
      var next := FirstEventKeepsDeletes(p, s, events, t);
      WorkerEventsKeepDeletes(p, next, events[1..], t);
    }
  }

  // ---------------------------------------------------------------------
  // The transport manager
  // ---------------------------------------------------------------------

  /** With settings, a name and no fault, a create or an update never fails in a way that is retried,
      nor does the delete of an object that is there; only a delete takes anything away, and only that. */
  lemma SendSucceeds(remote: Remote, settings: Option<PairClusterSettings>, gvr: GroupVersionResource,
      action: ObjectAction, d: Document)
    requires settings.Some? && GetName(d) != "" && (action.Delete? ==> KeyFor(gvr, d) in remote)
    ensures !ReadPanics(settings, action, d, None)
    ensures var (after, err) := TransportTo(remote, settings, gvr, action, d, None);
            err != Some(OtherError) && forall k | k in remote :: k in after || (action.Delete? && k == KeyFor(gvr, d))
  {
    CreatedWithoutIdentity(gvr, d);
  }

  lemma SendingStaysOnPlan(p: Plan, s: State, t: State)
    requires p.On(s) && OnlySends(s, t)
    ensures p.On(t)
  {
  }

  ghost predicate Sendable(s: State, ref: Ref) {
    && s.transportQueue.queue != [] && ref == s.transportQueue.queue[0] && ValidRef(s, ref) && s.settings.Some?
    && GetName(s.heap.Tree(ref)) != ""
    && (s.heap.objs[ref].action.Delete? ==> KeyFor(s.heap.objs[ref].gvr, s.heap.Tree(ref)) in s.remote)
  }

  lemma CanSend(p: Plan, s: State) returns (ref: Ref)
    requires p.Closed() && Conserved(s) && p.On(s) && s.transportQueue.queue != [] && s.settings.Some?
    requires DeletesFound(p, StageOf(s), s.remote)
    ensures Sendable(s, ref) && ref in s.transportQueue.Pending()
    ensures KeyFor(s.heap.objs[ref].gvr, s.heap.Tree(ref)) == KeyOf(p, s.heap, ref)
  {
    ref := s.transportQueue.queue[0];
    ServeIdle(s.transportQueue);
    assert ref in StageOf(s).sending;
    assert p.Planned(s.heap, ref);
    StaysPlanned(p, s.heap, s.heap, ref);
    assert s.heap.objs[ref].action.Delete? ==> ToDelete(StageOf(s), ref);
  }

  /** An iteration with nothing going wrong shortens the queue, and at most the object it deletes is
      gone from the remote cluster. */
  lemma QueueMovesOn(s: State, ref: Ref)
    requires Conserved(s) && Sendable(s, ref)
    ensures TransportReturns(s, None)
    ensures var t := TransportRun(s, None);
            && t.settings == s.settings && t.heap == s.heap && t.workerQueue == s.workerQueue
            && t.transportQueue.queue == s.transportQueue.queue[1..]
            && t.transportQueue.waiting == s.transportQueue.waiting
            && t.transportQueue.Pending() == s.transportQueue.Pending() - {ref}
            && forall k | k in s.remote ::
                 k in t.remote
                   || (s.heap.objs[ref].action.Delete? && k == KeyFor(s.heap.objs[ref].gvr, s.heap.Tree(ref)))
  {
    SendSucceeds(s.remote, s.settings, s.heap.objs[ref].gvr, s.heap.objs[ref].action, s.heap.Tree(ref));
    ServeIdle(s.transportQueue);
    assert ref in s.transportQueue.dirty;
    assert TransportRun(s, None).transportQueue == s.transportQueue.Get().Done(ref);
  }

  lemma OthersStayFound(p: Plan, g: Stage, t: Stage, ref: Ref, before: Remote, after: Remote)
    requires g.heap.Valid() && t.heap == g.heap && t.held == g.held && t.sending == g.sending - {ref} && ref !in g.held
    requires ref in g.sending && ref < |g.heap.objs| && DeletesFound(p, g, before)
    requires forall k | k in before :: k in after || (g.heap.objs[ref].action.Delete? && k == KeyOf(p, g.heap, ref))
    ensures DeletesFound(p, t, after)
  {
    forall r | ToDelete(t, r) ensures KeyOf(p, t.heap, r) in after {
      assert ToDelete(g, r) && r != ref;
      assert ToDelete(g, ref) ==> KeyOf(p, g.heap, r) != KeyOf(p, g.heap, ref);
    }
    forall r, q | ToDelete(t, r) && ToDelete(t, q) && r != q ensures KeyOf(p, t.heap, r) != KeyOf(p, t.heap, q) {
      assert ToDelete(g, r) && ToDelete(g, q);
    }
  }

  lemma SendHead(p: Plan, s: State)
    requires Good(p, s) && s.transportQueue.queue != [] && Enabled(s, TransportRuns(None))
    ensures Good(p, Step(s, TransportRuns(None)))
  {
    StepKeepsInvariant(s, TransportRuns(None));
    TransportRunOnlySends(s, None);
    SendingStaysOnPlan(p, s, Step(s, TransportRuns(None)));
  }

  lemma SendHeadKeepsDeletes(p: Plan, s: State)
    requires p.Closed() && Conserved(s) && p.On(s) && s.transportQueue.queue != [] && s.settings.Some?
    requires DeletesFound(p, StageOf(s), s.remote)
    ensures Enabled(s, TransportRuns(None))
    ensures var t := Step(s, TransportRuns(None));
            && t.settings == s.settings && t.heap.Valid() && DeletesFound(p, StageOf(t), t.remote)
            && t.transportQueue.queue == s.transportQueue.queue[1..]
            && t.transportQueue.waiting == s.transportQueue.waiting
  {
    var ref := CanSend(p, s);
    QueueMovesOn(s, ref);
    var t := Step(s, TransportRuns(None));
    OthersStayFound(p, StageOf(s), StageOf(t), ref, s.remote, t.remote);
  }

  lemma SendDelayEnds(p: Plan, s: State, ref: Ref)
    requires Good(p, s) && s.transportQueue.queue == [] && ref in s.transportQueue.waiting
    ensures Enabled(s, TransportDelayEnds(ref))
    ensures var t := Step(s, TransportDelayEnds(ref));
            && Good(p, t) && t.settings == s.settings && t.transportQueue.waiting == s.transportQueue.waiting - {ref}
            && StageOf(t) == StageOf(s) && t.remote == s.remote
  {
    StepKeepsInvariant(s, TransportDelayEnds(ref));
    ExpireIdle(s.transportQueue, ref);
    assert forall x :: x in s.transportQueue.queue <==> x in s.transportQueue.dirty;
  }

  /** The transport manager can complete a round. */
  lemma {:induction false} TransportRoundExists(p: Plan, s: State) returns (events: seq<Event>, t: State)
    requires Good(p, s) && s.settings.Some? && DeletesFound(p, StageOf(s), s.remote)
    ensures TransportRound(s, events, t) && Good(p, t) && t.settings == s.settings
            && DeletesFound(p, StageOf(t), t.remote)
    decreases s.transportQueue.waiting, |s.transportQueue.queue|
  {
    if s.transportQueue.queue == [] && s.transportQueue.waiting == {} {
      assert forall x :: x in s.transportQueue.queue <==> x in s.transportQueue.dirty;
      assert forall x :: x !in s.transportQueue.Pending();
      events, t := [], s;
    } else {
      var e;
      if s.transportQueue.queue != [] {
        e := TransportRuns(None);
        SendHeadKeepsDeletes(p, s);
        SendHead(p, s);
      } else {
        var ref :| ref in s.transportQueue.waiting;
        e := TransportDelayEnds(ref);
        SendDelayEnds(p, s, ref);
      }
      var rest;
      rest, t := TransportRoundExists(p, Step(s, e));
      events := [e] + rest;
      RunsFrom(s, e, Step(s, e), rest, t);
    }
  }

  // ---------------------------------------------------------------------
  // Both
  // ---------------------------------------------------------------------

  lemma {:induction false} RoundsExist(p: Plan, s: State, k: nat, n: nat) returns (rounds: seq<Round>, t: State)
    requires Good(p, s) && s.settings.Some? && k > 0 && forall it | it in p.scope :: p.Rank(it) < k
    requires DeletesFound(p, StageOf(s), s.remote)
    ensures |rounds| == n && Rounds(p, s, rounds, t)
    decreases n
  {
    if n == 0 {
      rounds, t := [], s;
    } else {
      var work, between := WorkerRoundExists(p, s, k);
      WorkerEventsKeepDeletes(p, s, work, between);
      var sending, after := TransportRoundExists(p, between);
      var rest;
      rest, t := RoundsExist(p, after, k, n - 1);
      rounds := [Round(work, between, sending, after)] + rest;
      assert rounds[1..] == rest;
    }
  }

  /** From any state on plan, with settings for the pair cluster and everything that is to be deleted
      there, `d + 1` rounds can be run, and then everything the worker held has been handed over and
      transported. */
  lemma ProgressHappens(p: Plan, s: State, d: nat) returns (rounds: seq<Round>, t: State)
    requires p.Closed() && Invariant(s) && p.On(s) && forall it | it in p.scope :: p.Rank(it) <= d
    requires s.settings.Some? && DeletesFound(p, StageOf(s), s.remote)
    ensures |rounds| == d + 1 && Rounds(p, s, rounds, t)
    ensures t.workerQueue.Pending() == {} && t.transportQueue.Pending() == {} && t.dropped == s.dropped
    ensures forall r | r in s.workerQueue.Pending() ::
              r in t.handed && r in t.settled && Covered(t.versions, t.settled[r].0, t.settled[r].1)
  {
    rounds, t := RoundsExist(p, s, d + 1, d + 1);
    BoundedProgress(p, s, rounds, t, d);
  }
}
