/**
 Bounded progress for the dependency the code resolves exactly: any number of claims of a
 namespace, each bound to a volume, under an installed configuration.
 */
module ClaimProgress {
  import opened Wrappers
  import opened Json
  import opened ApiTypes
  import opened Objects
  import Mapping = VariableMappingFilter
  import opened FilterChain
  import opened InstalledChain
  import opened Identity
  import opened DependencyCheckers
  import opened Pipeline
  import opened PipelineProgress
  import opened PipelineSchedule
  import Retry

  /** What the chain makes of an object that it accepts. */
  ghost function Filtered(c: DRFilterConfig, d: Document): Document {
    var o := if c.variableMappingFilter.Some? then Mapping.AnyOrders(c.variableMappingFilter.value.kindVariableMappings)
      else [];
    DeleteFrom(Enrich(c), Map(c, o, d).tree).tree
  }

  /** No rule for objects of the kind is about the string. */
  ghost predicate Around(c: DRFilterConfig, kind: GroupVersionKind, name: Path) {
    MapsAround(c, kind, name) && Retry.DeletesAround(c, kind, name)
  }

  /** A configuration that white-lists the object's kind, but not last, maps it without interference
      or failure, has no rule about what identifies it, and rewrites no string twice. */
  ghost predicate Handles(c: DRFilterConfig, d: Document) {
    var kind := KindOf(d);
    && WellFormed(c) && kind in WhiteListOf(c).kindWhiteList && kind != Last(WhiteListOf(c).kindWhiteList)
    && Retry.KeepsKind(c, kind)
    && Around(c, kind, UID) && Around(c, kind, NAME) && Around(c, kind, NAMESPACE)
    && GetName(d) != ""
    && Retry.MappingsApart(c, d) && (exists o :: MapOrders(c, o) && Map(c, o, d).verdict == Passed)
    && Retry.RulesSettle(c, d, Retry.Paths(c, d))
  }

  /** A claim is bound, and no rule is about what it is bound to. */
  ghost predicate HandlesClaim(c: DRFilterConfig, d: Document) {
    Handles(c, d) && Around(c, KindOf(d), VOLUME_NAME) && GetString(d, VOLUME_NAME) != ""
  }

  ghost predicate VolumeFits(c: DRFilterConfig, gvr: GroupVersionResource, d: Document) {
    gvr == PERSISTENT_VOLUME_CLAIM_GVR ==> HandlesClaim(c, d)
  }

  // ---------------------------------------------------------------------
  // One object
  // ---------------------------------------------------------------------

  lemma MappedAlike(c: DRFilterConfig, d: Document, o: Mapping.Orders)
    requires Handles(c, d) && MapOrders(c, o)
    ensures Map(c, o, d).verdict == Passed && Filtered(c, d) == DeleteFrom(Enrich(c), Map(c, o, d).tree).tree
  {
    var some :| MapOrders(c, some) && Map(c, some, d).verdict == Passed;
    var any := if c.variableMappingFilter.Some?
      then Mapping.AnyOrders(c.variableMappingFilter.value.kindVariableMappings) else [];
    Retry.AnyMapOrder(c, some, o, d);
    Retry.AnyMapOrder(c, some, any, d);
  }

  /** A string that no rule is about comes through. */
  lemma Keeps(c: DRFilterConfig, d: Document, o: Mapping.Orders, name: Path)
    requires Handles(c, d) && MapOrders(c, o) && |name| == 2 && Around(c, KindOf(d), name)
    ensures Map(c, o, d).verdict == Passed && SameKindStrings(Map(c, o, d).tree, d)
    ensures GetString(Map(c, o, d).tree, name) == GetString(d, name) == GetString(Filtered(c, d), name)
  {
    MappedAlike(c, d, o);
    MapKeepsString(c, o, d, name);
    Retry.MapKeepsKind(c, o, d);
    Retry.DeleteKeepsString(c, Map(c, o, d).tree, name);
  }

  lemma KeepsKey(c: DRFilterConfig, d: Document, o: Mapping.Orders)
    requires Handles(c, d) && MapOrders(c, o)
    ensures Map(c, o, d).verdict == Passed && Retry.Paths(c, Map(c, o, d).tree) == Retry.Paths(c, d)
    ensures SameKey(Filtered(c, d), d)
  {
    Keeps(c, d, o, NAME);
    Keeps(c, d, o, NAMESPACE);
  }

  /** Every pass accepts, with the same result. */
  lemma PassAccepts(c: DRFilterConfig, orders: seq<Mapping.Orders>, gvr: GroupVersionResource, d: Document)
    requires Handles(c, d) && VolumeFits(c, gvr, d) && OrdersFit(Chain(Some(Enrich(c))), orders)
    ensures MapOrders(c, MapOrder(Enrich(c), orders))
    ensures ChainOut(Chain(Some(Enrich(c))), orders, gvr, d) == FilterOutcome(Filtered(c, d), Accept)
  {
    var e := Enrich(c);
    ChainRuns(e, orders, gvr, d);
    var o := MapOrder(e, orders);
    MappedAlike(c, d, o);
    WellFormedDeletes(c, Map(c, o, d).tree);
    if gvr == PERSISTENT_VOLUME_CLAIM_GVR {
      Keeps(c, d, o, VOLUME_NAME);
    }
  }

  /** And every later pass leaves that result alone. */
  lemma LaterPasses(c: DRFilterConfig, orders: seq<Mapping.Orders>, gvr: GroupVersionResource, d: Document)
    requires Handles(c, d) && VolumeFits(c, gvr, d) && OrdersFit(Chain(Some(Enrich(c))), orders)
    ensures ChainOut(Chain(Some(Enrich(c))), orders, gvr, Filtered(c, d)) == FilterOutcome(Filtered(c, d), Accept)
  {
    var o := MapOrder(Enrich(c), orders);
    PassAccepts(c, orders, gvr, d);
    KeepsKey(c, d, o);
    MappedAlike(c, d, o);
    WellFormedDeletes(c, Map(c, o, d).tree);
    Retry.StableByRules(c, o, d);
    Retry.SecondPass(c, orders, orders, gvr, d);
  }

  lemma FilteredApart(c: DRFilterConfig, d: Document, o: Mapping.Orders)
    requires Handles(c, d) && MapOrders(c, o)
    ensures Retry.MappingsApart(c, Filtered(c, d))
  {
    MappedAlike(c, d, o);
    Retry.SameKind(c, o, d);
    Retry.DeletePrunes(Enrich(c), Map(c, o, d).tree);
    Retry.ApartStays(c, o, d, Filtered(c, d));
  }

  /** Nor do the filters change anything about it any more. */
  lemma FilteredIsFiltered(c: DRFilterConfig, gvr: GroupVersionResource, d: Document)
    requires Handles(c, d) && VolumeFits(c, gvr, d)
    ensures Filtered(c, Filtered(c, d)) == Filtered(c, d)
  {
    var e, r := Enrich(c), Filtered(c, d);
    var orders := AnyFilterOrders(Chain(Some(e)));
    var o := MapOrder(e, orders);
    LaterPasses(c, orders, gvr, d);
    ChainRuns(e, orders, gvr, r);
    assert Map(e, o, r) == Map(c, o, r);
    var any := if c.variableMappingFilter.Some?
      then Mapping.AnyOrders(c.variableMappingFilter.value.kindVariableMappings) else [];
    FilteredApart(c, d, o);
    Retry.AnyMapOrder(c, o, any, r);
  }

  // ---------------------------------------------------------------------
  // Claims and their volumes
  // ---------------------------------------------------------------------

  ghost predicate AllHandled(c: DRFilterConfig, claims: set<Document>, volumes: set<Document>) {
    (forall d | d in claims :: HandlesClaim(c, d)) && (forall v | v in volumes :: Handles(c, v))
  }

  /** Claims of the namespace, bound to volumes the source knows; a claim and a volume differ in uid. */
  ghost predicate Bound(cluster: Cluster, ns: string, claims: set<Document>, volumes: set<Document>) {
    && (forall d | d in claims :: GetObjectNamespace(d) == ns && GetString(d, VOLUME_NAME) in cluster.volumes
                                  && cluster.volumes[GetString(d, VOLUME_NAME)] in volumes)
    && (forall d, v | d in claims && v in volumes :: GetUID(d) != GetUID(v))
  }

  ghost predicate ClaimItem(c: DRFilterConfig, claims: set<Document>, it: Item) {
    it.0 == PERSISTENT_VOLUME_CLAIM_GVR && exists d :: d in claims && (it.1 == d || it.1 == Filtered(c, d))
  }

  ghost predicate VolumeItem(c: DRFilterConfig, volumes: set<Document>, it: Item) {
    it.0 == PERSISTENT_VOLUME_GVR && exists v :: v in volumes && (it.1 == v || it.1 == Filtered(c, v))
  }

  /** Any number of events for these claims, and what they need; claims may also be deleted. */
  ghost function ClaimPlan(c: DRFilterConfig, cluster: Cluster, ns: string, claims: set<Document>,
      volumes: set<Document>): Plan {
    Plan(ns, Chain(Some(Enrich(c))), cluster,
      iset it: Item | ClaimItem(c, claims, it) || VolumeItem(c, volumes, it),
      iset it: Item | ClaimItem(c, claims, it),
      (d: Document) => Filtered(c, d),
      (u: string) => if exists d :: d in claims && GetUID(d) == u then 1 else 0)
  }

  lemma ItemSettles(c: DRFilterConfig, p: Plan, items: iset<Item>, it: Item, d: Document)
    requires p.filters == Chain(Some(Enrich(c))) && p.settle == ((x: Document) => Filtered(c, x))
    requires Handles(c, d) && VolumeFits(c, it.0, d) && (it.1 == d || it.1 == Filtered(c, d))
             && (it.0, Filtered(c, d)) in items
    ensures p.SettlesIn(it, items) && p.settle(it.1) == Filtered(c, d) && GetUID(it.1) == GetUID(d)
    ensures SameKey(it.1, d)
  {
    var o := MapOrder(Enrich(c), AnyFilterOrders(Chain(Some(Enrich(c)))));
    FilteredIsFiltered(c, it.0, d);
    Keeps(c, d, o, UID);
    KeepsKey(c, d, o);
    forall orders | OrdersFit(p.filters, orders)
      ensures ChainOut(p.filters, orders, it.0, it.1) == FilterOutcome(Filtered(c, d), Accept)
    {
      PassAccepts(c, orders, it.0, d);
      LaterPasses(c, orders, it.0, d);
    }
  }

  lemma ClaimSettles(c: DRFilterConfig, p: Plan, claims: set<Document>, volumes: set<Document>, items: iset<Item>,
      it: Item)
    returns (d: Document)
    requires p == ClaimPlan(c, p.cluster, p.namespace, claims, volumes) && AllHandled(c, claims, volumes)
    requires ClaimItem(c, claims, it) && (items == p.scope || items == p.deletes)
    ensures d in claims && p.SettlesIn(it, items) && p.settle(it.1) == Filtered(c, d) && GetUID(it.1) == GetUID(d)
            && SameKey(it.1, d)
  {
    d :| d in claims && (it.1 == d || it.1 == Filtered(c, d));
    assert ClaimItem(c, claims, (it.0, Filtered(c, d)));
    ItemSettles(c, p, items, it, d);
  }

  lemma VolumeSettles(c: DRFilterConfig, p: Plan, claims: set<Document>, volumes: set<Document>, it: Item)
    returns (v: Document)
    requires p == ClaimPlan(c, p.cluster, p.namespace, claims, volumes) && AllHandled(c, claims, volumes)
    requires VolumeItem(c, volumes, it)
    ensures v in volumes && p.SettlesIn(it, p.scope) && p.settle(it.1) == Filtered(c, v) && GetUID(it.1) == GetUID(v)
  {
    v :| v in volumes && (it.1 == v || it.1 == Filtered(c, v));
    assert VolumeItem(c, volumes, (it.0, Filtered(c, v)));
    ItemSettles(c, p, p.scope, it, v);
  }

  /** The item comes from this claim or volume. */
  ghost predicate Owns(claims: set<Document>, volumes: set<Document>, it: Item, d: Document) {
    GetUID(it.1) == GetUID(d) && (d in volumes || (d in claims && GetObjectNamespace(it.1) == GetObjectNamespace(d)))
  }

  lemma Owner(c: DRFilterConfig, p: Plan, claims: set<Document>, volumes: set<Document>, it: Item) returns (d: Document)
    requires p == ClaimPlan(c, p.cluster, p.namespace, claims, volumes) && AllHandled(c, claims, volumes)
             && it in p.scope
    ensures Owns(claims, volumes, it, d)
  {
    if ClaimItem(c, claims, it) {
      d := ClaimSettles(c, p, claims, volumes, p.scope, it);
    } else {
      d := VolumeSettles(c, p, claims, volumes, it);
    }
  }

  lemma ClaimNeedsVolume(c: DRFilterConfig, p: Plan, d: Document)
    requires HandlesClaim(c, d) && GetString(d, VOLUME_NAME) in p.cluster.volumes
    ensures p.Needs((PERSISTENT_VOLUME_CLAIM_GVR, Filtered(c, d))) ==
            Dependents([(PERSISTENT_VOLUME_GVR, false)], p.cluster.volumes[GetString(d, VOLUME_NAME)])
  {
    Keeps(c, d, MapOrder(Enrich(c), AnyFilterOrders(Chain(Some(Enrich(c))))), VOLUME_NAME);
  }

  lemma ClaimCloses(p: Plan, it: Item, volume: Document)
    requires p.SettlesIn(it, p.scope) && p.Rank(it) == 1 && p.rank(GetUID(volume)) == 0
    requires p.Needs((it.0, p.settle(it.1))) == Dependents([(PERSISTENT_VOLUME_GVR, false)], volume)
    requires (PERSISTENT_VOLUME_GVR, volume) in p.scope
    ensures p.ClosedAt(it)
  {
  }

  /** What is in scope from outside the namespace is a volume. */
  lemma ClaimDeleteCloses(p: Plan, claims: set<Document>, volumes: set<Document>, it: Item, d: Document)
    requires p.SettlesIn(it, p.deletes) && d in claims && GetUID(it.1) == GetUID(d)
             && GetObjectNamespace(it.1) == p.namespace
    requires forall x | x in claims :: GetObjectNamespace(x) == p.namespace
    requires forall x, v | x in claims && v in volumes :: GetUID(x) != GetUID(v)
    requires forall other | other in p.scope :: exists x :: Owns(claims, volumes, other, x)
    ensures p.DeleteClosedAt(it)
  {
    forall other | other in p.scope && GetObjectNamespace(other.1) != p.namespace
      ensures GetUID(other.1) != GetUID(it.1) {
      var x :| Owns(claims, volumes, other, x);
    }
  }

  lemma VolumeCloses(c: DRFilterConfig, p: Plan, claims: set<Document>, volumes: set<Document>, it: Item)
    requires p == ClaimPlan(c, p.cluster, p.namespace, claims, volumes) && AllHandled(c, claims, volumes)
    requires VolumeItem(c, volumes, it)
    ensures p.ClosedAt(it)
  {
    var v := VolumeSettles(c, p, claims, volumes, it);
    assert PERSISTENT_VOLUME_GVR != STATEFUL_SET_GVR && PERSISTENT_VOLUME_GVR != PERSISTENT_VOLUME_CLAIM_GVR;
    assert p.Needs((it.0, p.settle(it.1))) == Dependents([], p.settle(it.1));
  }

  /** For any claims of the namespace bound to volumes the source knows, two rounds do. */
  lemma ClaimsInTwoRounds(c: DRFilterConfig, p: Plan, claims: set<Document>, volumes: set<Document>, s: State)
    returns (rounds: seq<Round>, t: State)
    requires p == ClaimPlan(c, p.cluster, p.namespace, claims, volumes)
    requires AllHandled(c, claims, volumes) && Bound(p.cluster, p.namespace, claims, volumes)
    requires Invariant(s) && p.On(s) && s.settings.Some? && DeletesFound(p, StageOf(s), s.remote)
    ensures |rounds| == 2 && PipelineProgress.Rounds(p, s, rounds, t)
    ensures t.workerQueue.Pending() == {} && t.transportQueue.Pending() == {} && t.dropped == s.dropped
    ensures forall r | r in s.workerQueue.Pending() ::
              r in t.handed && r in t.settled && Covered(t.versions, t.settled[r].0, t.settled[r].1)
  {
    PlanCloses(c, p, claims, volumes);
    rounds, t := ProgressHappens(p, s, 1);
  }

  lemma PlanCloses(c: DRFilterConfig, p: Plan, claims: set<Document>, volumes: set<Document>)
    requires p == ClaimPlan(c, p.cluster, p.namespace, claims, volumes) && AllHandled(c, claims, volumes)
    requires Bound(p.cluster, p.namespace, claims, volumes)
    ensures p.Closed()
  {
    forall other | other in p.scope ensures exists x :: Owns(claims, volumes, other, x) {
      var x := Owner(c, p, claims, volumes, other);
    }
    forall it | it in p.scope ensures p.ClosedAt(it) {
      if ClaimItem(c, claims, it) {
        var d := ClaimSettles(c, p, claims, volumes, p.scope, it);
        var volume := ClaimVolume(c, p, claims, volumes, d);
        ClaimCloses(p, it, volume);
      } else {
        VolumeCloses(c, p, claims, volumes, it);
      }
    }
    forall it | it in p.deletes ensures p.DeleteClosedAt(it) {
      var d := ClaimSettles(c, p, claims, volumes, p.deletes, it);
      ClaimDeleteCloses(p, claims, volumes, it, d);
    }
  }

  lemma ClaimVolume(c: DRFilterConfig, p: Plan, claims: set<Document>, volumes: set<Document>, d: Document)
    returns (volume: Document)
    requires p == ClaimPlan(c, p.cluster, p.namespace, claims, volumes) && AllHandled(c, claims, volumes)
    requires Bound(p.cluster, p.namespace, claims, volumes) && d in claims
    ensures p.rank(GetUID(d)) == 1 && p.rank(GetUID(volume)) == 0 && (PERSISTENT_VOLUME_GVR, volume) in p.scope
    ensures p.Needs((PERSISTENT_VOLUME_CLAIM_GVR, Filtered(c, d))) ==
            Dependents([(PERSISTENT_VOLUME_GVR, false)], volume)
  {
    ClaimNeedsVolume(c, p, d);
    volume := p.cluster.volumes[GetString(d, VOLUME_NAME)];
    assert VolumeItem(c, volumes, (PERSISTENT_VOLUME_GVR, volume));
  }
}
