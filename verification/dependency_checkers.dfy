/**
 `pkg/drmanager/dependencynamespaceworker/dependencychecker`: what a PersistentVolumeClaim
 and a StatefulSet need to exist first, looked up in a snapshot of the source cluster.
 */
module DependencyCheckers {
  import opened Wrappers
  import opened Json
  import opened ApiTypes
  import opened Objects
  import opened FilterChain

  /** What the source cluster answers during one check; a failing pod list is None. */
  datatype Cluster = Cluster(pods: Option<seq<Document>>, claims: map<ObjectKey, Document>,
      volumes: map<string, Document>)

  /** What a lookup finds for one object: resource and scope of each dependency, all with one
      and the same tree; a failed lookup; or a panic. */
  datatype Looked = Dependents(headers: seq<(GroupVersionResource, bool)>, tree: Document) | NoAnswer | LookupPanics

  /** The dependencies as freshly allocated objects, a lookup error, or a panic. */
  datatype Checked = Resolved(heap: Heap, deps: seq<Ref>) | LookupError | CheckPanic

  /** Objects for `headers`, all pointing at one new tree. */
  function Allocate(h: Heap, tree: Document, headers: seq<(GroupVersionResource, bool)>,
      action: ObjectAction): (r: (Heap, seq<Ref>))
    requires h.Valid()
    ensures r.0.Valid() && r.0.Extends(h)
    ensures |r.1| == |headers| && |r.0.objs| == |h.objs| + |headers|
    ensures forall i | 0 <= i < |headers| :: r.1[i] == |h.objs| + i && r.0.Tree(r.1[i]) == tree
    ensures forall i | 0 <= i < |headers| ::
              r.0.objs[r.1[i]] == ObjResource(|h.trees|, headers[i].0, headers[i].1, action)
  {
    var objs := h.objs + seq(|headers|,
      i requires 0 <= i < |headers| => ObjResource(|h.trees|, headers[i].0, headers[i].1, action));
    (Heap(objs, h.trees + [tree]), seq(|headers|, i => |h.objs| + i))
  }

  /** Allocating what a lookup for `ref` found. */
  function Allocated(h: Heap, ref: Ref, looked: Looked): (r: Checked)
    requires h.Valid() && ref < |h.objs|
    ensures r.Resolved? ==> r.heap.Valid() && r.heap.Extends(h)
    ensures r.Resolved? ==> forall i | 0 <= i < |r.deps| :: |h.objs| <= r.deps[i] < |r.heap.objs|
    ensures r.Resolved? ==> forall i, j | 0 <= i < j < |r.deps| :: r.deps[i] != r.deps[j]
  {
    match looked
    case NoAnswer => LookupError
    case LookupPanics => CheckPanic
    case Dependents(headers, tree) =>
      if headers == [] then Resolved(h, [])
      else
        var (heap, deps) := Allocate(h, tree, headers, h.objs[ref].action);
        Resolved(heap, deps)
  }

  // ---------------------------------------------------------------------
  // PersistentVolumeClaim
  // ---------------------------------------------------------------------

  function LookupVolume(d: Document, cluster: Cluster): Looked {
    var volumeName := GetString(d, VOLUME_NAME);
    if volumeName == "" then Dependents([], d)
    else if volumeName !in cluster.volumes then NoAnswer
    else Dependents([(PERSISTENT_VOLUME_GVR, false)], cluster.volumes[volumeName])
  }

  // ---------------------------------------------------------------------
  // StatefulSet
  // ---------------------------------------------------------------------

  /** `GetOwnerReferences`, as far as its first entry: no list, an empty one, or the first owner's uid. */
  datatype Owner = NoOwners | EmptyOwners | FirstOwner(uid: string)

  function OwnerOf(pod: Document): Owner {
    match Nested(pod, ["metadata", "ownerReferences"])
    case Found(Arr(a)) =>
      if exists i :: 0 <= i < |a| && !a[i].Obj? then NoOwners
      else if a == [] then EmptyOwners
      else FirstOwner(GetString(a[0], ["uid"]))
    case _ => NoOwners
  }

  /** `siftPodsForStatefulSet`; None when it indexes an empty owner list. */
  function SiftPods(pods: seq<Document>, uid: string): Option<seq<Document>> {
    if pods == [] then Some([])
    else if OwnerOf(pods[0]).EmptyOwners? then None
    else match SiftPods(pods[1..], uid)
      case None => None
      case Some(rest) => Some((if OwnerOf(pods[0]) == FirstOwner(uid) then [pods[0]] else []) + rest)
  }

  /** `reflect.Value.String`. */
  function ReflectString(v: Value): string {
    match v
    case Null => "<invalid Value>"
    case Bool(_) => "<bool Value>"
    case Int(_) => "<int64 Value>"
    case Float(_) => "<float64 Value>"
    case Str(s) => s
    case Arr(_) => "<[]interface {} Value>"
    case Obj(_) => "<map[string]interface {} Value>"
  }

  datatype Claims = Claims(found: seq<Document>) | ClaimError | ClaimPanic

  /** The claim one volume of a pod names: none, found, a failed lookup or a panic. */
  function ClaimOfVolume(volume: Value, ns: string, cluster: Cluster): Claims {
    if !volume.Obj? then ClaimPanic
    else if "persistentVolumeClaim" !in volume.fields then Claims([])
    else
      var pvc := volume.fields["persistentVolumeClaim"];
      if !pvc.Obj? || "claimName" !in pvc.fields then ClaimPanic
      else
        var key := ObjectKey(ns, ReflectString(pvc.fields["claimName"]));
        if key in cluster.claims then Claims([cluster.claims[key]]) else ClaimError
  }

  function ClaimsOfVolumes(volumes: seq<Value>, ns: string, cluster: Cluster): Claims {
    if volumes == [] then Claims([])
    else match ClaimOfVolume(volumes[0], ns, cluster)
      case Claims(first) =>
        (match ClaimsOfVolumes(volumes[1..], ns, cluster)
         case Claims(rest) => Claims(first + rest)
         case other => other)
      case other => other
  }

  /** `checkPodVolumesDependency`. */
  function ClaimsOfPod(pod: Document, cluster: Cluster): Claims {
    match Nested(pod, ["spec", "volumes"])
    case Missing => Claims([])
    case Found(Arr(volumes)) => ClaimsOfVolumes(volumes, GetNamespace(pod), cluster)
    case _ => ClaimError
  }

  function ClaimsOfPods(pods: seq<Document>, cluster: Cluster): Claims {
    if pods == [] then Claims([])
    else match ClaimsOfPod(pods[0], cluster)
      case Claims(first) =>
        (match ClaimsOfPods(pods[1..], cluster)
         case Claims(rest) => Claims(first + rest)
         case other => other)
      case other => other
  }

  /** `utils.GVK2GVR` puts the kind where the plural resource belongs. */
  function GVK2GVR(k: GroupVersionKind): GroupVersionResource {
    GroupVersionResource(k.group, k.version, k.kind)
  }

  function Headers(claims: seq<Document>): (r: seq<(GroupVersionResource, bool)>)
    ensures |r| == |claims| && forall i | 0 <= i < |r| :: r[i] == (GVK2GVR(KindOf(claims[i])), true)
  {
    seq(|claims|, i requires 0 <= i < |claims| => (GVK2GVR(KindOf(claims[i])), true))
  }

  /** Every object returned points at the loop variable, hence at the last claim. */
  function LookupClaims(d: Document, cluster: Cluster): Looked {
    if cluster.pods.None? then NoAnswer
    else match SiftPods(cluster.pods.value, GetUID(d))
      case None => LookupPanics
      case Some(owned) =>
        match ClaimsOfPods(owned, cluster)
        case ClaimError => NoAnswer
        case ClaimPanic => LookupPanics
        case Claims(claims) => Dependents(Headers(claims), if claims == [] then d else Last(claims))
  }

  /** At most one checker is responsible for a resource. */
  function Lookup(gvr: GroupVersionResource, d: Document, cluster: Cluster): Looked {
    if gvr == PERSISTENT_VOLUME_CLAIM_GVR then LookupVolume(d, cluster)
    else if gvr == STATEFUL_SET_GVR then LookupClaims(d, cluster)
    else Dependents([], d)
  }

  /** `getDependencies`. */
  function GetDependencies(h: Heap, ref: Ref, cluster: Cluster): (r: Checked)
    requires h.Valid() && ref < |h.objs|
    ensures r.Resolved? ==> r.heap.Valid() && r.heap.Extends(h)
    ensures r.Resolved? ==> forall i | 0 <= i < |r.deps| :: |h.objs| <= r.deps[i] < |r.heap.objs|
    ensures r.Resolved? ==> forall i, j | 0 <= i < j < |r.deps| :: r.deps[i] != r.deps[j]
  {
    Allocated(h, ref, Lookup(h.objs[ref].gvr, h.Tree(ref), cluster))
  }

  // ---------------------------------------------------------------------
  // The loops of the source
  // ---------------------------------------------------------------------

  method Sift(pods: seq<Document>, uid: string) returns (sifted: Option<seq<Document>>)
    ensures sifted == SiftPods(pods, uid)
  {
    var out := [];
    assert pods[0..] == pods;
    assert forall rest: seq<Document> :: [] + rest == rest;
    for i := 0 to |pods|
      invariant SiftPods(pods, uid) ==
                match SiftPods(pods[i..], uid) { case None => None case Some(rest) => Some(out + rest) }
    {
      assert pods[i..][1..] == pods[i + 1..];
      match OwnerOf(pods[i])
      case EmptyOwners => return None;
      case NoOwners =>
        assert forall rest: seq<Document> :: [] + rest == rest;
      case FirstOwner(first) =>
        if first == uid {
          assert forall rest: seq<Document> :: out + ([pods[i]] + rest) == (out + [pods[i]]) + rest;
          out := out + [pods[i]];
        } else {
          assert forall rest: seq<Document> :: [] + rest == rest;
        }
    }
    assert out + [] == out;
    return Some(out);
  }

  method CheckPodVolumesDependency(cluster: Cluster, pod: Document) returns (r: Claims)
    ensures r == ClaimsOfPod(pod, cluster)
  {
    match Nested(pod, ["spec", "volumes"])
    case Missing => return Claims([]);
    case Found(Arr(volumes)) =>
      var list := [];
      var ns := GetNamespace(pod);
      assert volumes[0..] == volumes;
      for i := 0 to |volumes|
        invariant ClaimsOfVolumes(volumes, ns, cluster) ==
                  match ClaimsOfVolumes(volumes[i..], ns, cluster) {
                    case Claims(rest) => Claims(list + rest)
                    case other => other
                  }
      {
        assert volumes[i..][1..] == volumes[i + 1..];
        match ClaimOfVolume(volumes[i], ns, cluster)
        case Claims(first) =>
          assert forall rest: seq<Document> :: list + (first + rest) == (list + first) + rest;
          list := list + first;
        case ClaimError => return ClaimError;
        case ClaimPanic => return ClaimPanic;
      }
      assert list + [] == list;
      return Claims(list);
    case _ => return ClaimError;
  }

  method ClaimsOfOwnedPods(cluster: Cluster, pods: seq<Document>) returns (r: Claims)
    ensures r == ClaimsOfPods(pods, cluster)
  {
    var all := [];
    assert pods[0..] == pods;
    for i := 0 to |pods|
      invariant ClaimsOfPods(pods, cluster) ==
                match ClaimsOfPods(pods[i..], cluster) { case Claims(rest) => Claims(all + rest) case other => other }
    {
      assert pods[i..][1..] == pods[i + 1..];
      var dpvcs := CheckPodVolumesDependency(cluster, pods[i]);
      match dpvcs
      case Claims(first) =>
        assert forall rest: seq<Document> :: all + (first + rest) == (all + first) + rest;
        all := all + first;
      case ClaimError => return ClaimError;
      case ClaimPanic => return ClaimPanic;
    }
    assert all + [] == all;
    return Claims(all);
  }

  lemma AllocateInPieces(h: Heap, tree: Document, headers: seq<(GroupVersionResource, bool)>, action: ObjectAction,
                         objs: seq<ObjResource>, deps: seq<Ref>)
    requires h.Valid() && |objs| == |deps| == |headers|
    requires forall j | 0 <= j < |headers| :: objs[j] == ObjResource(|h.trees|, headers[j].0, headers[j].1, action)
    requires forall j | 0 <= j < |headers| :: deps[j] == |h.objs| + j
    ensures Allocate(h, tree, headers, action) == (Heap(h.objs + objs, h.trees + [tree]), deps)
  {
    var all := seq(|headers|,
      i requires 0 <= i < |headers| => ObjResource(|h.trees|, headers[i].0, headers[i].1, action));
    assert all == objs;
    assert seq(|headers|, i => |h.objs| + i) == deps;
  }

  /** The last loop of `DependencyCheck`. `u` is one variable for the whole loop, and every
      object takes its address: after the loop all of them show the last claim. */
  method AllocateClaims(store: Store, list: seq<Document>, action: ObjectAction) returns (deps: seq<Ref>)
    requires store.heap.Valid() && list != []
    modifies store
    ensures (store.heap, deps) == Allocate(old(store.heap), Last(list), Headers(list), action)
  {
    var h := store.heap;
    var u := |h.trees|;
    var objs := [];
    deps := [];
    store.heap := h.(trees := h.trees + [list[0]]);
    for i := 0 to |list|
      invariant store.heap == Heap(h.objs, h.trees + [if i == 0 then list[0] else list[i - 1]])
      invariant |objs| == i == |deps|
      invariant forall j | 0 <= j < i :: objs[j] == ObjResource(u, GVK2GVR(KindOf(list[j])), true, action)
      invariant forall j | 0 <= j < i :: deps[j] == |h.objs| + j
    {
      store.heap := store.heap.(trees := h.trees + [list[i]]);
      objs := objs + [ObjResource(u, GVK2GVR(KindOf(list[i])), true, action)];
      deps := deps + [|h.objs| + i];
    }
    store.heap := store.heap.(objs := h.objs + objs);
    AllocateInPieces(h, Last(list), Headers(list), action, objs, deps);
  }

  /** `DependencyCheck` of the StatefulSet checker. */
  method DependencyCheckStatefulSet(store: Store, ref: Ref, cluster: Cluster) returns (status: Verdict, deps: seq<Ref>)
    requires store.heap.Valid() && ref < |store.heap.objs|
    modifies store
    ensures match Allocated(old(store.heap), ref, LookupClaims(old(store.heap.Tree(ref)), cluster))
            case Resolved(heap, found) => status == Passed && store.heap == heap && deps == found
            case LookupError => status == Failed && store.heap == old(store.heap)
            case CheckPanic => status == Panicked && store.heap == old(store.heap)
  {
    deps := [];
    if cluster.pods.None? {
      return Failed, [];
    }
    var owned := Sift(cluster.pods.value, store.heap.Uid(ref));
    if owned.None? {
      return Panicked, [];
    }
    var claims := ClaimsOfOwnedPods(cluster, owned.value);
    match claims
    case ClaimError => return Failed, [];
    case ClaimPanic => return Panicked, [];
    case Claims(list) =>
      status := Passed;
      if list != [] {
        deps := AllocateClaims(store, list, store.heap.objs[ref].action);
      }
  }

  /** `DependencyCheck` of the PersistentVolumeClaim checker. */
  method DependencyCheckClaim(store: Store, ref: Ref, cluster: Cluster) returns (status: Verdict, deps: seq<Ref>)
    requires store.heap.Valid() && ref < |store.heap.objs|
    modifies store
    ensures match Allocated(old(store.heap), ref, LookupVolume(old(store.heap.Tree(ref)), cluster))
            case Resolved(heap, found) => status == Passed && store.heap == heap && deps == found
            case LookupError => status == Failed && store.heap == old(store.heap)
            case CheckPanic => false
  {
    var volumeName := GetString(store.heap.Tree(ref), VOLUME_NAME);
    if volumeName == "" {
      return Passed, [];
    }
    if volumeName !in cluster.volumes {
      return Failed, [];
    }
    var r := Allocate(store.heap, cluster.volumes[volumeName], [(PERSISTENT_VOLUME_GVR, false)],
      store.heap.objs[ref].action);
    store.heap := r.0;
    return Passed, r.1;
  }

  // ---------------------------------------------------------------------
  // What waiting for the returned list means
  // ---------------------------------------------------------------------

  /** The lookups for a StatefulSet succeed with these claims, in this order. */
  ghost predicate HasClaims(h: Heap, ref: Ref, cluster: Cluster, claims: seq<Document>)
    requires h.Valid() && ref < |h.objs|
  {
    && h.objs[ref].gvr == STATEFUL_SET_GVR
    && cluster.pods.Some?
    && var owned := SiftPods(cluster.pods.value, h.Uid(ref));
       owned.Some? && ClaimsOfPods(owned.value, cluster) == Claims(claims)
  }

  lemma ClaimsResolve(h: Heap, ref: Ref, cluster: Cluster, claims: seq<Document>)
    requires h.Valid() && ref < |h.objs| && HasClaims(h, ref, cluster, claims)
    ensures var r := GetDependencies(h, ref, cluster);
            && r.Resolved? && |r.deps| == |claims|
            && forall i | 0 <= i < |r.deps| :: r.heap.Uid(r.deps[i]) == GetUID(Last(claims))
  {
    assert STATEFUL_SET_GVR != PERSISTENT_VOLUME_CLAIM_GVR;
    assert Lookup(h.objs[ref].gvr, h.Tree(ref), cluster) == LookupClaims(h.Tree(ref), cluster);
    assert LookupClaims(h.Tree(ref), cluster).Dependents?;
    if claims != [] {
      var (heap, deps) := Allocate(h, Last(claims), Headers(claims), h.objs[ref].action);
      assert GetDependencies(h, ref, cluster) == Resolved(heap, deps);
    }
  }

  /** Every object in the list has been transported. */
  ghost predicate AllTransported(h: Heap, deps: seq<Ref>, versions: set<string>)
    requires h.Valid() && forall i | 0 <= i < |deps| :: deps[i] < |h.objs|
  {
    forall i | 0 <= i < |deps| :: h.Uid(deps[i]) in versions
  }

  ghost predicate AllClaimsThere(claims: seq<Document>, versions: set<string>) {
    forall i | 0 <= i < |claims| :: GetUID(claims[i]) in versions
  }

  ghost predicate LastClaimThere(claims: seq<Document>, versions: set<string>) {
    claims == [] || GetUID(Last(claims)) in versions
  }

  /** A StatefulSet only ever waits for the last of its claims. */
  lemma OnlyLastClaimGates(h: Heap, ref: Ref, cluster: Cluster, claims: seq<Document>, versions: set<string>)
    requires h.Valid() && ref < |h.objs| && HasClaims(h, ref, cluster, claims)
    ensures var r := GetDependencies(h, ref, cluster);
            r.Resolved? && (AllTransported(r.heap, r.deps, versions) <==> LastClaimThere(claims, versions))
  {
    ClaimsResolve(h, ref, cluster, claims);
    var r := GetDependencies(h, ref, cluster);
    if claims != [] && AllTransported(r.heap, r.deps, versions) {
      assert r.heap.Uid(r.deps[0]) in versions;
    }
  }

  /** Waiting for the last claim means waiting for every claim exactly when all of them carry
      the same uid, so in practice when there is at most one. */
  lemma LastClaimStandsForAllIff(claims: seq<Document>)
    ensures (forall versions | LastClaimThere(claims, versions) :: AllClaimsThere(claims, versions))
            <==> forall i | 0 <= i < |claims| :: GetUID(claims[i]) == GetUID(Last(claims))
  {
    if claims != [] {
      var last := {GetUID(Last(claims))};
      assert LastClaimThere(claims, last);
      if AllClaimsThere(claims, last) {
        forall i | 0 <= i < |claims| ensures GetUID(claims[i]) == GetUID(Last(claims)) {
          assert GetUID(claims[i]) in last;
        }
      }
    }
  }

  // ---------------------------------------------------------------------
  // A StatefulSet that is handed over before its claims
  // ---------------------------------------------------------------------

  function VolumeOf(claim: Document): Value {
    Obj(map["persistentVolumeClaim" := Obj(map["claimName" := Str(GetName(claim))])])
  }

  function VolumesOf(claims: seq<Document>): (r: seq<Value>)
    ensures |r| == |claims| && forall i | 0 <= i < |r| :: r[i] == VolumeOf(claims[i])
  {
    seq(|claims|, i requires 0 <= i < |claims| => VolumeOf(claims[i]))
  }

  /** A pod of the set that mounts all the claims. */
  function PodWith(owner: string, ns: string, claims: seq<Document>): Document {
    Obj(map["metadata" := Obj(map["namespace" := Str(ns), "ownerReferences" := Arr([Obj(map["uid" := Str(owner)])])]),
            "spec" := Obj(map["volumes" := Arr(VolumesOf(claims))])])
  }

  ghost predicate DistinctClaims(claims: seq<Document>, ns: string) {
    && (forall i | 0 <= i < |claims| :: GetNamespace(claims[i]) == ns)
    && (forall i, j | 0 <= i < j < |claims| :: GetName(claims[i]) != GetName(claims[j]))
  }

  ghost function ClusterWith(owner: string, ns: string, claims: seq<Document>): Cluster
    requires DistinctClaims(claims, ns)
  {
    Cluster(Some([PodWith(owner, ns, claims)]),
            map i | 0 <= i < |claims| :: ObjectKey(ns, GetName(claims[i])) := claims[i], map[])
  }

  lemma PodFields(owner: string, ns: string, claims: seq<Document>)
    ensures var pod := PodWith(owner, ns, claims);
            && OwnerOf(pod) == FirstOwner(owner) && GetNamespace(pod) == ns
            && Nested(pod, ["spec", "volumes"]) == Found(Arr(VolumesOf(claims)))
  {
    var pod := PodWith(owner, ns, claims);
    var owners := [Obj(map["uid" := Str(owner)])];
    assert ["metadata", "ownerReferences"][1..] == ["ownerReferences"] && ["ownerReferences"][1..] == [];
    assert Nested(pod.fields["metadata"], ["ownerReferences"]) == Found(Arr(owners));
    assert ["uid"][1..] == [] && Nested(owners[0], ["uid"]) == Found(Str(owner));
    assert NAMESPACE[1..] == ["namespace"] && ["namespace"][1..] == [];
    assert Nested(pod.fields["metadata"], ["namespace"]) == Found(Str(ns));
    assert ["spec", "volumes"][1..] == ["volumes"] && ["volumes"][1..] == [];
    assert Nested(pod.fields["spec"], ["volumes"]) == Found(Arr(VolumesOf(claims)));
  }

  lemma {:induction false} VolumesName(claims: seq<Document>, ns: string, cluster: Cluster, i: nat)
    requires i <= |claims|
    requires forall j | 0 <= j < |claims| ::
               ObjectKey(ns, GetName(claims[j])) in cluster.claims
                 && cluster.claims[ObjectKey(ns, GetName(claims[j]))] == claims[j]
    ensures ClaimsOfVolumes(VolumesOf(claims)[i..], ns, cluster) == Claims(claims[i..])
    decreases |claims| - i
  {
    if i < |claims| {
      var volumes := VolumesOf(claims);
      VolumesName(claims, ns, cluster, i + 1);
      assert volumes[i..][1..] == volumes[i + 1..];
      assert ClaimOfVolume(volumes[i], ns, cluster) == Claims([claims[i]]);
      assert [claims[i]] + claims[i + 1..] == claims[i..];
    }
  }

  lemma OnePod(pod: Document, uid: string, cluster: Cluster)
    requires OwnerOf(pod) == FirstOwner(uid)
    ensures SiftPods([pod], uid) == Some([pod])
    ensures ClaimsOfPods([pod], cluster) == ClaimsOfPod(pod, cluster)
  {
    assert [pod][1..] == [] && [pod] + [] == [pod];
    assert SiftPods([], uid) == Some([]);
    match ClaimsOfPod(pod, cluster)
    case Claims(first) => assert first + [] == first;
    case _ =>
  }

  /** A pod of the set that mounts the claims leads to exactly these claims. */
  lemma PodMounts(pod: Document, uid: string, ns: string, claims: seq<Document>, cluster: Cluster)
    requires OwnerOf(pod) == FirstOwner(uid) && GetNamespace(pod) == ns
    requires Nested(pod, ["spec", "volumes"]) == Found(Arr(VolumesOf(claims)))
    requires forall j | 0 <= j < |claims| ::
               ObjectKey(ns, GetName(claims[j])) in cluster.claims
                 && cluster.claims[ObjectKey(ns, GetName(claims[j]))] == claims[j]
    ensures SiftPods([pod], uid) == Some([pod]) && ClaimsOfPods([pod], cluster) == Claims(claims)
  {
    OnePod(pod, uid, cluster);
    VolumesName(claims, ns, cluster, 0);
    assert claims[0..] == claims && VolumesOf(claims)[0..] == VolumesOf(claims);
  }

  lemma ClusterHasClaims(owner: string, ns: string, claims: seq<Document>)
    requires DistinctClaims(claims, ns)
    ensures var cluster := ClusterWith(owner, ns, claims);
            && cluster.pods == Some([PodWith(owner, ns, claims)])
            && forall j | 0 <= j < |claims| ::
                 ObjectKey(ns, GetName(claims[j])) in cluster.claims
                   && cluster.claims[ObjectKey(ns, GetName(claims[j]))] == claims[j]
  {
  }

  lemma FoundByPod(h: Heap, ref: Ref, cluster: Cluster, pod: Document, claims: seq<Document>)
    requires h.Valid() && ref < |h.objs| && h.objs[ref].gvr == STATEFUL_SET_GVR && cluster.pods == Some([pod])
    requires SiftPods([pod], h.Uid(ref)) == Some([pod]) && ClaimsOfPods([pod], cluster) == Claims(claims)
    ensures HasClaims(h, ref, cluster, claims)
  {
  }

  /** Every list of claims is what the lookups find for the set in some cluster. */
  lemma AnyClaimsFound(h: Heap, ref: Ref, ns: string, claims: seq<Document>)
    requires h.Valid() && ref < |h.objs| && h.objs[ref].gvr == STATEFUL_SET_GVR && DistinctClaims(claims, ns)
    ensures HasClaims(h, ref, ClusterWith(h.Uid(ref), ns, claims), claims)
  {
    var owner := h.Uid(ref);
    var pod, cluster := PodWith(owner, ns, claims), ClusterWith(owner, ns, claims);
    PodFields(owner, ns, claims);
    ClusterHasClaims(owner, ns, claims);
    PodMounts(pod, owner, ns, claims, cluster);
    FoundByPod(h, ref, cluster, pod, claims);
  }

  /** So whenever claims of a set differ in uid, there is a cluster in which the set counts as ready
      although some claim has not been transported. */
  lemma ReadyWithoutClaims(h: Heap, ref: Ref, ns: string, claims: seq<Document>)
    requires h.Valid() && ref < |h.objs| && h.objs[ref].gvr == STATEFUL_SET_GVR && DistinctClaims(claims, ns)
    requires exists i :: 0 <= i < |claims| && GetUID(claims[i]) != GetUID(Last(claims))
    ensures var cluster := ClusterWith(h.Uid(ref), ns, claims);
            var versions := {GetUID(Last(claims))};
            var r := GetDependencies(h, ref, cluster);
            && HasClaims(h, ref, cluster, claims)
            && r.Resolved? && |r.deps| == |claims| && AllTransported(r.heap, r.deps, versions)
            && !AllClaimsThere(claims, versions)
  {
    var cluster := ClusterWith(h.Uid(ref), ns, claims);
    AnyClaimsFound(h, ref, ns, claims);
    ClaimsResolve(h, ref, cluster, claims);
    OnlyLastClaimGates(h, ref, cluster, claims, {GetUID(Last(claims))});
  }
}
