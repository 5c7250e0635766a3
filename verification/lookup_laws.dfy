/**
 What the lookups of the dependency checkers find, by position: which pods belong to a StatefulSet, which
 claims they mount, in which order, and what makes a lookup fail.
 */
module LookupLaws {
  import opened Wrappers
  import opened Json
  import opened ApiTypes
  import opened DependencyCheckers

  // ---------------------------------------------------------------------
  // Owners
  // ---------------------------------------------------------------------

  /** What an accessor finds at a path, and what is below it. */
  lemma {:induction false} NestedIsProbed(v: Value, path: Path, at: Location)
    ensures Probe(v, KeysOf(path) + at) == match Nested(v, path) { case Found(x) => Probe(x, at) case _ => None }
    decreases |path|
  {
    if path == [] {
      assert KeysOf(path) + at == at;
    } else {
      var keys := KeysOf(path);
      assert (keys + at)[0] == Key(path[0]) && (keys + at)[1..] == KeysOf(path[1..]) + at;
      if v.Obj? && path[0] in v.fields {
        NestedIsProbed(v.fields[path[0]], path[1..], at);
      }
    }
  }

  const OWNERS: Location := [Key("metadata"), Key("ownerReferences")]

  ghost function StringAt(v: Value, at: Location): string {
    match Probe(v, at)
    case Some(Leaf(Str(s))) => s
    case _ => ""
  }

  /** A list of at least one owner, all of them maps, the first with this uid. */
  ghost predicate FirstOwnerIs(pod: Document, uid: string) {
    && Probe(pod, OWNERS).Some? && Probe(pod, OWNERS).value.ListNode? && Probe(pod, OWNERS).value.length > 0
    && (forall i: nat | i < Probe(pod, OWNERS).value.length :: Probe(pod, OWNERS + [Index(i)]) == Some(MapNode))
    && StringAt(pod, OWNERS + [Index(0), Key("uid")]) == uid
  }

  ghost predicate NoFirstOwner(pod: Document) {
    Probe(pod, OWNERS) == Some(ListNode(0))
  }

  lemma OwnerIff(pod: Document, uid: string)
    ensures OwnerOf(pod) == FirstOwner(uid) <==> FirstOwnerIs(pod, uid)
    ensures OwnerOf(pod).EmptyOwners? <==> NoFirstOwner(pod)
  {
    var path := ["metadata", "ownerReferences"];
    assert KeysOf(path) == OWNERS;
    NestedIsProbed(pod, path, []);
    assert OWNERS + [] == OWNERS;
    match Nested(pod, path)
    case Found(Arr(a)) =>
      forall i: nat | i < |a| ensures Probe(pod, OWNERS + [Index(i)]) == Some(MapNode) <==> a[i].Obj? {
        NestedIsProbed(pod, path, [Index(i)]);
        assert [Index(i)][1..] == [];
        assert Probe(Arr(a), [Index(i)]) == Some(ShapeOf(a[i]));
      }
      if a != [] {
        NestedIsProbed(pod, path, [Index(0), Key("uid")]);
        assert [Index(0), Key("uid")][1..] == [Key("uid")] && [Key("uid")][1..] == [] && ["uid"][1..] == [];
        assert Probe(Arr(a), [Index(0), Key("uid")]) == Probe(a[0], [Key("uid")]);
        assert KeysOf(["uid"]) + [] == [Key("uid")];
        NestedIsProbed(a[0], ["uid"], []);
      }
    case _ =>
  }

  // ---------------------------------------------------------------------
  // Volumes
  // ---------------------------------------------------------------------

  /** The volume mounts the claim of this name. */
  ghost predicate Mounts(volume: Value, name: string) {
    && volume.Obj? && "persistentVolumeClaim" in volume.fields
    && volume.fields["persistentVolumeClaim"].Obj?
    && "claimName" in volume.fields["persistentVolumeClaim"].fields
    && name == ReflectString(volume.fields["persistentVolumeClaim"].fields["claimName"])
  }

  ghost predicate MountsNothing(volume: Value) {
    volume.Obj? && "persistentVolumeClaim" !in volume.fields
  }

  /** Reading the volume by reflection panics. */
  ghost predicate Broken(volume: Value) {
    !MountsNothing(volume) && forall name :: !Mounts(volume, name)
  }

  ghost function VolumesAt(pod: Document): seq<Value> {
    match Nested(pod, ["spec", "volumes"])
    case Found(Arr(a)) => a
    case _ => []
  }

  /** The volumes are there, but are no list, or lie below something that is no map. */
  ghost predicate NoVolumeList(pod: Document) {
    match Nested(pod, ["spec", "volumes"])
    case Missing => false
    case Found(Arr(_)) => false
    case _ => true
  }

  ghost function ClaimKey(pod: Document, name: string): ObjectKey {
    ObjectKey(GetString(pod, ["metadata", "namespace"]), name)
  }

  /** Volume `j` of pod `i`, which belongs to the set, mounts the claim of this name. */
  ghost predicate MountsAt(pods: seq<Document>, uid: string, i: nat, j: nat, name: string) {
    && i < |pods| && FirstOwnerIs(pods[i], uid)
    && j < |VolumesAt(pods[i])| && Mounts(VolumesAt(pods[i])[j], name)
  }

  ghost predicate Before(p: (nat, nat), q: (nat, nat)) {
    p.0 < q.0 || (p.0 == q.0 && p.1 < q.1)
  }

  /** `list` is, in this order, what the volumes at `js` mount, and no other volume mounts anything. */
  ghost predicate Listed(volumes: seq<Value>, ns: string, cluster: Cluster, list: seq<Document>, js: seq<nat>) {
    && |js| == |list|
    && Rising(js)
    && (forall k | 0 <= k < |list| :: MountsClaim(volumes, ns, cluster, list[k], js[k]))
    && AllListed(volumes, js)
  }

  ghost predicate Rising(js: seq<nat>) {
    forall k, l | 0 <= k < l < |js| :: js[k] < js[l]
  }

  ghost predicate AllListed(volumes: seq<Value>, js: seq<nat>) {
    forall j: nat | j < |volumes| && !MountsNothing(volumes[j]) :: j in js
  }

  ghost predicate MountsClaim(volumes: seq<Value>, ns: string, cluster: Cluster, claim: Document, j: nat) {
    j < |volumes| &&
    exists name ::
      Mounts(volumes[j], name) && ObjectKey(ns, name) in cluster.claims && cluster.claims[ObjectKey(ns, name)] == claim
  }

  function Shifted(js: seq<nat>): (r: seq<nat>)
    ensures |r| == |js| && forall k | 0 <= k < |r| :: r[k] == js[k] + 1
  {
    seq(|js|, k requires 0 <= k < |js| => js[k] + 1)
  }

  lemma AllListedLater(volumes: seq<Value>, later: seq<nat>, js: seq<nat>)
    requires volumes != [] && AllListed(volumes[1..], later)
    requires (js == Shifted(later) && MountsNothing(volumes[0])) || js == [0] + Shifted(later)
    ensures AllListed(volumes, js)
  {
    var tail := volumes[1..];
    var skipped := |js| - |later|;
    forall j: nat | j < |volumes| && !MountsNothing(volumes[j]) ensures j in js {
      if j > 0 {
        assert tail[j - 1] == volumes[j];
        assert j - 1 in later;
        var m :| 0 <= m < |later| && later[m] == j - 1;
        assert js[skipped + m] == Shifted(later)[m] == j;
      } else {
        assert js[0] == 0;
      }
    }
  }

  lemma RisingLater(later: seq<nat>)
    requires Rising(later)
    ensures Rising(Shifted(later)) && Rising([0] + Shifted(later))
  {
    var js := [0] + Shifted(later);
    forall k, l | 0 <= k < l < |js| ensures js[k] < js[l] {
      assert js[l] == later[l - 1] + 1;
      assert k > 0 ==> js[k] == later[k - 1] + 1;
    }
  }

  lemma MountsLater(volumes: seq<Value>, ns: string, cluster: Cluster, claim: Document, j: nat)
    requires volumes != [] && MountsClaim(volumes[1..], ns, cluster, claim, j)
    ensures MountsClaim(volumes, ns, cluster, claim, j + 1)
  {
    assert volumes[1..][j] == volumes[j + 1];
  }

  lemma ListedFirst(volumes: seq<Value>, ns: string, cluster: Cluster, claim: Document, rest: seq<Document>,
      later: seq<nat>)
    requires volumes != [] && Listed(volumes[1..], ns, cluster, rest, later)
    requires MountsClaim(volumes, ns, cluster, claim, 0)
    ensures Listed(volumes, ns, cluster, [claim] + rest, [0] + Shifted(later))
  {
    RisingLater(later);
    AllListedLater(volumes, later, [0] + Shifted(later));
    var js, list := [0] + Shifted(later), [claim] + rest;
    forall k | 0 <= k < |list| ensures MountsClaim(volumes, ns, cluster, list[k], js[k]) {
      if k > 0 {
        assert js[k] == later[k - 1] + 1 && list[k] == rest[k - 1];
        MountsLater(volumes, ns, cluster, rest[k - 1], later[k - 1]);
      }
    }
  }

  lemma ListedWithout(volumes: seq<Value>, ns: string, cluster: Cluster, rest: seq<Document>, later: seq<nat>)
    requires volumes != [] && Listed(volumes[1..], ns, cluster, rest, later)
    requires MountsNothing(volumes[0])
    ensures Listed(volumes, ns, cluster, rest, Shifted(later))
  {
    RisingLater(later);
    AllListedLater(volumes, later, Shifted(later));
    forall k | 0 <= k < |rest| ensures MountsClaim(volumes, ns, cluster, rest[k], Shifted(later)[k]) {
      MountsLater(volumes, ns, cluster, rest[k], later[k]);
    }
  }

  /** The claims of a pod's volumes: each that is mounted, in the order of the volumes. */
  lemma {:induction false} VolumesListed(volumes: seq<Value>, ns: string, cluster: Cluster, list: seq<Document>)
    returns (js: seq<nat>)
    requires ClaimsOfVolumes(volumes, ns, cluster) == Claims(list)
    ensures Listed(volumes, ns, cluster, list, js)
  {
    js := [];
    if volumes != [] {
      var first := ClaimOfVolume(volumes[0], ns, cluster).found;
      var rest := ClaimsOfVolumes(volumes[1..], ns, cluster).found;
      var later := VolumesListed(volumes[1..], ns, cluster, rest);
      if MountsNothing(volumes[0]) {
        ListedWithout(volumes, ns, cluster, rest, later);
        assert list == rest;
        js := Shifted(later);
      } else {
        var name := ReflectString(volumes[0].fields["persistentVolumeClaim"].fields["claimName"]);
        assert Mounts(volumes[0], name);
        ListedFirst(volumes, ns, cluster, first[0], rest, later);
        assert list == [first[0]] + rest;
        js := [0] + Shifted(later);
      }
    }
  }

  /** Every volume can be read, and every claim it mounts is there. */
  ghost predicate Readable(volume: Value, ns: string, cluster: Cluster) {
    !Broken(volume) && forall name | Mounts(volume, name) :: ObjectKey(ns, name) in cluster.claims
  }

  /** The lookups fail, or panic, at the first volume that cannot be read. */
  lemma {:induction false} VolumesFail(volumes: seq<Value>, ns: string, cluster: Cluster) returns (i: nat)
    ensures i <= |volumes| && forall j | 0 <= j < i :: Readable(volumes[j], ns, cluster)
    ensures match ClaimsOfVolumes(volumes, ns, cluster)
            case Claims(_) => i == |volumes|
            case ClaimError => i < |volumes| && !Readable(volumes[i], ns, cluster) && !Broken(volumes[i])
            case ClaimPanic => i < |volumes| && Broken(volumes[i])
  {
    i := 0;
    if volumes != [] {
      var v := volumes[0];
      if v.Obj? && "persistentVolumeClaim" in v.fields && v.fields["persistentVolumeClaim"].Obj?
         && "claimName" in v.fields["persistentVolumeClaim"].fields {
        assert Mounts(v, ReflectString(v.fields["persistentVolumeClaim"].fields["claimName"]));
      }
      if ClaimOfVolume(v, ns, cluster).Claims? {
        var k := VolumesFail(volumes[1..], ns, cluster);
        i := k + 1;
        assert forall j | 0 < j < |volumes| :: volumes[j] == volumes[1..][j - 1];
      }
    }
  }

  // ---------------------------------------------------------------------
  // Pods
  // ---------------------------------------------------------------------

  /** `owned` are the pods at `js`, in this order, and no other pod belongs to the set. */
  ghost predicate Owned(pods: seq<Document>, uid: string, owned: seq<Document>, js: seq<nat>) {
    && |js| == |owned| && Rising(js)
    && (forall k | 0 <= k < |owned| :: OwnsAt(pods, uid, owned[k], js[k]))
    && NoneMissed(pods, uid, js)
  }

  ghost predicate NoneMissed(pods: seq<Document>, uid: string, js: seq<nat>) {
    forall j: nat | j < |pods| && FirstOwnerIs(pods[j], uid) :: j in js
  }

  ghost predicate OwnsAt(pods: seq<Document>, uid: string, pod: Document, j: nat) {
    j < |pods| && pods[j] == pod && FirstOwnerIs(pod, uid)
  }

  lemma OwnsLater(pods: seq<Document>, uid: string, pod: Document, j: nat)
    requires pods != [] && OwnsAt(pods[1..], uid, pod, j)
    ensures OwnsAt(pods, uid, pod, j + 1)
  {
    assert pods[1..][j] == pods[j + 1];
  }

  lemma NoneMissedLater(pods: seq<Document>, uid: string, later: seq<nat>, js: seq<nat>)
    requires pods != [] && NoneMissed(pods[1..], uid, later)
    requires js == (if FirstOwnerIs(pods[0], uid) then [0] + Shifted(later) else Shifted(later))
    ensures NoneMissed(pods, uid, js)
  {
    var skipped := |js| - |later|;
    forall j: nat | j < |pods| && FirstOwnerIs(pods[j], uid) ensures j in js {
      if j > 0 {
        assert pods[1..][j - 1] == pods[j];
        var m :| 0 <= m < |later| && later[m] == j - 1;
        assert js[skipped + m] == Shifted(later)[m] == j;
      } else {
        assert js[0] == 0;
      }
    }
  }

  lemma OwnedFirst(pods: seq<Document>, uid: string, rest: seq<Document>, later: seq<nat>, first: Document)
    requires pods != [] && Owned(pods[1..], uid, rest, later) && OwnsAt(pods, uid, first, 0)
    requires NoneMissed(pods, uid, [0] + Shifted(later))
    ensures Owned(pods, uid, [first] + rest, [0] + Shifted(later))
  {
    RisingLater(later);
    var js, owned := [0] + Shifted(later), [first] + rest;
    forall k | 0 <= k < |owned| ensures OwnsAt(pods, uid, owned[k], js[k]) {
      if k > 0 {
        assert js[k] == later[k - 1] + 1 && owned[k] == rest[k - 1];
        OwnsLater(pods, uid, rest[k - 1], later[k - 1]);
      }
    }
  }

  lemma OwnedWithout(pods: seq<Document>, uid: string, rest: seq<Document>, later: seq<nat>)
    requires pods != [] && Owned(pods[1..], uid, rest, later)
    requires NoneMissed(pods, uid, Shifted(later))
    ensures Owned(pods, uid, rest, Shifted(later))
  {
    RisingLater(later);
    forall k | 0 <= k < |rest| ensures OwnsAt(pods, uid, rest[k], Shifted(later)[k]) {
      OwnsLater(pods, uid, rest[k], later[k]);
    }
  }

  /** The pods of a set are those whose first owner it is, in the order listed; the search panics
      exactly if some pod has an empty list of owners. */
  lemma {:induction false} PodsOwned(pods: seq<Document>, uid: string) returns (js: seq<nat>)
    ensures SiftPods(pods, uid).None? <==> exists i :: 0 <= i < |pods| && NoFirstOwner(pods[i])
    ensures SiftPods(pods, uid).Some? ==> Owned(pods, uid, SiftPods(pods, uid).value, js)
  {
    js := [];
    if pods != [] {
      OwnerIff(pods[0], uid);
      var later := PodsOwned(pods[1..], uid);
      assert forall i | 0 < i < |pods| :: pods[i] == pods[1..][i - 1];
      if NoFirstOwner(pods[0]) {
        return;
      }
      if SiftPods(pods[1..], uid).None? {
        var i :| 0 <= i < |pods[1..]| && NoFirstOwner(pods[1..][i]);
        assert NoFirstOwner(pods[i + 1]);
        return;
      }
      var rest := SiftPods(pods[1..], uid).value;
      if FirstOwnerIs(pods[0], uid) {
        js := [0] + Shifted(later);
        NoneMissedLater(pods, uid, later, js);
        OwnedFirst(pods, uid, rest, later, pods[0]);
      } else {
        js := Shifted(later);
        assert [] + rest == rest;
        NoneMissedLater(pods, uid, later, js);
        OwnedWithout(pods, uid, rest, later);
      }
    }
  }

  ghost function Flatten<T>(parts: seq<seq<T>>): seq<T> {
    if parts == [] then [] else parts[0] + Flatten(parts[1..])
  }

  /** `part` is what the pod's volumes mount, in their order. */
  ghost predicate PodLists(pod: Document, cluster: Cluster, part: seq<Document>) {
    !NoVolumeList(pod)
    && exists js :: Listed(VolumesAt(pod), GetString(pod, ["metadata", "namespace"]), cluster, part, js)
  }

  lemma OnePod(pod: Document, cluster: Cluster, part: seq<Document>)
    requires ClaimsOfPod(pod, cluster) == Claims(part)
    ensures PodLists(pod, cluster, part)
  {
    var ns := GetString(pod, ["metadata", "namespace"]);
    if Nested(pod, ["spec", "volumes"]).Missing? {
      var js: seq<nat> := [];
      assert part == [] && Listed(VolumesAt(pod), ns, cluster, part, js);
    } else {
      var js := VolumesListed(VolumesAt(pod), ns, cluster, part);
    }
  }

  /** The claims of a set, pod by pod. */
  lemma {:induction false} PodsListed(pods: seq<Document>, cluster: Cluster, list: seq<Document>)
    returns (parts: seq<seq<Document>>)
    requires ClaimsOfPods(pods, cluster) == Claims(list)
    ensures |parts| == |pods| && Flatten(parts) == list
    ensures forall i | 0 <= i < |pods| :: PodLists(pods[i], cluster, parts[i])
  {
    parts := [];
    if pods != [] {
      var first := ClaimsOfPod(pods[0], cluster).found;
      var rest := PodsListed(pods[1..], cluster, ClaimsOfPods(pods[1..], cluster).found);
      OnePod(pods[0], cluster, first);
      parts := [first] + rest;
      assert parts[1..] == rest;
      forall i | 0 <= i < |pods| ensures PodLists(pods[i], cluster, parts[i]) {
        if i > 0 {
          assert pods[i] == pods[1..][i - 1] && parts[i] == rest[i - 1];
        }
      }
    }
  }

  /** The pod has a list of volumes, or none, and all of them can be read. */
  ghost predicate PodReadable(pod: Document, cluster: Cluster) {
    && !NoVolumeList(pod)
    && forall i | 0 <= i < |VolumesAt(pod)| ::
         Readable(VolumesAt(pod)[i], GetString(pod, ["metadata", "namespace"]), cluster)
  }

  ghost predicate PodBroken(pod: Document) {
    exists i :: 0 <= i < |VolumesAt(pod)| && Broken(VolumesAt(pod)[i])
  }

  lemma PodVerdict(pod: Document, cluster: Cluster)
    ensures match ClaimsOfPod(pod, cluster)
            case Claims(_) => PodReadable(pod, cluster)
            case ClaimError => !PodReadable(pod, cluster)
            case ClaimPanic => PodBroken(pod)
  {
    if Nested(pod, ["spec", "volumes"]).Found? {
      var i := VolumesFail(VolumesAt(pod), GetString(pod, ["metadata", "namespace"]), cluster);
    }
  }

  lemma {:induction false} PodsVerdict(pods: seq<Document>, cluster: Cluster) returns (i: nat)
    ensures i <= |pods| && forall j | 0 <= j < i :: PodReadable(pods[j], cluster)
    ensures match ClaimsOfPods(pods, cluster)
            case Claims(_) => i == |pods|
            case ClaimError => i < |pods| && !PodReadable(pods[i], cluster)
            case ClaimPanic => i < |pods| && PodBroken(pods[i])
  {
    i := 0;
    if pods != [] {
      PodVerdict(pods[0], cluster);
      if ClaimsOfPod(pods[0], cluster).Claims? {
        var k := PodsVerdict(pods[1..], cluster);
        i := k + 1;
        assert forall j | 0 < j < |pods| :: pods[j] == pods[1..][j - 1];
      }
    }
  }

  // ---------------------------------------------------------------------
  // A StatefulSet
  // ---------------------------------------------------------------------

  /** The pods were listed, and every one of the set can be read and finds its claims. */
  ghost predicate SetReadable(d: Document, cluster: Cluster) {
    && cluster.pods.Some?
    && var pods, uid := cluster.pods.value, GetString(d, ["metadata", "uid"]);
       forall i | 0 <= i < |pods| && FirstOwnerIs(pods[i], uid) :: PodReadable(pods[i], cluster)
  }

  /** Something the code dereferences or indexes without a check is not there. */
  ghost predicate SetBroken(d: Document, cluster: Cluster) {
    && cluster.pods.Some?
    && var pods, uid := cluster.pods.value, GetString(d, ["metadata", "uid"]);
       exists i :: 0 <= i < |pods| && (NoFirstOwner(pods[i]) || (FirstOwnerIs(pods[i], uid) && PodBroken(pods[i])))
  }

  /** The claims of the set: its pods in the order listed, each with its mounted claims in order. */
  ghost predicate SetClaims(d: Document, cluster: Cluster, claims: seq<Document>) {
    && cluster.pods.Some?
    && exists owned, js, parts ::
         && Owned(cluster.pods.value, GetString(d, ["metadata", "uid"]), owned, js)
         && AllListedBy(owned, cluster, parts) && Flatten(parts) == claims
  }

  ghost predicate AllListedBy(pods: seq<Document>, cluster: Cluster, parts: seq<seq<Document>>) {
    |parts| == |pods| && forall i | 0 <= i < |pods| :: PodLists(pods[i], cluster, parts[i])
  }

  /** What the lookups for a StatefulSet come to. */
  lemma SetVerdict(d: Document, cluster: Cluster)
    ensures match LookupClaims(d, cluster)
            case NoAnswer => !SetReadable(d, cluster)
            case LookupPanics => SetBroken(d, cluster)
            case Dependents(headers, tree) => SetReadable(d, cluster)
  {
    if cluster.pods.Some? {
      var pods, uid := cluster.pods.value, GetString(d, ["metadata", "uid"]);
      var js := PodsOwned(pods, uid);
      if SiftPods(pods, uid).Some? {
        var owned := SiftPods(pods, uid).value;
        var i := PodsVerdict(owned, cluster);
        if i < |owned| {
          assert OwnsAt(pods, uid, owned[i], js[i]);
        } else {
          forall j: nat | j < |pods| && FirstOwnerIs(pods[j], uid) ensures PodReadable(pods[j], cluster) {
            assert j in js;
            var k :| 0 <= k < |js| && js[k] == j;
            assert OwnsAt(pods, uid, owned[k], js[k]);
          }
        }
      }
    }
  }

  /** And which claims they find. */
  lemma SetLookup(d: Document, cluster: Cluster) returns (claims: seq<Document>)
    requires LookupClaims(d, cluster).Dependents?
    ensures SetClaims(d, cluster, claims)
    ensures |LookupClaims(d, cluster).headers| == |claims|
    ensures forall i | 0 <= i < |claims| ::
              LookupClaims(d, cluster).headers[i] ==
              (GroupVersionResource(KindOf(claims[i]).group, KindOf(claims[i]).version, KindOf(claims[i]).kind), true)
    ensures claims != [] ==> LookupClaims(d, cluster).tree == claims[|claims| - 1]
  {
    var pods, uid := cluster.pods.value, GetString(d, ["metadata", "uid"]);
    var js := PodsOwned(pods, uid);
    var owned := SiftPods(pods, uid).value;
    claims := ClaimsOfPods(owned, cluster).found;
    var parts := PodsListed(owned, cluster, claims);
    assert AllListedBy(owned, cluster, parts);
  }

  // ---------------------------------------------------------------------
  // There is one such list of claims
  // ---------------------------------------------------------------------

  lemma SomeIn(a: seq<nat>)
    ensures a != [] ==> exists x: nat :: x in a
  {
    if a != [] {
      assert a[0] in a;
    }
  }

  /** Two rising sequences with the same elements are the same. */
  lemma {:induction false} RisingUnique(a: seq<nat>, b: seq<nat>)
    requires Rising(a) && Rising(b) && forall x: nat :: x in a <==> x in b
    ensures a == b
    decreases |a|
  {
    if a == [] {
      SomeIn(b);
    } else {
      var m := |a| - 1;
      assert a[m] in b;
      var n := |b| - 1;
      assert b[n] in a;
      assert a[m] == b[n];
      forall x: nat ensures x in a[..m] <==> x in b[..n] {
        assert x in a <==> x in a[..m] || x == a[m];
        assert x in b <==> x in b[..n] || x == b[n];
      }
      RisingUnique(a[..m], b[..n]);
      assert a == a[..m] + [a[m]] && b == b[..n] + [b[n]];
    }
  }

  lemma ListedAt(volumes: seq<Value>, ns: string, cluster: Cluster, list: seq<Document>, js: seq<nat>, j: nat)
    requires Listed(volumes, ns, cluster, list, js)
    ensures j in js <==> j < |volumes| && !MountsNothing(volumes[j])
  {
    if j in js {
      var k :| 0 <= k < |js| && js[k] == j;
      assert MountsClaim(volumes, ns, cluster, list[k], j);
    }
  }

  lemma ListedUnique(volumes: seq<Value>, ns: string, cluster: Cluster, a: seq<Document>, x: seq<nat>, b: seq<Document>,
      y: seq<nat>)
    requires Listed(volumes, ns, cluster, a, x) && Listed(volumes, ns, cluster, b, y)
    ensures a == b
  {
    forall j: nat ensures j in x <==> j in y {
      ListedAt(volumes, ns, cluster, a, x, j);
      ListedAt(volumes, ns, cluster, b, y, j);
    }
    RisingUnique(x, y);
    forall k | 0 <= k < |a| ensures a[k] == b[k] {
      assert MountsClaim(volumes, ns, cluster, a[k], x[k]) && MountsClaim(volumes, ns, cluster, b[k], y[k]);
    }
  }

  lemma OwnedUnique(pods: seq<Document>, uid: string, a: seq<Document>, x: seq<nat>, b: seq<Document>, y: seq<nat>)
    requires Owned(pods, uid, a, x) && Owned(pods, uid, b, y)
    ensures a == b
  {
    forall j: nat ensures j in x <==> j in y {
      OwnedAt(pods, uid, a, x, j);
      OwnedAt(pods, uid, b, y, j);
    }
    RisingUnique(x, y);
    forall k | 0 <= k < |a| ensures a[k] == b[k] {
      assert OwnsAt(pods, uid, a[k], x[k]) && OwnsAt(pods, uid, b[k], y[k]);
    }
  }

  lemma OwnedAt(pods: seq<Document>, uid: string, owned: seq<Document>, js: seq<nat>, j: nat)
    requires Owned(pods, uid, owned, js)
    ensures j in js <==> j < |pods| && FirstOwnerIs(pods[j], uid)
  {
    if j in js {
      var k :| 0 <= k < |js| && js[k] == j;
      assert OwnsAt(pods, uid, owned[k], j);
    }
  }

  lemma SetClaimsUnique(d: Document, cluster: Cluster, a: seq<Document>, b: seq<Document>)
    requires SetClaims(d, cluster, a) && SetClaims(d, cluster, b)
    ensures a == b
  {
    var pods, uid := cluster.pods.value, GetString(d, ["metadata", "uid"]);
    var p, x, m :| Owned(pods, uid, p, x) && AllListedBy(p, cluster, m) && Flatten(m) == a;
    var q, y, n :| Owned(pods, uid, q, y) && AllListedBy(q, cluster, n) && Flatten(n) == b;
    OwnedUnique(pods, uid, p, x, q, y);
    forall i | 0 <= i < |m| ensures m[i] == n[i] {
      assert PodLists(p[i], cluster, m[i]) && PodLists(p[i], cluster, n[i]);
      var ns := GetString(p[i], ["metadata", "namespace"]);
      var j :| Listed(VolumesAt(p[i]), ns, cluster, m[i], j);
      var k :| Listed(VolumesAt(p[i]), ns, cluster, n[i], k);
      ListedUnique(VolumesAt(p[i]), ns, cluster, m[i], j, n[i], k);
    }
    assert m == n;
  }
}
