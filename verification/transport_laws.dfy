/**
 What a call to the paired cluster leaves there, said in terms of locations and keys only, and what the
 log of the transport manager therefore means.
 */
module TransportLaws {
  import opened Wrappers
  import opened Json
  import opened Strconv
  import opened ApiTypes
  import opened Objects
  import opened MergePatch
  import opened KubeTransporter
  import Deleting = VariableDeleteFilter
  import opened Pipeline
  import opened PipelineSafety

  /** Where the paired cluster keeps an object. */
  ghost function Place(gvr: GroupVersionResource, d: Document): RemoteKey {
    RemoteKey(gvr, GetString(d, ["metadata", "namespace"]), GetString(d, ["metadata", "name"]))
  }

  /** The call gets through: nothing of its own fails. Only an update reads first. */
  predicate Undisturbed(action: ObjectAction, fault: Option<Fault>) {
    fault.None? || (fault == Some(ReadFails) && !action.Update?)
  }

  /** Everything but the entry for one key is as it was. */
  ghost predicate OthersKept(before: Remote, after: Remote, key: RemoteKey) {
    forall k | k != key :: (k in after <==> k in before) && (k in before ==> after[k] == before[k])
  }

  // ---------------------------------------------------------------------
  // When a call succeeds
  // ---------------------------------------------------------------------

  /** A call succeeds if and only if there are settings, nothing of its own fails, and the object is absent
      for a create and there for a delete; the other errors change nothing. */
  lemma SucceedsIff(remote: Remote, settings: Option<PairClusterSettings>, gvr: GroupVersionResource,
      action: ObjectAction, d: Document, fault: Option<Fault>)
    requires !ReadPanics(settings, action, d, fault)
    ensures var (after, err) := TransportTo(remote, settings, gvr, action, d, fault);
            && (err.None? <==>
                 && settings.Some? && Undisturbed(action, fault)
                 && (action.Create? ==> Place(gvr, d) !in remote)
                 && (action.Delete? ==> Place(gvr, d) in remote && GetString(d, ["metadata", "name"]) != ""))
            && (err == Some(AlreadyExists) <==>
                 && settings.Some?
                 && (|| fault == Some(WriteFails(AlreadyExists))
                     || (Undisturbed(action, fault) && action.Create? && Place(gvr, d) in remote)))
            && (err.Some? ==> after == remote)
            && OthersKept(remote, after, Place(gvr, d))
  {
    CreatedWithoutIdentity(gvr, d);
    assert KeyFor(gvr, d) == Place(gvr, d);
  }

  // ---------------------------------------------------------------------
  // Delete
  // ---------------------------------------------------------------------

  /** A delete that succeeds removes the object and nothing else. */
  lemma DeleteExact(remote: Remote, settings: Option<PairClusterSettings>, gvr: GroupVersionResource, d: Document,
      fault: Option<Fault>)
    requires TransportTo(remote, settings, gvr, Delete, d, fault).1.None?
    ensures var after := TransportTo(remote, settings, gvr, Delete, d, fault).0;
            && Place(gvr, d) in remote
            && after.Keys == remote.Keys - {Place(gvr, d)}
            && forall k | k in after :: after[k] == remote[k]
  {
    SucceedsIff(remote, settings, gvr, Delete, d, fault);
  }

  // ---------------------------------------------------------------------
  // Create
  // ---------------------------------------------------------------------

  /** What an object loses when it is created. */
  ghost function Shed(gvr: GroupVersionResource): seq<Path> {
    [["metadata", "resourceVersion"], ["metadata", "uid"]] +
    if gvr == PERSISTENT_VOLUME_GVR then
      [["spec", "claimRef", "resourceVersion"], ["spec", "claimRef", "uid"],
       ["metadata", "annotations", "pv.kubernetes.io/bind-completed"]]
    else if gvr == PERSISTENT_VOLUME_CLAIM_GVR then
      [["metadata", "annotations", "pv.kubernetes.io/bind-completed"],
       ["metadata", "annotations", "pv.kubernetes.io/bound-by-controller"]]
    else []
  }

  lemma RemoveTwo(a: Path, b: Path, rest: seq<Path>, d: Value)
    requires a != [] && b != [] && forall i | 0 <= i < |rest| :: rest[i] != []
    ensures forall i | 0 <= i < |[a, b] + rest| :: ([a, b] + rest)[i] != []
    ensures Deleting.RemoveAll([a, b] + rest, d) == Deleting.RemoveAll(rest, Remove(Remove(d, a), b))
  {
    assert ([a, b] + rest)[1..] == [b] + rest && ([b] + rest)[1..] == rest;
    assert Deleting.RemoveAll([b] + rest, Remove(d, a)) == Deleting.RemoveAll(rest, Remove(Remove(d, a), b));
  }

  lemma CreatingSheds(gvr: GroupVersionResource, d: Document)
    ensures forall i | 0 <= i < |Shed(gvr)| :: Shed(gvr)[i] != []
    ensures PrepareTransportWhenCreating(gvr, d) == Deleting.RemoveAll(Shed(gvr), d)
  {
    var bare := Remove(Remove(d, RESOURCE_VERSION), UID);
    if gvr == PERSISTENT_VOLUME_GVR {
      RemoveTwo(RESOURCE_VERSION, UID, [CLAIM_RESOURCE_VERSION, CLAIM_UID] + [BIND_COMPLETED], d);
      RemoveTwo(CLAIM_RESOURCE_VERSION, CLAIM_UID, [BIND_COMPLETED], bare);
      assert [BIND_COMPLETED][1..] == [];
      assert Shed(gvr) == [RESOURCE_VERSION, UID] + ([CLAIM_RESOURCE_VERSION, CLAIM_UID] + [BIND_COMPLETED]);
    } else if gvr == PERSISTENT_VOLUME_CLAIM_GVR {
      RemoveTwo(RESOURCE_VERSION, UID, [BIND_COMPLETED, BOUND_BY_CONTROLLER] + [], d);
      RemoveTwo(BIND_COMPLETED, BOUND_BY_CONTROLLER, [], bare);
      assert Shed(gvr) == [RESOURCE_VERSION, UID] + ([BIND_COMPLETED, BOUND_BY_CONTROLLER] + []);
    } else {
      RemoveTwo(RESOURCE_VERSION, UID, [], d);
    }
  }

  /** Creating an object that is not there, by a create or by an update, puts it there without the
      fields it sheds; a create of one that is there leaves it alone. */
  lemma CreateExact(remote: Remote, settings: PairClusterSettings, gvr: GroupVersionResource, action: ObjectAction,
      d: Document, fault: Option<Fault>, at: Location)
    requires !ReadPanics(Some(settings), action, d, fault) && Undisturbed(action, fault) && !action.Delete?
    requires Place(gvr, d) !in remote
    ensures var after := TransportTo(remote, Some(settings), gvr, action, d, fault).0;
            && after.Keys == remote.Keys + {Place(gvr, d)} && OthersKept(remote, after, Place(gvr, d))
            && Probe(after[Place(gvr, d)], at) == if Deleting.Covered(Shed(gvr), at) then None else Probe(d, at)
  {
    CreatedWithoutIdentity(gvr, d);
    CreatingSheds(gvr, d);
    Deleting.RemoveAllExact(Shed(gvr), d, at);
  }

  // ---------------------------------------------------------------------
  // Update
  // ---------------------------------------------------------------------

  /** A string at exactly this path; none at all if it is empty. */
  ghost function Stamp(s: string, path: Path, at: Location): Option<Shape> {
    if at == KeysOf(path) && s != "" then Some(Leaf(Str(s))) else None
  }

  /** A map, or nothing yet. */
  ghost predicate Passable(was: Option<Shape>) {
    was == None || was == Some(MapNode)
  }

  /** What stands at a location of the remote object after an update. Identity comes from the remote
      object, also that of a volume's claim, for which maps are made where nothing is in the way;
      everything else is as it was sent. */
  ghost function UpdatedAt(gvr: GroupVersionResource, d: Document, original: Document, at: Location): Option<Shape> {
    var rv, uid := ["metadata", "resourceVersion"], ["metadata", "uid"];
    var claim := [Key("spec"), Key("claimRef")];
    var claimRv, claimUid := ["spec", "claimRef", "resourceVersion"], ["spec", "claimRef", "uid"];
    if KeysOf(rv) <= at then Stamp(GetString(original, rv), rv, at)
    else if KeysOf(uid) <= at then Stamp(GetString(original, uid), uid, at)
    else if gvr != PERSISTENT_VOLUME_GVR || !Passable(Probe(d, claim[..1])) || !Passable(Probe(d, claim)) then
      OnTheWire(Probe(d, at))
    else if at == KeysOf(claimRv) then Some(Leaf(Str(GetString(original, claimRv))))
    else if at == KeysOf(claimUid) then Some(Leaf(Str(GetString(original, claimUid))))
    else if KeysOf(claimRv) <= at || KeysOf(claimUid) <= at then None
    else if at == claim[..1] || at == claim then Some(MapNode)
    else OnTheWire(Probe(d, at))
  }

  lemma NamedHasMetadata(d: Document)
    requires GetString(d, ["metadata", "name"]) != ""
    ensures HasMetadata(d)
  {
    var path := ["metadata", "name"];
    assert path[1..] == ["name"];
    assert Nested(d, path) == if "metadata" in d.fields then Nested(d.fields["metadata"], path[1..]) else Missing;
  }

  lemma OnTheWayTwo(a: string, b: string, at: Location)
    ensures KeysOf([a, b]) == [Key(a), Key(b)]
    ensures OnTheWay([a, b], at) <==> at == [] || at == [Key(a)]
  {
    var keys := KeysOf([a, b]);
    assert keys == [Key(a), Key(b)];
    if at < keys {
      assert at == keys[..|at|];
    }
  }

  lemma MetadataStamped(v: Document, s: string, field: string, at: Location)
    requires HasMetadata(v)
    ensures var path := ["metadata", field];
            var r := SetOrRemove(v, s, path);
            && HasMetadata(r)
            && Probe(r, at) == if KeysOf(path) <= at then Stamp(s, path, at) else Probe(v, at)
  {
    var path := ["metadata", field];
    assert path[1..] == [field];
    StampMetadata(v, s, field);
    OnTheWayTwo("metadata", field, at);
    if s == "" {
      Deleting.RemoveExact(v, path, at);
    } else {
      SetExact(v, Str(s), path, at);
      assert Open(v, path) <==> Open(v.fields["metadata"], path[1..]);
      assert Probe(v, [Key("metadata")]) == Some(MapNode);
    }
  }

  lemma OpenIsProbed(v: Document, a: string, b: string, c: string)
    ensures Open(v, [a, b, c]) <==> Passable(Probe(v, [Key(a)])) && Passable(Probe(v, [Key(a), Key(b)]))
  {
    assert [a, b, c][1..] == [b, c] && [b, c][1..] == [c];
    assert [Key(a), Key(b)][1..] == [Key(b)] && [Key(b)][1..] == [] && [Key(a)][1..] == [];
    if a in v.fields {
      var x := v.fields[a];
      assert Probe(v, [Key(a)]) == Some(ShapeOf(x));
      assert Probe(v, [Key(a), Key(b)]) == Probe(x, [Key(b)]);
      assert Open(v, [a, b, c]) <==> Open(x, [b, c]);
      if x.Obj? && b in x.fields {
        assert Probe(x, [Key(b)]) == Some(ShapeOf(x.fields[b]));
        assert Open(x, [b, c]) <==> Open(x.fields[b], [c]);
      }
    }
  }

  lemma OnTheWayThree(a: string, b: string, c: string, at: Location)
    ensures KeysOf([a, b, c]) == [Key(a), Key(b), Key(c)]
    ensures OnTheWay([a, b, c], at) <==> at == [] || at == [Key(a)] || at == [Key(a), Key(b)]
  {
    var keys := KeysOf([a, b, c]);
    assert keys == [Key(a), Key(b), Key(c)];
    if at < keys {
      assert at == keys[..|at|];
    }
  }

  /** Two strings side by side below one claim. */
  lemma ClaimStamped(v: Document, x: string, y: string, at: Location)
    ensures var claim := [Key("spec"), Key("claimRef")];
            var rv, uid := ["spec", "claimRef", "resourceVersion"], ["spec", "claimRef", "uid"];
            Probe(SetNested(SetNested(v, Str(x), rv), Str(y), uid), at) ==
            if !Passable(Probe(v, claim[..1])) || !Passable(Probe(v, claim)) then Probe(v, at)
            else if at == KeysOf(rv) then Some(Leaf(Str(x)))
            else if at == KeysOf(uid) then Some(Leaf(Str(y)))
            else if KeysOf(rv) <= at || KeysOf(uid) <= at then None
            else if at == claim[..1] || at == claim then Some(MapNode)
            else Probe(v, at)
  {
    var claim := [Key("spec"), Key("claimRef")];
    var rv, uid := ["spec", "claimRef", "resourceVersion"], ["spec", "claimRef", "uid"];
    var one := SetNested(v, Str(x), rv);
    assert claim[..1] == [Key("spec")];
    OpenIsProbed(v, "spec", "claimRef", "resourceVersion");
    OpenIsProbed(one, "spec", "claimRef", "uid");
    OnTheWayThree("spec", "claimRef", "resourceVersion", at);
    OnTheWayThree("spec", "claimRef", "uid", at);
    OnTheWayThree("spec", "claimRef", "resourceVersion", claim);
    OnTheWayThree("spec", "claimRef", "resourceVersion", claim[..1]);
    SetExact(v, Str(x), rv, at);
    SetExact(v, Str(x), rv, claim);
    SetExact(v, Str(x), rv, claim[..1]);
    SetExact(one, Str(y), uid, at);
  }

  /** Resource version and uid. */
  lemma IdentityStamped(d: Document, rv: string, uid: string, at: Location)
    requires HasMetadata(d)
    ensures Probe(SetOrRemove(SetOrRemove(d, rv, RESOURCE_VERSION), uid, UID), at) ==
            if KeysOf(RESOURCE_VERSION) <= at then Stamp(rv, RESOURCE_VERSION, at)
            else if KeysOf(UID) <= at then Stamp(uid, UID, at) else Probe(d, at)
  {
    MetadataStamped(d, rv, "resourceVersion", at);
    MetadataStamped(SetOrRemove(d, rv, RESOURCE_VERSION), uid, "uid", at);
    OnTheWayTwo("metadata", "resourceVersion", at);
    OnTheWayTwo("metadata", "uid", at);
  }

  lemma PreparedExact(gvr: GroupVersionResource, d: Document, original: Document, at: Location)
    requires HasMetadata(d)
    ensures OnTheWire(Probe(PrepareTransportWhenUpdating(gvr, d, original), at)) == UpdatedAt(gvr, d, original, at)
  {
    var rv, uid := GetResourceVersion(original), GetUID(original);
    var stamped := SetOrRemove(SetOrRemove(d, rv, RESOURCE_VERSION), uid, UID);
    OnTheWayTwo("metadata", "resourceVersion", at);
    OnTheWayTwo("metadata", "uid", at);
    IdentityStamped(d, rv, uid, at);
    if gvr == PERSISTENT_VOLUME_GVR {
      var claimRv, claimUid := GetString(original, CLAIM_RESOURCE_VERSION), GetString(original, CLAIM_UID);
      VolumeStamped(d, stamped, rv, uid, claimRv, claimUid, at);
    }
  }

  lemma VolumeStamped(d: Document, stamped: Document, rv: string, uid: string, claimRv: string, claimUid: string,
      at: Location)
    requires HasMetadata(d) && stamped == SetOrRemove(SetOrRemove(d, rv, RESOURCE_VERSION), uid, UID)
    ensures var claim := [Key("spec"), Key("claimRef")];
            Probe(SetNested(SetNested(stamped, Str(claimRv), CLAIM_RESOURCE_VERSION), Str(claimUid), CLAIM_UID), at) ==
            if KeysOf(RESOURCE_VERSION) <= at then Stamp(rv, RESOURCE_VERSION, at)
            else if KeysOf(UID) <= at then Stamp(uid, UID, at)
            else if !Passable(Probe(d, claim[..1])) || !Passable(Probe(d, claim)) then Probe(d, at)
            else if at == KeysOf(CLAIM_RESOURCE_VERSION) then Some(Leaf(Str(claimRv)))
            else if at == KeysOf(CLAIM_UID) then Some(Leaf(Str(claimUid)))
            else if KeysOf(CLAIM_RESOURCE_VERSION) <= at || KeysOf(CLAIM_UID) <= at then None
            else if at == claim[..1] || at == claim then Some(MapNode)
            else Probe(d, at)
  {
    var claim := [Key("spec"), Key("claimRef")];
    assert claim[..1] == [Key("spec")];
    OnTheWayTwo("metadata", "resourceVersion", at);
    OnTheWayTwo("metadata", "uid", at);
    OnTheWayThree("spec", "claimRef", "resourceVersion", at);
    OnTheWayThree("spec", "claimRef", "uid", at);
    IdentityStamped(d, rv, uid, at);
    IdentityStamped(d, rv, uid, claim);
    IdentityStamped(d, rv, uid, claim[..1]);
    ClaimStamped(stamped, claimRv, claimUid, at);
  }

  /** An update of an object that is there leaves it, location by location, as it was sent, but for its
      identity, and nothing else changes; when neither has a null member. */
  lemma UpdateExact(remote: Remote, settings: PairClusterSettings, gvr: GroupVersionResource, d: Document,
      at: Location)
    requires Place(gvr, d) in remote && GetString(d, ["metadata", "name"]) != ""
    requires NoNullMembers(d) && NoNullMembers(remote[Place(gvr, d)])
    ensures var (after, err) := TransportTo(remote, Some(settings), gvr, Update, d, None);
            && err.None? && after.Keys == remote.Keys && OthersKept(remote, after, Place(gvr, d))
            && Probe(after[Place(gvr, d)], at) == UpdatedAt(gvr, d, remote[Place(gvr, d)], at)
  {
    var original := remote[Place(gvr, d)];
    NamedHasMetadata(d);
    UpdateMakesRemoteEqual(remote, settings, gvr, d);
    PreparedExact(gvr, d, original, at);
    WireExact(PrepareTransportWhenUpdating(gvr, d, original), at);
  }

  // ---------------------------------------------------------------------
  // What the log means
  // ---------------------------------------------------------------------

  /** A version at or above the object's is recorded. */
  ghost predicate Stale(s: State, d: Document) {
    var u := GetString(d, ["metadata", "uid"]);
    u in s.versions && Atoi(GetString(d, ["metadata", "resourceVersion"])).0 <= Atoi(s.versions[u]).0
  }

  /** A stale object is dropped: nothing is sent, recorded or tried again. */
  lemma StaleIsDropped(s: State, fault: Option<Fault>)
    requires Enabled(s, TransportRuns(fault)) && Stale(s, s.heap.Tree(s.transportQueue.queue[0]))
    ensures var ref := s.transportQueue.queue[0];
            var t := Step(s, TransportRuns(fault));
            && t.remote == s.remote && t.versions == s.versions && t.successes == s.successes
            && t.transportQueue.waiting == s.transportQueue.waiting && ref in t.settled
  {
  }

  /** Any other one is sent. If the call fails, the object waits for another try and nothing is recorded;
      otherwise its version is, and whether it was written or the cluster said it was there. */
  lemma OthersAreSent(s: State, fault: Option<Fault>)
    requires Enabled(s, TransportRuns(fault)) && !Stale(s, s.heap.Tree(s.transportQueue.queue[0]))
    ensures !ReadPanics(s.settings, s.heap.objs[s.transportQueue.queue[0]].action,
                        s.heap.Tree(s.transportQueue.queue[0]), fault)
    ensures var ref := s.transportQueue.queue[0];
            var o, d := s.heap.objs[ref], s.heap.Tree(ref);
            var u, v := GetString(d, ["metadata", "uid"]), GetString(d, ["metadata", "resourceVersion"]);
            var (after, err) := TransportTo(s.remote, s.settings, o.gvr, o.action, d, fault);
            var t := Step(s, TransportRuns(fault));
            && t.remote == after
            && t.versions == (if err == Some(OtherError) then s.versions else s.versions[u := v])
            && t.settled == (if err == Some(OtherError) then s.settled else s.settled[ref := (u, v)])
            && t.successes == s.successes +
                 (if err == Some(OtherError) then [] else [Success(ref, u, v, o.action, err.None?)])
            && t.transportQueue.waiting == s.transportQueue.waiting + (if err == Some(OtherError) then {ref} else {})
  {
    var ref := s.transportQueue.queue[0];
    var taken := s.(transportQueue := s.transportQueue.Get());
    assert !SendPanics(s, ref, fault) && !SendPanics(taken, ref, fault);
    NewIsSent(taken, ref, fault);
  }

  lemma NewIsSent(s: State, ref: Ref, fault: Option<Fault>)
    requires ValidRef(s, ref) && !Stale(s, s.heap.Tree(ref)) && !SendPanics(s, ref, fault)
    ensures !ReadPanics(s.settings, s.heap.objs[ref].action, s.heap.Tree(ref), fault)
    ensures var o, d := s.heap.objs[ref], s.heap.Tree(ref);
            var u, v := GetUID(d), GetResourceVersion(d);
            var (after, err) := TransportTo(s.remote, s.settings, o.gvr, o.action, d, fault);
            Send(s, ref, fault) ==
            if err == Some(OtherError) then
              s.(remote := after, transportQueue := s.transportQueue.AddRateLimited(ref))
            else
              s.(remote := after, versions := s.versions[u := v], settled := s.settled[ref := (u, v)],
                 successes := s.successes + [Success(ref, u, v, o.action, err.None?)])
  {
  }

  /** An iteration ends the process if and only if an update that is not stale gets as far as its read, and
      the read fails; the read of an object without a name always does. */
  lemma SendReturnsIff(s: State, fault: Option<Fault>)
    requires s.heap.Valid() && s.transportQueue.queue != [] && s.transportQueue.queue[0] < |s.heap.objs|
    ensures var ref := s.transportQueue.queue[0];
            var d := s.heap.Tree(ref);
            Enabled(s, TransportRuns(fault)) <==>
              || Stale(s, d) || !s.heap.objs[ref].action.Update? || s.settings.None? || fault == Some(ClientFails)
              || (fault != Some(ReadFails) && GetString(d, ["metadata", "name"]) != "")
  {
  }

  /** What a new record says about the paired cluster: a written delete has taken the object away, a
      written create or update has put it there, and one that was not written found it there or was
      told so. */
  lemma RecordedMeans(s: State, e: Event) returns (n: Success)
    requires Enabled(s, e) && Step(s, e).successes != s.successes
    ensures e.TransportRuns? && s.transportQueue.queue != [] && Step(s, e).successes == s.successes + [n]
    ensures n.ref == s.transportQueue.queue[0] && n.ref < |s.heap.objs|
    ensures var o, place := s.heap.objs[n.ref], Place(s.heap.objs[n.ref].gvr, s.heap.Tree(n.ref));
            var t := Step(s, e);
            && n.action == o.action && OthersKept(s.remote, t.remote, place)
            && (n.wrote && n.action.Delete? ==> place in s.remote && place !in t.remote)
            && (n.wrote && !n.action.Delete? ==> place in t.remote)
            && (!n.wrote ==>
                 && t.remote == s.remote
                 && (e.fault == Some(WriteFails(AlreadyExists)) || (n.action.Create? && place in s.remote)))
  {
    if e.WorkerRuns? {
      WorkerLeavesTransport(s, e.cluster, e.orders);
    }
    var ref := s.transportQueue.queue[0];
    var o, d := s.heap.objs[ref], s.heap.Tree(ref);
    if Stale(s, d) {
      StaleIsDropped(s, e.fault);
    }
    OthersAreSent(s, e.fault);
    SucceedsIff(s.remote, s.settings, o.gvr, o.action, d, e.fault);
    var err := TransportTo(s.remote, s.settings, o.gvr, o.action, d, e.fault).1;
    n := Success(ref, GetUID(d), GetResourceVersion(d), o.action, err.None?);
    assert err != Some(OtherError);
    match err {
      case None => WrittenKeys(s.remote, s.settings, o.gvr, o.action, d, e.fault);
      case Some(error) => assert error.AlreadyExists? || error.OtherError?;
    }
  }

  lemma WrittenKeys(remote: Remote, settings: Option<PairClusterSettings>, gvr: GroupVersionResource,
      action: ObjectAction, d: Document, fault: Option<Fault>)
    requires !ReadPanics(settings, action, d, fault) && TransportTo(remote, settings, gvr, action, d, fault).1.None?
    ensures var after := TransportTo(remote, settings, gvr, action, d, fault).0;
            Place(gvr, d) in after <==> !action.Delete?
  {
    CreatedWithoutIdentity(gvr, d);
    assert KeyFor(gvr, d) == Place(gvr, d);
  }
}
