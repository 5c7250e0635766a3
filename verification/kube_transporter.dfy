/**
 `pkg/transportmanager/kubeapiserver/transporter.go` over an abstract remote cluster: a
 store of objects by resource, namespace and name. A call that fails has no effect on the store.
 */
module KubeTransporter {
  import opened Wrappers
  import opened Json
  import opened ApiTypes
  import opened MergePatch

  datatype PairClusterSettings = PairClusterSettings(host: string, certData: string, keyData: string, qps: int,
      burst: int)

  datatype RemoteKey = RemoteKey(gvr: GroupVersionResource, ns: string, name: string)
  type Remote = map<RemoteKey, Document>

  /** What the transport manager can tell about an error: whether its text says "already exists". */
  datatype TransportError = AlreadyExists | OtherError

  /** Where a call fails for reasons of its own: building the client, reading the remote object
      before an update, or the write itself. */
  datatype Fault = ClientFails | ReadFails | WriteFails(error: TransportError)

  const CLAIM_RESOURCE_VERSION: Path := ["spec", "claimRef", "resourceVersion"]
  const CLAIM_UID: Path := ["spec", "claimRef", "uid"]
  const BIND_COMPLETED: Path := ["metadata", "annotations", "pv.kubernetes.io/bind-completed"]
  const BOUND_BY_CONTROLLER: Path := ["metadata", "annotations", "pv.kubernetes.io/bound-by-controller"]

  function PrepareTransportWhenCreating(gvr: GroupVersionResource, d: Document): Document {
    var bare := Remove(Remove(d, RESOURCE_VERSION), UID);
    if gvr == PERSISTENT_VOLUME_GVR then
      Remove(Remove(Remove(bare, CLAIM_RESOURCE_VERSION), CLAIM_UID), BIND_COMPLETED)
    else if gvr == PERSISTENT_VOLUME_CLAIM_GVR then
      Remove(Remove(bare, BIND_COMPLETED), BOUND_BY_CONTROLLER)
    else bare
  }

  /** `SetUID` and `SetResourceVersion`: an empty string removes the field. */
  function SetOrRemove(d: Document, s: string, path: Path): Document
    requires path != []
  {
    if s == "" then Remove(d, path) else SetNested(d, Str(s), path)
  }

  function PrepareTransportWhenUpdating(gvr: GroupVersionResource, d: Document, original: Document): Document {
    var stamped := SetOrRemove(SetOrRemove(d, GetResourceVersion(original), RESOURCE_VERSION), GetUID(original), UID);
    if gvr == PERSISTENT_VOLUME_GVR then
      SetNested(SetNested(stamped, Str(GetString(original, CLAIM_RESOURCE_VERSION)), CLAIM_RESOURCE_VERSION),
                Str(GetString(original, CLAIM_UID)), CLAIM_UID)
    else stamped
  }

  function KeyFor(gvr: GroupVersionResource, d: Document): RemoteKey {
    RemoteKey(gvr, GetNamespace(d), GetName(d))
  }

  function CreateRemote(remote: Remote, gvr: GroupVersionResource, d: Document): (Remote, Option<TransportError>) {
    var prepared := PrepareTransportWhenCreating(gvr, d);
    if KeyFor(gvr, prepared) in remote then (remote, Some(AlreadyExists))
    else (remote[KeyFor(gvr, prepared) := prepared], None)
  }

  /** The patch an update sends for an object that exists remotely. */
  function UpdatePatch(gvr: GroupVersionResource, d: Document, original: Document): Document {
    Diff(Wire(original), Wire(PrepareTransportWhenUpdating(gvr, d, original)))
  }

  /** An update goes on when its read failed, with no object to take the identity from, and
      dereferences a nil pointer. A read of an object without a name always fails. */
  predicate ReadPanics(settings: Option<PairClusterSettings>, action: ObjectAction, d: Document, fault: Option<Fault>) {
    settings.Some? && action.Update? && fault != Some(ClientFails) && (fault == Some(ReadFails) || GetName(d) == "")
  }

  /** `Transport`, when it returns. */
  function TransportTo(
    remote: Remote, settings: Option<PairClusterSettings>, gvr: GroupVersionResource, action: ObjectAction,
    d: Document, fault: Option<Fault>): (Remote, Option<TransportError>)
    requires !ReadPanics(settings, action, d, fault)
  {
    if settings.None? || fault == Some(ClientFails) then (remote, Some(OtherError))
    else if fault.Some? && fault.value.WriteFails? then (remote, Some(fault.value.error))
    else match action
      case Create => CreateRemote(remote, gvr, d)
      case Update =>
        if KeyFor(gvr, d) !in remote then CreateRemote(remote, gvr, d)
        else
          var original := remote[KeyFor(gvr, d)];
          (remote[KeyFor(gvr, d) := Apply(Wire(original), UpdatePatch(gvr, d, original))], None)
      case Delete =>
        if GetName(d) != "" && KeyFor(gvr, d) in remote then (remote - {KeyFor(gvr, d)}, None)
          else (remote, Some(OtherError))
  }

  class RemoteCluster {
    var objects: Remote

    constructor ()
      ensures objects == map[]
    {
      objects := map[];
    }
  }

  class KubeApiserverTransporter {
    var PairClusterSettings: Option<PairClusterSettings>
    const remote: RemoteCluster

    constructor (remote: RemoteCluster)
      ensures PairClusterSettings == None && this.remote == remote
    {
      PairClusterSettings := None;
      this.remote := remote;
    }

    method SetConfig(cConfigs: PairClusterSettings)
      modifies this
      ensures PairClusterSettings == Some(cConfigs)
    {
      PairClusterSettings := Some(cConfigs);
    }

    method Transport(gvr: GroupVersionResource, action: ObjectAction, obj: Document, fault: Option<Fault>)
      returns (panicked: bool, err: Option<TransportError>)
      modifies remote
      ensures panicked <==> ReadPanics(PairClusterSettings, action, obj, fault)
      ensures !panicked ==>
                (remote.objects, err) == TransportTo(old(remote.objects), PairClusterSettings, gvr, action, obj, fault)
      ensures panicked || err.Some? ==> remote.objects == old(remote.objects)
      ensures !panicked && err.None? && action.Delete? ==>
                remote.objects == old(remote.objects) - {KeyFor(gvr, obj)} != old(remote.objects)
    {
      panicked := false;
      if PairClusterSettings.None? || fault == Some(ClientFails) {
        return false, Some(OtherError);
      }
      if action.Update? && (fault == Some(ReadFails) || GetName(obj) == "") {
        return true, None;
      }
      if fault.Some? && fault.value.WriteFails? {
        return false, Some(fault.value.error);
      }
      var key := KeyFor(gvr, obj);
      if action.Create? || (action.Update? && key !in remote.objects) {
        var prepared := PrepareTransportWhenCreating(gvr, obj);
        if KeyFor(gvr, prepared) in remote.objects {
          return false, Some(AlreadyExists);
        }
        remote.objects := remote.objects[KeyFor(gvr, prepared) := prepared];
        return false, None;
      }
      if action.Update? {
        var original := remote.objects[key];
        var patch := UpdatePatch(gvr, obj, original);
        remote.objects := remote.objects[key := Apply(Wire(original), patch)];
        return false, None;
      }
      if GetName(obj) == "" || key !in remote.objects {
        return false, Some(OtherError);
      }
      remote.objects := remote.objects - {key};
      return false, None;
    }
  }

  // ---------------------------------------------------------------------
  // What an update does to the remote object
  // ---------------------------------------------------------------------

  lemma StampKeepsNoNull(d: Document, s: string, path: Path)
    requires path != [] && NoNullMembers(d)
    ensures NoNullMembers(SetOrRemove(d, s, path))
  {
    SetKeepsNoNull(d, s, path);
    RemoveKeepsNoNull(d, path);
  }

  lemma PreparedHasNoNull(gvr: GroupVersionResource, d: Document, original: Document)
    requires NoNullMembers(d)
    ensures NoNullMembers(PrepareTransportWhenUpdating(gvr, d, original))
  {
    StampKeepsNoNull(d, GetResourceVersion(original), RESOURCE_VERSION);
    var first := SetOrRemove(d, GetResourceVersion(original), RESOURCE_VERSION);
    StampKeepsNoNull(first, GetUID(original), UID);
    var stamped := SetOrRemove(first, GetUID(original), UID);
    SetKeepsNoNull(stamped, GetString(original, CLAIM_RESOURCE_VERSION), CLAIM_RESOURCE_VERSION);
    var claimed := SetNested(stamped, Str(GetString(original, CLAIM_RESOURCE_VERSION)), CLAIM_RESOURCE_VERSION);
    SetKeepsNoNull(claimed, GetString(original, CLAIM_UID), CLAIM_UID);
  }

  /** An update makes the remote object equal to the prepared one and touches nothing else, when
      neither the object nor its remote counterpart has a null member. */
  lemma UpdateMakesRemoteEqual(remote: Remote, settings: PairClusterSettings, gvr: GroupVersionResource, d: Document)
    requires KeyFor(gvr, d) in remote && GetName(d) != "" && NoNullMembers(d) && NoNullMembers(remote[KeyFor(gvr, d)])
    ensures var (after, err) := TransportTo(remote, Some(settings), gvr, Update, d, None);
            && err.None? && after.Keys == remote.Keys
            && after[KeyFor(gvr, d)] == Wire(PrepareTransportWhenUpdating(gvr, d, remote[KeyFor(gvr, d)]))
            && forall k | k in remote && k != KeyFor(gvr, d) :: after[k] == remote[k]
  {
    var original := remote[KeyFor(gvr, d)];
    var prepared := PrepareTransportWhenUpdating(gvr, d, original);
    PreparedHasNoNull(gvr, d, original);
    WireKeepsNoNull(original);
    WireKeepsNoNull(prepared);
    PatchReachesModified(Wire(original), Wire(prepared));
  }

  /** The patch says something about `metadata.<field>`. */
  ghost predicate Mentions(patch: Document, field: string) {
    "metadata" in patch.fields &&
    (patch.fields["metadata"].Obj? ==> field in patch.fields["metadata"].fields)
  }

  ghost predicate HasMetadata(d: Document) {
    "metadata" in d.fields && d.fields["metadata"].Obj?
  }

  ghost function MetadataOf(d: Document): map<string, Value>
    requires HasMetadata(d)
  {
    d.fields["metadata"].fields
  }

  /** The member is not there, or is the non-empty string an API server puts there. */
  ghost predicate PlainString(m: map<string, Value>, field: string) {
    field in m ==> m[field].Str? && m[field].s != ""
  }

  lemma MetadataString(d: Document, field: string)
    requires HasMetadata(d)
    ensures GetString(d, ["metadata", field]) ==
            if field in MetadataOf(d) && MetadataOf(d)[field].Str? then MetadataOf(d)[field].s else ""
  {
    var path := ["metadata", field];
    assert path[1..] == [field] && path[1..][1..] == [];
    assert Nested(d, path) == Nested(d.fields["metadata"], path[1..]);
    assert Nested(d.fields["metadata"], path[1..]) ==
           if field in MetadataOf(d) then Nested(MetadataOf(d)[field], path[1..][1..]) else Missing;
  }

  lemma StampMetadata(d: Document, s: string, field: string)
    requires HasMetadata(d)
    ensures var r := SetOrRemove(d, s, ["metadata", field]);
            HasMetadata(r) &&
            MetadataOf(r) == if s == "" then MetadataOf(d) - {field} else MetadataOf(d)[field := Str(s)]
  {
    var path := ["metadata", field];
    assert path[1..] == [field];
    assert SetNested(d.fields["metadata"], Str(s), path[1..]) == Obj(MetadataOf(d)[field := Str(s)]);
    assert Remove(d.fields["metadata"], path[1..]) == Obj(MetadataOf(d) - {field});
  }

  lemma OutsideMetadata(d: Document, x: Value, path: Path)
    requires path != [] && path[0] != "metadata" && HasMetadata(d)
    ensures HasMetadata(SetNested(d, x, path)) && MetadataOf(SetNested(d, x, path)) == MetadataOf(d)
  {
  }

  lemma PreparedMetadata(gvr: GroupVersionResource, d: Document, original: Document, f: string)
    requires HasMetadata(d) && HasMetadata(original) && f in {"uid", "resourceVersion"}
    ensures var p := PrepareTransportWhenUpdating(gvr, d, original);
            && HasMetadata(p)
            && if GetString(original, ["metadata", f]) == "" then f !in MetadataOf(p)
               else f in MetadataOf(p) && MetadataOf(p)[f] == Str(GetString(original, ["metadata", f]))
  {
    var rv, uid := GetResourceVersion(original), GetUID(original);
    StampMetadata(d, rv, "resourceVersion");
    var first := SetOrRemove(d, rv, RESOURCE_VERSION);
    StampMetadata(first, uid, "uid");
    var stamped := SetOrRemove(first, uid, UID);
    OutsideMetadata(stamped, Str(GetString(original, CLAIM_RESOURCE_VERSION)), CLAIM_RESOURCE_VERSION);
    var claimed := SetNested(stamped, Str(GetString(original, CLAIM_RESOURCE_VERSION)), CLAIM_RESOURCE_VERSION);
    OutsideMetadata(claimed, Str(GetString(original, CLAIM_UID)), CLAIM_UID);
  }

  /** The update patch never mentions uid or resourceVersion, exactly when the remote object
      carries them as plain strings or not at all. */
  lemma PatchSparesIdentity(gvr: GroupVersionResource, d: Document, original: Document, field: string)
    requires HasMetadata(d) && HasMetadata(original)
    requires field in {"uid", "resourceVersion"}
    ensures !Mentions(UpdatePatch(gvr, d, original), field) <==> PlainString(MetadataOf(original), field)
  {
    var prepared := PrepareTransportWhenUpdating(gvr, d, original);
    PreparedMetadata(gvr, d, original, field);
    MetadataString(original, field);
    var a, b := Wire(original), Wire(prepared);
    var am, bm := a.fields["metadata"], b.fields["metadata"];
    assert am == Wire(original.fields["metadata"]) && bm == Wire(prepared.fields["metadata"]);
    assert DiffEntry(a, b, "metadata") == (if Diff(am, bm).fields == map[] then None else Some(Diff(am, bm)));
    if field in MetadataOf(original) {
      var was := MetadataOf(original)[field];
      if was.Str? && was.s != "" {
        WireMember(original.fields["metadata"], field);
        WireMember(prepared.fields["metadata"], field);
        assert am.fields[field] == Str(was.s) == bm.fields[field];
        assert DiffEntry(am, bm, field).None?;
      } else {
        assert DiffEntry(am, bm, field) == Some(Null);
        assert field in Diff(am, bm).fields;
      }
    }
  }

  /** What is removed after uid and resourceVersion lies deeper than any of these strings. */
  lemma PreparedKeeps(gvr: GroupVersionResource, d: Document, name: Path)
    requires |name| == 2
    ensures GetString(PrepareTransportWhenCreating(gvr, d), name) ==
            GetString(Remove(Remove(d, RESOURCE_VERSION), UID), name)
  {
    var bare := Remove(Remove(d, RESOURCE_VERSION), UID);
    if gvr == PERSISTENT_VOLUME_GVR {
      var first := Remove(bare, CLAIM_RESOURCE_VERSION);
      StringUntouched(bare, CLAIM_RESOURCE_VERSION, name);
      StringUntouched(first, CLAIM_UID, name);
      StringUntouched(Remove(first, CLAIM_UID), BIND_COMPLETED, name);
    } else if gvr == PERSISTENT_VOLUME_CLAIM_GVR {
      StringUntouched(bare, BIND_COMPLETED, name);
      StringUntouched(Remove(bare, BIND_COMPLETED), BOUND_BY_CONTROLLER, name);
    }
  }

  lemma BareKeeps(d: Document, name: Path)
    requires |name| == 2 && name[1] != "uid" && name[1] != "resourceVersion"
    ensures GetString(Remove(Remove(d, RESOURCE_VERSION), UID), name) == GetString(d, name)
  {
    assert RESOURCE_VERSION[1] == "resourceVersion" && UID[1] == "uid";
    StringUntouched(d, RESOURCE_VERSION, name);
    StringUntouched(Remove(d, RESOURCE_VERSION), UID, name);
  }

  /** Nothing created remotely carries the identity of the source cluster. */
  lemma CreatedWithoutIdentity(gvr: GroupVersionResource, d: Document)
    ensures GetUID(PrepareTransportWhenCreating(gvr, d)) == ""
    ensures GetResourceVersion(PrepareTransportWhenCreating(gvr, d)) == ""
    ensures KeyFor(gvr, PrepareTransportWhenCreating(gvr, d)) == KeyFor(gvr, d)
  {
    var rv := Remove(d, RESOURCE_VERSION);
    StringRemoved(rv, UID);
    PreparedKeeps(gvr, d, UID);
    StringRemoved(d, RESOURCE_VERSION);
    assert RESOURCE_VERSION[1] != UID[1];
    StringUntouched(rv, UID, RESOURCE_VERSION);
    PreparedKeeps(gvr, d, RESOURCE_VERSION);
    BareKeeps(d, NAME);
    PreparedKeeps(gvr, d, NAME);
    BareKeeps(d, NAMESPACE);
    PreparedKeeps(gvr, d, NAMESPACE);
  }
}
