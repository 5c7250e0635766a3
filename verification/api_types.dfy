/** The API types of `pkg/apis/dr/v1alpha1`, and what is read off an object to match rules. */
module ApiTypes {
  import opened Wrappers
  import opened Json

  datatype GroupVersionKind = GroupVersionKind(group: string, version: string, kind: string)
  datatype GroupVersionResource = GroupVersionResource(group: string, version: string, resource: string)
  datatype ObjectKey = ObjectKey(ns: string, name: string)

  const PERSISTENT_VOLUME_GVR := GroupVersionResource("", "v1", "persistentvolumes")
  const PERSISTENT_VOLUME_CLAIM_GVR := GroupVersionResource("", "v1", "persistentvolumeclaims")
  const STATEFUL_SET_GVR := GroupVersionResource("apps", "v1", "statefulsets")

  /** The namespace that stands for cluster-scoped objects. */
  const CLUSTER_RESOURCE_DELEGATOR := "kube-system"

  datatype ObjectAction = Create | Update | Delete

  datatype VariableType = StrVar | BoolVar | IntVar | FloatVar | UnsupportedVar

  /** `floatValue` is what `strconv.ParseFloat` makes of `toSubStr`; None is a parse error. */
  datatype VariableMapping = VariableMapping(
    fromSubStr: string, toSubStr: string, variableType: VariableType, floatValue: Option<real>)

  /** A nil `Kind` or `Object` pointer (`target`) is None. */
  datatype VariableMappings = VariableMappings(
    kind: Option<GroupVersionKind>, keyValueMappings: map<string, VariableMapping>)

  datatype VariableDelete = VariableDelete(
    target: Option<ObjectKey>, kind: Option<GroupVersionKind>, keyValueDelete: seq<string>)

  datatype VariableDeleteFilterConfig = VariableDeleteFilterConfig(
    objectDeleteList: seq<VariableDelete>, kindDeleteList: seq<VariableDelete>)

  datatype VariableMappingFilterConfig = VariableMappingFilterConfig(
    kindVariableMappings: seq<VariableMappings>)

  datatype WhiteListFilterConfig = WhiteListFilterConfig(
    objectWhiteList: seq<ObjectKey>, kindWhiteList: seq<GroupVersionKind>)

  datatype DRFilterConfig = DRFilterConfig(
    variableDeleteFilter: Option<VariableDeleteFilterConfig>,
    variableMappingFilter: Option<VariableMappingFilterConfig>,
    whiteListFilter: Option<WhiteListFilterConfig>)

  function IndexOfSlash(s: string): (r: nat)
    ensures r <= |s|
    ensures r < |s| ==> s[r] == '/'
  {
    if s == "" || s[0] == '/' then 0 else 1 + IndexOfSlash(s[1..])
  }

  /** `schema.ParseGroupVersion`; None when there is more than one slash. */
  function ParseGroupVersion(s: string): Option<(string, string)> {
    if s == "" || s == "/" then Some(("", ""))
    else
      var i := IndexOfSlash(s);
      if i == |s| then Some(("", s))
      else if IndexOfSlash(s[i + 1..]) == |s[i + 1..]| then Some((s[..i], s[i + 1..]))
      else None
  }

  /** `schema.FromAPIVersionAndKind` as `Unstructured.GroupVersionKind` uses it. */
  function MakeKind(apiVersion: string, kind: string): GroupVersionKind {
    match ParseGroupVersion(apiVersion)
    case None => GroupVersionKind("", "", "")
    case Some((group, version)) => GroupVersionKind(group, version, kind)
  }

  function KindOf(d: Value): GroupVersionKind {
    MakeKind(GetString(d, API_VERSION), GetString(d, KIND))
  }

  ghost predicate SlashFree(s: string) {
    forall i | 0 <= i < |s| :: s[i] != '/'
  }

  ghost predicate TwoSlashes(s: string) {
    exists i, j :: 0 <= i < j < |s| && s[i] == s[j] == '/'
  }

  lemma {:induction false} FirstSlash(s: string)
    ensures forall i | 0 <= i < IndexOfSlash(s) :: s[i] != '/'
  {
    if s != "" && s[0] != '/' {
      FirstSlash(s[1..]);
      assert forall i | 0 < i < |s| :: s[i] == s[1..][i - 1];
    }
  }

  /** Without a slash it is the version of the core group, with one it is group and version. */
  lemma GroupAndVersion(group: string, version: string)
    requires SlashFree(group) && SlashFree(version)
    ensures ParseGroupVersion(version) == Some(("", version))
    ensures ParseGroupVersion(group + "/" + version) == Some((group, version))
  {
    FirstSlash(version);
    var s := group + "/" + version;
    FirstSlash(s);
    assert s[|group|] == '/';
    assert forall i | 0 <= i < |group| :: s[i] == group[i];
    assert IndexOfSlash(s) == |group| && s[..|group|] == group && s[|group| + 1..] == version;
    if s == "/" {
      assert group == "" && version == "";
    }
  }

  /** Everything else has a second slash, and only that is refused. */
  lemma RefusedIff(s: string)
    ensures ParseGroupVersion(s).None? <==> TwoSlashes(s)
  {
    var i := IndexOfSlash(s);
    FirstSlash(s);
    if i < |s| {
      var rest := s[i + 1..];
      FirstSlash(rest);
      var j := IndexOfSlash(rest);
      if j < |rest| {
        assert s[i + 1 + j] == rest[j] == '/';
      } else {
        forall k | i < k < |s| ensures s[k] != '/' {
          assert s[k] == rest[k - i - 1];
        }
      }
    }
  }

  /** The kind an object is matched by. */
  lemma KindIsRead(d: Value, group: string, version: string)
    requires SlashFree(group) && SlashFree(version)
    ensures GetString(d, ["apiVersion"]) == group + "/" + version ==>
              KindOf(d) == GroupVersionKind(group, version, GetString(d, ["kind"]))
    ensures GetString(d, ["apiVersion"]) == version ==>
              KindOf(d) == GroupVersionKind("", version, GetString(d, ["kind"]))
    ensures TwoSlashes(GetString(d, ["apiVersion"])) ==> KindOf(d) == GroupVersionKind("", "", "")
  {
    GroupAndVersion(group, version);
    RefusedIff(GetString(d, ["apiVersion"]));
  }

  /** The two strings an object's kind is read from. */
  ghost predicate SameKindStrings(x: Value, y: Value) {
    GetString(x, API_VERSION) == GetString(y, API_VERSION) && GetString(x, KIND) == GetString(y, KIND)
  }

  ghost predicate SameKey(x: Value, y: Value) {
    GetNamespace(x) == GetNamespace(y) && GetName(x) == GetName(y)
  }
}
