/**
 JSON trees as the `unstructured` package sees them, its nested-field accessors,
 and two independent ways to talk about trees that the filter proofs use:
 `Probe` (what is found at a location) and `Pruned` (a tree with map keys cut off).
 */
module Json {
  import opened Wrappers

  datatype Value =
    | Null
    | Bool(b: bool)
    | Int(i: int)
    | Float(f: real)
    | Str(s: string)
    | Arr(elems: seq<Value>)
    | Obj(fields: map<string, Value>)

  /** `Unstructured.Object`: the root of an object is always a map. */
  type Document = v: Value | v.Obj? witness Obj(map[])

  type Path = seq<string>

  // ---------------------------------------------------------------------
  // Accessors of the unstructured package
  // ---------------------------------------------------------------------

  datatype Lookup<+T> = Found(value: T) | Missing | WrongType

  /** `NestedFieldNoCopy`: maps only, no list syntax; a null on the way is a miss. */
  function Nested(v: Value, path: Path): Lookup<Value> {
    if path == [] then Found(v)
    else match v
      case Null => Missing
      case Obj(m) => if path[0] in m then Nested(m[path[0]], path[1..]) else Missing
      case _ => WrongType
  }

  function NestedString(v: Value, path: Path): Lookup<string> {
    match Nested(v, path)
    case Found(Str(s)) => Found(s)
    case Found(_) => WrongType
    case Missing => Missing
    case WrongType => WrongType
  }

  /** The string at a path, empty when there is none. */
  function GetString(v: Value, path: Path): string {
    match NestedString(v, path)
    case Found(s) => s
    case _ => ""
  }

  /** `SetNestedField`. Missing maps on the way are created; a non-map on the way
      makes the call fail and leaves the tree alone. */
  function SetNested(v: Value, x: Value, path: Path): (r: Value)
    requires path != []
    ensures v.Obj? ==> r.Obj?
    decreases |path|
  {
    match v
    case Obj(m) =>
      if |path| == 1 then Obj(m[path[0] := x])
      else if path[0] in m then Obj(m[path[0] := SetNested(m[path[0]], x, path[1..])])
      else Obj(m[path[0] := SetNested(Obj(map[]), x, path[1..])])
    case _ => v
  }

  /** `RemoveNestedField`: a no-op when some hop is missing or not a map. */
  function Remove(v: Value, path: Path): (r: Value)
    requires path != []
    ensures v.Obj? ==> r.Obj?
    decreases |path|
  {
    match v
    case Obj(m) =>
      if |path| == 1 then Obj(m - {path[0]})
      else if path[0] in m then Obj(m[path[0] := Remove(m[path[0]], path[1..])])
      else v
    case _ => v
  }

  const KIND: Path := ["kind"]
  const API_VERSION: Path := ["apiVersion"]
  const UID: Path := ["metadata", "uid"]
  const RESOURCE_VERSION: Path := ["metadata", "resourceVersion"]
  const NAME: Path := ["metadata", "name"]
  const NAMESPACE: Path := ["metadata", "namespace"]

  function GetUID(d: Value): string { GetString(d, UID) }
  function GetResourceVersion(d: Value): string { GetString(d, RESOURCE_VERSION) }
  function GetName(d: Value): string { GetString(d, NAME) }
  function GetNamespace(d: Value): string { GetString(d, NAMESPACE) }

  // ---------------------------------------------------------------------
  // Locations
  // ---------------------------------------------------------------------

  datatype Hop = Key(key: string) | Index(index: nat)

  /** A concrete place in a tree: map keys and list indexes from the root. */
  type Location = seq<Hop>

  /** What stands at one location, without what hangs below it. */
  datatype Shape = Leaf(value: Value) | MapNode | ListNode(length: nat)

  function ShapeOf(v: Value): Shape {
    match v
    case Obj(_) => MapNode
    case Arr(a) => ListNode(|a|)
    case _ => Leaf(v)
  }

  function Child(v: Value, hop: Hop): Option<Value> {
    match (v, hop)
    case (Obj(m), Key(k)) => if k in m then Some(m[k]) else None
    case (Arr(a), Index(i)) => if i < |a| then Some(a[i]) else None
    case _ => None
  }

  function Probe(v: Value, at: Location): Option<Shape> {
    if at == [] then Some(ShapeOf(v))
    else match Child(v, at[0])
      case None => None
      case Some(c) => Probe(c, at[1..])
  }

  lemma ProbeChild(v: Value, hop: Hop, below: Location)
    ensures Probe(v, [hop] + below) ==
            match Child(v, hop) { case None => None case Some(c) => Probe(c, below) }
  {
    assert ([hop] + below)[1..] == below;
  }

  /** Probes determine a tree. */
  lemma {:induction false} SameProbesSameTree(x: Value, y: Value)
    requires forall at :: Probe(x, at) == Probe(y, at)
    ensures x == y
  {
    assert Probe(x, []) == Probe(y, []);
    match x {
      case Obj(m) =>
        var n := y.fields;
        forall k ensures k in m <==> k in n {
          ProbeChild(x, Key(k), []);
          ProbeChild(y, Key(k), []);
          assert Probe(x, [Key(k)] + []) == Probe(y, [Key(k)] + []);
        }
        forall k | k in m ensures m[k] == n[k] {
          forall at ensures Probe(m[k], at) == Probe(n[k], at) {
            ProbeChild(x, Key(k), at);
            ProbeChild(y, Key(k), at);
          }
          SameProbesSameTree(m[k], n[k]);
        }
        assert m == n;
      case Arr(a) =>
        var b := y.elems;
        forall i | 0 <= i < |a| ensures a[i] == b[i] {
          forall at ensures Probe(a[i], at) == Probe(b[i], at) {
            ProbeChild(x, Index(i), at);
            ProbeChild(y, Index(i), at);
          }
          SameProbesSameTree(a[i], b[i]);
        }
        assert a == b;
      case _ =>
    }
  }

  /** The location a delete path or an accessor path names: map keys all the way. */
  function KeysOf(path: Path): (r: Location)
    ensures |r| == |path|
  {
    seq(|path|, i requires 0 <= i < |path| => Key(path[i]))
  }

  /** Every hop on the way to a path leads through a map, or is missing. */
  ghost predicate Open(v: Value, path: Path)
    requires path != []
    decreases |path|
  {
    v.Obj? && (|path| > 1 && path[0] in v.fields ==> Open(v.fields[path[0]], path[1..]))
  }

  /** `at` is a map key on the way to the path. */
  ghost predicate OnTheWay(path: Path, at: Location) {
    at < KeysOf(path)
  }

  /** A tree in which a leaf stands at the path, nothing below it, a map at every key on the way, and
      the rest is as before; all of it if the way is blocked. */
  ghost function SetAt(v: Value, x: Value, path: Path, at: Location): Option<Shape>
    requires path != []
  {
    if !Open(v, path) then Probe(v, at)
    else if at == KeysOf(path) then Some(Leaf(x))
    else if KeysOf(path) <= at then None
    else if OnTheWay(path, at) then Some(MapNode)
    else Probe(v, at)
  }

  lemma KeysFirst(path: Path, at: Location)
    requires path != [] && at != [] && at[0] == Key(path[0])
    ensures at == KeysOf(path) <==> at[1..] == KeysOf(path[1..])
    ensures KeysOf(path) <= at <==> KeysOf(path[1..]) <= at[1..]
    ensures OnTheWay(path, at) <==> OnTheWay(path[1..], at[1..])
  {
    var keys := KeysOf(path);
    assert keys[1..] == KeysOf(path[1..]);
    assert at == [at[0]] + at[1..] && keys == [keys[0]] + keys[1..];
  }

  lemma SetKeyExact(v: Value, x: Value, path: Path, at: Location)
    requires |path| == 1 && v.Obj? && !x.Obj? && !x.Arr? && at != [] && at[0] == Key(path[0])
    ensures Probe(SetNested(v, x, path), at) == SetAt(v, x, path, at)
  {
    KeysFirst(path, at);
    assert Probe(SetNested(v, x, path), at) == Probe(x, at[1..]);
  }

  function BelowKey(v: Value, k: string): Value
    requires v.Obj?
  {
    if k in v.fields then v.fields[k] else Obj(map[])
  }

  lemma SetBelowExact(v: Value, x: Value, path: Path, at: Location)
    requires |path| > 1 && v.Obj? && at != [] && at[0] == Key(path[0])
    requires Probe(SetNested(BelowKey(v, path[0]), x, path[1..]), at[1..]) ==
             SetAt(BelowKey(v, path[0]), x, path[1..], at[1..])
    ensures Probe(SetNested(v, x, path), at) == SetAt(v, x, path, at)
  {
    KeysFirst(path, at);
    NothingInEmpty(at[1..]);
  }

  lemma {:induction false} SetExact(v: Value, x: Value, path: Path, at: Location)
    requires path != [] && !x.Obj? && !x.Arr?
    ensures Probe(SetNested(v, x, path), at) == SetAt(v, x, path, at)
    decreases |path|
  {
    if v.Obj? && at != [] {
      if at[0] == Key(path[0]) {
        if |path| == 1 {
          SetKeyExact(v, x, path, at);
        } else {
          SetExact(BelowKey(v, path[0]), x, path[1..], at[1..]);
          SetBelowExact(v, x, path, at);
        }
      } else {
        assert KeysOf(path)[0] == Key(path[0]);
        assert Child(SetNested(v, x, path), at[0]) == Child(v, at[0]);
      }
    }
  }

  lemma NothingInEmpty(at: Location)
    ensures at != [] ==> Probe(Obj(map[]), at) == None
  {
  }

  ghost predicate NullFree(v: Value) {
    match v
    case Null => false
    case Obj(m) => forall k | k in m :: NullFree(m[k])
    case Arr(a) => forall i | 0 <= i < |a| :: NullFree(a[i])
    case _ => true
  }

  // ---------------------------------------------------------------------
  // Pruning
  // ---------------------------------------------------------------------

  /** `x` is `y` with some map keys cut off, at any depth. */
  ghost predicate Pruned(x: Value, y: Value)
    decreases x
  {
    match (x, y)
    case (Obj(m), Obj(n)) => m.Keys <= n.Keys && forall k | k in m :: Pruned(m[k], n[k])
    case (Arr(a), Arr(b)) => |a| == |b| && forall i | 0 <= i < |a| :: Pruned(a[i], b[i])
    case _ => x == y
  }

  lemma {:induction false} PrunedReflexive(x: Value)
    ensures Pruned(x, x)
  {
    match x
    case Obj(m) => forall k | k in m ensures Pruned(m[k], m[k]) { PrunedReflexive(m[k]); }
    case Arr(a) => forall i | 0 <= i < |a| ensures Pruned(a[i], a[i]) { PrunedReflexive(a[i]); }
    case _ =>
  }

  lemma {:induction false} PrunedAntisymmetric(x: Value, y: Value)
    requires Pruned(x, y) && Pruned(y, x)
    ensures x == y
  {
    match (x, y)
    case (Obj(m), Obj(n)) =>
      forall k | k in m ensures m[k] == n[k] { PrunedAntisymmetric(m[k], n[k]); }
      assert m == n;
    case (Arr(a), Arr(b)) =>
      forall i | 0 <= i < |a| ensures a[i] == b[i] { PrunedAntisymmetric(a[i], b[i]); }
      assert a == b;
    case _ =>
  }

  lemma {:induction false} PrunedTransitive(x: Value, y: Value, z: Value)
    requires Pruned(x, y) && Pruned(y, z)
    ensures Pruned(x, z)
  {
    match (x, y, z)
    case (Obj(m), Obj(n), Obj(o)) =>
      forall k | k in m ensures Pruned(m[k], o[k]) { PrunedTransitive(m[k], n[k], o[k]); }
    case (Arr(a), Arr(b), Arr(c)) =>
      forall i | 0 <= i < |a| ensures Pruned(a[i], c[i]) { PrunedTransitive(a[i], b[i], c[i]); }
    case _ =>
  }

  lemma {:induction false} RemovePrunes(v: Value, path: Path)
    requires path != []
    ensures Pruned(Remove(v, path), v)
    decreases |path|
  {
    PrunedReflexive(v);
    if v.Obj? && |path| > 1 && path[0] in v.fields {
      RemovePrunes(v.fields[path[0]], path[1..]);
    }
  }

  lemma {:induction false} RemoveMonotone(x: Value, y: Value, path: Path)
    requires path != [] && Pruned(x, y)
    ensures Pruned(Remove(x, path), Remove(y, path))
    decreases |path|
  {
    if x.Obj? && |path| > 1 && path[0] in y.fields {
      if path[0] in x.fields {
        RemoveMonotone(x.fields[path[0]], y.fields[path[0]], path[1..]);
      } else {
        RemovePrunes(y.fields[path[0]], path[1..]);
      }
    }
  }

  /** Cutting keys can only make a string disappear, never change it. */
  lemma {:induction false} PrunedString(x: Value, y: Value, path: Path)
    requires Pruned(x, y)
    ensures GetString(x, path) == "" || GetString(x, path) == GetString(y, path)
    decreases |path|
  {
    if path != [] && x.Obj? && path[0] in x.fields {
      PrunedString(x.fields[path[0]], y.fields[path[0]], path[1..]);
    }
  }

  lemma {:induction false} StringUntouched(d: Value, path: Path, name: Path)
    requires path != [] && !(path <= name)
    ensures GetString(Remove(d, path), name) == GetString(d, name)
    decreases |path|
  {
    if name != [] && d.Obj? && path[0] == name[0] && |path| > 1 && path[0] in d.fields {
      StringUntouched(d.fields[path[0]], path[1..], name[1..]);
    }
  }

  lemma {:induction false} StringRemoved(d: Value, path: Path)
    requires path != []
    ensures GetString(Remove(d, path), path) == ""
    decreases |path|
  {
    if d.Obj? && |path| > 1 && path[0] in d.fields {
      StringRemoved(d.fields[path[0]], path[1..]);
    }
  }
}
