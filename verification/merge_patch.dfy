/**
 The merge patch an update sends: computed by `CreateMergePatch` from the remote and the
 prepared object, applied by the remote API server as section 2 of RFC 7396 prescribes.
 */
module MergePatch {
  import opened Wrappers
  import opened Json

  /** A tree as `encoding/json` decodes it back: every number is a float. */
  function Wire(v: Value): (r: Value)
    ensures v.Obj? ==> r.Obj? && r.fields.Keys == v.fields.Keys
  {
    match v
    case Int(i) => Float(i as real)
    case Arr(a) => Arr(seq(|a|, i requires 0 <= i < |a| => Wire(a[i])))
    case Obj(m) => Obj(map k | k in m :: Wire(m[k]))
    case _ => v
  }

  lemma WireMember(d: Document, k: string)
    requires k in d.fields
    ensures k in Wire(d).fields && Wire(d).fields[k] == Wire(d.fields[k])
  {
  }

  ghost function OnTheWire(was: Option<Shape>): Option<Shape> {
    match was
    case Some(Leaf(Int(i))) => Some(Leaf(Float(i as real)))
    case _ => was
  }

  /** Location by location only whole numbers become floats. */
  lemma {:induction false} WireExact(v: Value, at: Location)
    ensures Probe(Wire(v), at) == OnTheWire(Probe(v, at))
    decreases |at|
  {
    if at != [] {
      match Child(v, at[0])
      case Some(c) => WireExact(c, at[1..]);
      case None =>
    }
  }

  /** `matchesValue`: a map member that is missing compares like null. */
  predicate MatchesValue(a: Value, b: Value) {
    match (a, b)
    case (Obj(m), Obj(n)) =>
      && (forall k | k in m :: if k in n then MatchesValue(m[k], n[k]) else m[k].Null?)
      && (forall k | k in n && k !in m :: n[k].Null?)
    case (Arr(x), Arr(y)) => |x| == |y| && forall i | 0 <= i < |x| :: MatchesValue(x[i], y[i])
    case _ => a == b
  }

  predicate SameType(a: Value, b: Value) {
    (a.Null? && b.Null?) || (a.Bool? && b.Bool?) || (a.Int? && b.Int?) || (a.Float? && b.Float?)
    || (a.Str? && b.Str?) || (a.Arr? && b.Arr?) || (a.Obj? && b.Obj?)
  }

  /** What `getDiff` records for one key; None is nothing. */
  function DiffEntry(a: Document, b: Document, k: string): Option<Value>
    requires k in a.fields || k in b.fields
    decreases a, 0
  {
    if k !in b.fields then Some(Null)
    else if k !in a.fields then Some(b.fields[k])
    else
      var av, bv := a.fields[k], b.fields[k];
      if !SameType(av, bv) then Some(bv)
      else if av.Obj? then
        var d := Diff(av, bv);
        if d.fields == map[] then None else Some(d)
      else if MatchesValue(av, bv) then None
      else Some(bv)
  }

  /** `getDiff`: the patch that turns `a` into `b`. */
  function Diff(a: Document, b: Document): (r: Document)
    decreases a, 1
  {
    Obj(map k | k in a.fields.Keys + b.fields.Keys && DiffEntry(a, b, k).Some? :: DiffEntry(a, b, k).value)
  }

  /** `MergePatch(target, patch)` of RFC 7396; an absent member is Null. */
  function Apply(target: Value, patch: Value): Value
    decreases patch
  {
    match patch
    case Obj(p) =>
      var t := if target.Obj? then target.fields else map[];
      Obj(map k | k in t.Keys + p.Keys && !(k in p && p[k].Null?) ::
            if k in p then Apply(if k in t then t[k] else Null, p[k]) else t[k])
    case _ => patch
  }

  /** No map in the tree has a member that is null. */
  ghost predicate NoNullMembers(v: Value) {
    match v
    case Obj(m) => forall k | k in m :: !m[k].Null? && NoNullMembers(m[k])
    case Arr(a) => forall i | 0 <= i < |a| :: NoNullMembers(a[i])
    case _ => true
  }

  lemma {:induction false} WireKeepsNoNull(v: Value)
    requires NoNullMembers(v)
    ensures NoNullMembers(Wire(v)) && (Wire(v).Null? <==> v.Null?)
  {
    match v
    case Obj(m) =>
      forall k | k in m ensures !Wire(m[k]).Null? && NoNullMembers(Wire(m[k])) { WireKeepsNoNull(m[k]); }
    case Arr(a) => forall i | 0 <= i < |a| ensures NoNullMembers(Wire(a[i])) { WireKeepsNoNull(a[i]); }
    case _ =>
  }

  lemma {:induction false} SetKeepsNoNull(v: Value, s: string, path: Path)
    requires path != [] && NoNullMembers(v)
    ensures NoNullMembers(SetNested(v, Str(s), path)) && (SetNested(v, Str(s), path).Null? <==> v.Null?)
    decreases |path|
  {
    if v.Obj? && |path| > 1 {
      SetKeepsNoNull(if path[0] in v.fields then v.fields[path[0]] else Obj(map[]), s, path[1..]);
    }
  }

  lemma {:induction false} RemoveKeepsNoNull(v: Value, path: Path)
    requires path != [] && NoNullMembers(v)
    ensures NoNullMembers(Remove(v, path)) && (Remove(v, path).Null? <==> v.Null?)
    decreases |path|
  {
    if v.Obj? && |path| > 1 && path[0] in v.fields {
      RemoveKeepsNoNull(v.fields[path[0]], path[1..]);
    }
  }

  lemma {:induction false} MatchesIsEqual(a: Value, b: Value)
    requires NoNullMembers(a) && NoNullMembers(b)
    ensures MatchesValue(a, b) <==> a == b
  {
    match (a, b)
    case (Obj(m), Obj(n)) =>
      forall k | k in m && k in n ensures MatchesValue(m[k], n[k]) <==> m[k] == n[k] { MatchesIsEqual(m[k], n[k]); }
      assert MatchesValue(a, b) ==> m.Keys == n.Keys;
      assert MatchesValue(a, b) ==> m == n;
    case (Arr(x), Arr(y)) =>
      forall i | 0 <= i < |x| && i < |y|
        ensures MatchesValue(x[i], y[i]) <==> x[i] == y[i] { MatchesIsEqual(x[i], y[i]); }
      assert MatchesValue(a, b) ==> x == y;
    case _ =>
  }

  /** Patching something that is not a map with a null-free value replaces it. */
  lemma {:induction false} ApplyFresh(target: Value, patch: Value)
    requires NoNullMembers(patch) && (patch.Obj? ==> !target.Obj?)
    ensures Apply(target, patch) == patch
    decreases patch
  {
    match patch
    case Obj(p) =>
      forall k | k in p ensures Apply(Null, p[k]) == p[k] { ApplyFresh(Null, p[k]); }
      assert Apply(target, patch).fields == p;
    case _ =>
  }

  lemma ApplyEmpty(target: Document)
    ensures Apply(target, Obj(map[])) == target
  {
    assert Apply(target, Obj(map[])).fields == target.fields;
  }

  /** One member of the patched object, by what the patch says about it. */
  lemma PatchedMember(a: Document, b: Document, k: string)
    ensures var r := Apply(a, Diff(a, b)).fields;
            if k !in a.fields && k !in b.fields then k !in r
            else match DiffEntry(a, b, k)
              case None => k in a.fields && k in r && r[k] == a.fields[k]
              case Some(Null) => k !in r
              case Some(e) => k in r && r[k] == Apply(if k in a.fields then a.fields[k] else Null, e)
  {
    if k in a.fields || k in b.fields {
      assert k in Diff(a, b).fields <==> DiffEntry(a, b, k).Some?;
    }
  }

  /** Applying the computed patch to the original gives the modified object. */
  lemma {:induction false} PatchReachesModified(a: Document, b: Document)
    requires NoNullMembers(a) && NoNullMembers(b)
    ensures Apply(a, Diff(a, b)) == b
  {
    var p := Diff(a, b).fields;
    var r := Apply(a, Diff(a, b)).fields;
    forall k ensures (k in r <==> k in b.fields) && (k in r ==> r[k] == b.fields[k]) {
      PatchedMember(a, b, k);
      if k in b.fields {
        var bv := b.fields[k];
        if k !in a.fields {
          ApplyFresh(Null, bv);
        } else {
          var av := a.fields[k];
          if !SameType(av, bv) {
            ApplyFresh(av, bv);
          } else if av.Obj? {
            PatchReachesModified(av, bv);
            ApplyEmpty(av);
          } else {
            MatchesIsEqual(av, bv);
          }
        }
      }
    }
    assert r == b.fields;
  }

  lemma {:induction false} NoDifference(a: Document)
    requires NoNullMembers(a)
    ensures Diff(a, a) == Obj(map[])
  {
    forall k | k in a.fields ensures DiffEntry(a, a, k).None? {
      if a.fields[k].Obj? {
        NoDifference(a.fields[k]);
      } else {
        MatchesIsEqual(a.fields[k], a.fields[k]);
      }
    }
    assert Diff(a, a).fields == map[];
  }

  /** A patch mentions exactly the members that differ. */
  lemma MentionedIff(a: Document, b: Document, k: string)
    requires NoNullMembers(a) && NoNullMembers(b)
    ensures k in Diff(a, b).fields <==>
              (k in a.fields || k in b.fields) && !(k in a.fields && k in b.fields && a.fields[k] == b.fields[k])
  {
    if k in a.fields && k in b.fields {
      var av, bv := a.fields[k], b.fields[k];
      if SameType(av, bv) {
        if av.Obj? {
          PatchReachesModified(av, bv);
          ApplyEmpty(av);
          NoDifference(av);
        } else {
          MatchesIsEqual(av, bv);
        }
      }
    }
  }

  // ---------------------------------------------------------------------
  // Null members are exactly what a patch cannot express
  // ---------------------------------------------------------------------

  ghost function Strip(v: Value): (r: Value)
    ensures v.Obj? ==> r.Obj?
  {
    match v
    case Obj(m) => Obj(map k | k in m && !m[k].Null? :: Strip(m[k]))
    case Arr(a) => Arr(seq(|a|, i requires 0 <= i < |a| => Strip(a[i])))
    case _ => v
  }

  lemma {:induction false} StripHasNone(v: Value)
    ensures NoNullMembers(Strip(v)) && SameType(Strip(v), v) && MatchesValue(Strip(v), v)
    ensures Strip(v) == v ==> NoNullMembers(v)
  {
    match v
    case Obj(m) =>
      forall k | k in m
        ensures NoNullMembers(Strip(m[k])) && SameType(Strip(m[k]), m[k]) && MatchesValue(Strip(m[k]), m[k]) {
        StripHasNone(m[k]);
      }
    case Arr(a) =>
      forall i | 0 <= i < |a|
        ensures NoNullMembers(Strip(a[i])) && MatchesValue(Strip(a[i]), a[i]) { StripHasNone(a[i]); }
    case _ =>
  }

  /** From the stripped object, the patch to the full one leads nowhere. */
  lemma {:induction false} PatchMissesNulls(b: Document)
    ensures Apply(Strip(b), Diff(Strip(b), b)) == Strip(b)
  {
    var a := Strip(b);
    var r := Apply(a, Diff(a, b)).fields;
    forall k ensures (k in r <==> k in a.fields) && (k in r ==> r[k] == a.fields[k]) {
      PatchedMember(a, b, k);
      if k in b.fields && k in a.fields {
        ApplyEmpty(a);
        StripHasNone(b.fields[k]);
        if b.fields[k].Obj? {
          PatchMissesNulls(b.fields[k]);
        }
      }
    }
    assert r == a.fields;
  }

  /** Merge patches reach an object from every null-free starting point exactly when the
      object has no null member itself. */
  lemma PatchReachesIff(b: Document)
    ensures (forall a: Document | NoNullMembers(a) :: Apply(a, Diff(a, b)) == b) <==> NoNullMembers(b)
  {
    if NoNullMembers(b) {
      forall a: Document | NoNullMembers(a) ensures Apply(a, Diff(a, b)) == b {
        PatchReachesModified(a, b);
      }
    } else {
      StripHasNone(b);
      PatchMissesNulls(b);
      assert Apply(Strip(b), Diff(Strip(b), b)) != b;
    }
  }
}
