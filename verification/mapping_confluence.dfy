/**
 When two mapping rules do not interfere: they commute, neither makes the other one
 pass or fail, and what running one rule twice does is not changed by the other.
 */
module MappingConfluence {
  import opened Wrappers
  import opened Json
  import opened Strconv
  import opened ApiTypes
  import opened VariableMappingFilter
  import opened MappingLaws

  ghost predicate Passes(path: Path, v: VariableMapping, t: Value) {
    Iterate(path, v, t).verdict == Passed
  }

  ghost function After(path: Path, v: VariableMapping, t: Value): Value {
    Iterate(path, v, t).tree
  }

  lemma ListStep(path: Path, v: VariableMapping, a: seq<Value>)
    requires path != []
    ensures Passes(path, v, Arr(a)) <==>
            forall i | 0 <= i < |a| :: (|path| > 1 || a[i].Obj?) && Passes(Down(path), v, a[i])
    ensures Passes(path, v, Arr(a)) ==>
            var r := After(path, v, Arr(a));
            r.Arr? && |r.elems| == |a| && forall i | 0 <= i < |a| :: r.elems[i] == After(Down(path), v, a[i])
  {
    ListPasses(path, v, a);
    forall i | 0 <= i < |a|
      ensures IterateElement(path, v, a[i]).verdict == Passed <==>
              (|path| > 1 || a[i].Obj?) && Passes(Down(path), v, a[i])
      ensures IterateElement(path, v, a[i]).verdict == Passed ==>
              IterateElement(path, v, a[i]).tree == After(Down(path), v, a[i])
    {
      ElementIsIterate(path, v, a[i]);
    }
  }

  /** Null-free objects and non-empty paths are enough for `iteratePath` not to panic. */
  lemma {:induction false} NoPanic(path: Path, v: VariableMapping, t: Value)
    requires path != [] && NullFree(t)
    ensures Iterate(path, v, t).verdict != Panicked
    decreases t
  {
    match t
    case Obj(m) =>
      if |path| > 1 && path[0] in m {
        NoPanic(path[1..], v, m[path[0]]);
      }
    case Arr(a) =>
      forall i | 0 <= i < |a| ensures IterateElement(path, v, a[i]).verdict != Panicked {
        ElementIsIterate(path, v, a[i]);
        NoPanic(Down(path), v, a[i]);
      }
      NoPanicList(path, v, a);
    case _ =>
  }

  lemma {:induction false} NoPanicList(path: Path, v: VariableMapping, a: seq<Value>)
    requires forall i | 0 <= i < |a| :: IterateElement(path, v, a[i]).verdict != Panicked
    ensures IterateElements(path, v, a).1 != Panicked
  {
    if a != [] {
      assert forall i | 0 <= i < |a[1..]| :: a[1..][i] == a[i + 1];
      NoPanicList(path, v, a[1..]);
    }
  }

  // ---------------------------------------------------------------------
  // Non-interference of two rules
  // ---------------------------------------------------------------------

  /** The walks of two paths through `t` part before either of them ends. */
  ghost predicate Apart(p: Path, q: Path, t: Value)
    requires p != [] && q != []
    decreases t
  {
    match t
    case Obj(m) =>
      p[0] != q[0] || (|p| > 1 && |q| > 1 && (p[0] in m ==> Apart(p[1..], q[1..], m[p[0]])))
    case Arr(a) => forall i | 0 <= i < |a| :: Apart(Down(p), Down(q), a[i])
    case _ => true
  }

  ghost predicate Comparable(x: Location, y: Location) {
    x <= y || y <= x
  }

  /** Some write of one path lies on a branch of the other. */
  ghost predicate Clash(p: Path, q: Path, t: Value, x: Location, y: Location)
    requires p != [] && q != []
  {
    && ((Writes(p, t, x) && Stops(q, t, y)) || (Stops(p, t, x) && Writes(q, t, y)))
    && Comparable(x, y)
  }

  lemma {:induction false} WritesStops(p: Path, t: Value, x: Location)
    requires p != [] && Writes(p, t, x)
    ensures Stops(p, t, x)
    decreases t
  {
    match t
    case Obj(m) => if |p| > 1 { WritesStops(p[1..], m[p[0]], x[1..]); }
    case Arr(a) => WritesStops(Down(p), a[x[0].index], x[1..]);
    case _ =>
  }

  lemma {:induction false} SomeStop(p: Path, t: Value) returns (x: Location)
    requires p != []
    ensures Stops(p, t, x)
    decreases t
  {
    match t {
      case Obj(m) =>
        x := [Key(p[0])];
        if |p| > 1 && p[0] in m {
          var below := SomeStop(p[1..], m[p[0]]);
          assert ([Key(p[0])] + below)[1..] == below;
          x := [Key(p[0])] + below;
        }
      case Arr(a) =>
        x := [];
        if a != [] {
          var below := SomeStop(Down(p), a[0]);
          assert ([Index(0)] + below)[1..] == below;
          x := [Index(0)] + below;
        }
      case _ =>
        x := [];
    }
  }

  lemma {:induction false} ApartNoClash(p: Path, q: Path, t: Value, x: Location, y: Location)
    requires p != [] && q != [] && Apart(p, q, t)
    ensures !Clash(p, q, t, x, y)
    decreases t
  {
    if x != [] && y != [] && x[0] == y[0] {
      match t
      case Obj(m) =>
        if |p| > 1 && |q| > 1 && p[0] == q[0] && p[0] in m {
          ApartNoClash(p[1..], q[1..], m[p[0]], x[1..], y[1..]);
          assert Comparable(x, y) ==> Comparable(x[1..], y[1..]);
        }
      case Arr(a) =>
        if x[0].Index? && x[0].index < |a| {
          ApartNoClash(Down(p), Down(q), a[x[0].index], x[1..], y[1..]);
          assert Comparable(x, y) ==> Comparable(x[1..], y[1..]);
        }
      case _ =>
    } else {
      assert t.Obj? && x == [] ==> !Stops(p, t, x);
      assert t.Obj? && y == [] ==> !Stops(q, t, y);
    }
  }

  lemma {:induction false} ClashUnlessApart(p: Path, q: Path, t: Value) returns (x: Location, y: Location)
    requires p != [] && q != [] && !Apart(p, q, t)
    ensures Clash(p, q, t, x, y)
    decreases t
  {
    match t
    case Obj(m) =>
      if |p| == 1 {
        x := [Key(p[0])];
        y := SomeStop(q, t);
        assert x <= y;
      } else if |q| == 1 {
        y := [Key(q[0])];
        x := SomeStop(p, t);
        assert y <= x;
      } else {
        var x', y' := ClashUnlessApart(p[1..], q[1..], m[p[0]]);
        x, y := [Key(p[0])] + x', [Key(p[0])] + y';
        assert x[1..] == x' && y[1..] == y';
        assert Comparable(x, y);
      }
    case Arr(a) =>
      var i :| 0 <= i < |a| && !Apart(Down(p), Down(q), a[i]);
      var x', y' := ClashUnlessApart(Down(p), Down(q), a[i]);
      x, y := [Index(i)] + x', [Index(i)] + y';
      assert x[1..] == x' && y[1..] == y';
      assert Comparable(x, y);
    case _ =>
      assert false;
      x, y := [], [];
  }

  /** Two rules are apart exactly when no location one of them writes is equal to, above or
      below a location where the other one's walk ends. */
  lemma ApartMeansNoClash(p: Path, q: Path, t: Value)
    requires p != [] && q != []
    ensures Apart(p, q, t) <==> forall x, y :: !Clash(p, q, t, x, y)
  {
    if Apart(p, q, t) {
      forall x, y ensures !Clash(p, q, t, x, y) {
        ApartNoClash(p, q, t, x, y);
      }
    } else {
      var x, y := ClashUnlessApart(p, q, t);
    }
  }

  lemma {:induction false} ApartSymmetric(p: Path, q: Path, t: Value)
    requires p != [] && q != [] && Apart(p, q, t)
    ensures Apart(q, p, t)
    decreases t
  {
    match t
    case Obj(m) => if p[0] == q[0] && p[0] in m { ApartSymmetric(p[1..], q[1..], m[p[0]]); }
    case Arr(a) =>
      forall i | 0 <= i < |a| ensures Apart(Down(q), Down(p), a[i]) { ApartSymmetric(Down(p), Down(q), a[i]); }
    case _ =>
  }

  /** Rules that are apart commute. */
  lemma {:induction false} Commute(p: Path, v: VariableMapping, q: Path, w: VariableMapping, t: Value)
    requires p != [] && q != [] && Apart(p, q, t)
    requires Passes(p, v, t) && Passes(q, w, t)
    ensures Passes(q, w, After(p, v, t)) && Passes(p, v, After(q, w, t))
    ensures After(q, w, After(p, v, t)) == After(p, v, After(q, w, t))
    decreases t
  {
    match t
    case Obj(m) =>
      if p[0] == q[0] {
        if p[0] in m {
          Commute(p[1..], v, q[1..], w, m[p[0]]);
        }
      } else {
        CommuteAcross(p, v, q, w, m);
      }
    case Arr(a) =>
      ListStep(p, v, a);
      ListStep(q, w, a);
      var pa, qa := After(p, v, t).elems, After(q, w, t).elems;
      forall i | 0 <= i < |a|
        ensures Passes(Down(q), w, pa[i]) && Passes(Down(p), v, qa[i])
        ensures After(Down(q), w, pa[i]) == After(Down(p), v, qa[i])
      {
        Commute(Down(p), v, Down(q), w, a[i]);
      }
      ListStep(q, w, pa);
      ListStep(p, v, qa);
      assert After(q, w, After(p, v, t)).elems == After(p, v, After(q, w, t)).elems;
    case _ =>
  }

  /** A rule that writes a number. */
  function Number(digit: string): VariableMapping {
    VariableMapping("", digit, IntVar, None)
  }

  /** Two passing rules end in the same tree in either order. */
  ghost predicate Commutes(p: Path, v: VariableMapping, q: Path, w: VariableMapping, t: Value) {
    && Passes(q, w, After(p, v, t)) && Passes(p, v, After(q, w, t))
    && After(q, w, After(p, v, t)) == After(p, v, After(q, w, t))
  }

  lemma Numbers()
    ensures Constant(Number("1")) == Some(Int(1)) && Constant(Number("2")) == Some(Int(2))
  {
    assert Atoi("1") == (1, true);
    assert Atoi("2") == (2, true);
  }

  /** Where any rule passes, one that writes a number does. */
  lemma {:induction false} NumberPasses(p: Path, v: VariableMapping, t: Value, w: VariableMapping)
    requires p != [] && Passes(p, v, t) && Constant(w).Some?
    ensures Passes(p, w, t)
    decreases t
  {
    match t
    case Obj(m) => if |p| > 1 && p[0] in m { NumberPasses(p[1..], v, m[p[0]], w); }
    case Arr(a) =>
      ListStep(p, v, a);
      forall i | 0 <= i < |a| ensures Passes(Down(p), w, a[i]) { NumberPasses(Down(p), v, a[i], w); }
      ListStep(p, w, a);
    case _ =>
  }

  lemma CommutesBelow(p: Path, v: VariableMapping, q: Path, w: VariableMapping, m: map<string, Value>)
    requires |p| > 1 && |q| > 1 && p[0] == q[0] && p[0] in m
    requires Passes(p, v, Obj(m)) && Passes(q, w, Obj(m)) && Commutes(p, v, q, w, Obj(m))
    ensures Commutes(p[1..], v, q[1..], w, m[p[0]])
  {
    var k := p[0];
    var a, b := After(p, v, Obj(m)).fields, After(q, w, Obj(m)).fields;
    assert After(q, w, Obj(a)).fields[k] == After(q[1..], w, a[k]);
    assert After(p, v, Obj(b)).fields[k] == After(p[1..], v, b[k]);
  }

  /** Rules that are not apart get in each other's way. */
  lemma {:induction false} NumbersConflict(p: Path, q: Path, t: Value)
    requires p != [] && q != [] && !Apart(p, q, t)
    requires Passes(p, Number("1"), t) && Passes(q, Number("2"), t)
    ensures !Commutes(p, Number("1"), q, Number("2"), t)
    decreases t
  {
    Numbers();
    var v, w := Number("1"), Number("2");
    match t
    case Obj(m) =>
      if |p| == 1 {
        assert After(p, v, t) == Obj(m[p[0] := Int(1)]);
        if |q| == 1 {
          assert After(q, w, t) == Obj(m[p[0] := Int(2)]);
          assert After(q, w, After(p, v, t)).fields[p[0]] == Int(2);
          assert After(p, v, After(q, w, t)).fields[p[0]] == Int(1);
        } else {
          assert !Passes(q[1..], w, Int(1));
        }
      } else if |q| == 1 {
        assert After(q, w, t) == Obj(m[p[0] := Int(2)]);
        assert !Passes(p[1..], v, Int(2));
      } else {
        NumbersConflict(p[1..], q[1..], m[p[0]]);
        if Commutes(p, v, q, w, t) {
          CommutesBelow(p, v, q, w, m);
          assert false;
        }
      }
    case Arr(a) =>
      var i :| 0 <= i < |a| && !Apart(Down(p), Down(q), a[i]);
      ListStep(p, v, a);
      ListStep(q, w, a);
      NumbersConflict(Down(p), Down(q), a[i]);
      ListStep(q, w, After(p, v, t).elems);
      ListStep(p, v, After(q, w, t).elems);
    case _ =>
  }

  /** Being apart is exactly what makes the order irrelevant whatever two paths are mapped to,
      unless one of the paths cannot be walked through the object at all. */
  lemma ApartIff(p: Path, q: Path, t: Value)
    requires p != [] && q != []
    ensures (Passes(p, Number("1"), t) && Passes(q, Number("2"), t) ==> Apart(p, q, t))
            <==> forall v, w | Passes(p, v, t) && Passes(q, w, t) :: Commutes(p, v, q, w, t)
  {
    Numbers();
    if Apart(p, q, t) || !Passes(p, Number("1"), t) || !Passes(q, Number("2"), t) {
      forall v, w | Passes(p, v, t) && Passes(q, w, t) ensures Commutes(p, v, q, w, t) {
        NumberPasses(p, v, t, Number("1"));
        NumberPasses(q, w, t, Number("2"));
        Commute(p, v, q, w, t);
      }
    } else {
      NumbersConflict(p, q, t);
    }
  }

  /** That the written locations lie apart is not enough: here the second rule writes nothing,
      and whether it passes still depends on the order. */
  lemma WritesApartIsNotEnough()
    ensures var p, q, t := ["spec", "replicas"], ["spec", "replicas", "x"], Obj(map["spec" := Obj(map[])]);
            && (forall x, y :: !(Writes(p, t, x) && Writes(q, t, y) && Comparable(x, y)))
            && Passes(p, Number("1"), t) && Passes(q, Number("1"), t)
            && Passes(p, Number("1"), After(q, Number("1"), t))
            && !Passes(q, Number("1"), After(p, Number("1"), t))
  {
    Numbers();
    var p, q, t := ["spec", "replicas"], ["spec", "replicas", "x"], Obj(map["spec" := Obj(map[])]);
    assert p[1..] == ["replicas"] && q[1..] == ["replicas", "x"] && q[1..][1..] == ["x"];
    assert After(p, Number("1"), t) == Obj(map["spec" := Obj(map["replicas" := Int(1)])]);
  }

  /** What a rule does to a map depends on, and changes, one key only. */
  lemma KeyOnly(p: Path, v: VariableMapping, m: map<string, Value>, n: map<string, Value>)
    requires p != []
    requires p[0] in m <==> p[0] in n
    requires p[0] in m ==> m[p[0]] == n[p[0]]
    ensures Passes(p, v, Obj(m)) <==> Passes(p, v, Obj(n))
    ensures Passes(p, v, Obj(m)) ==>
            var a, b := After(p, v, Obj(m)).fields, After(p, v, Obj(n)).fields;
            && (forall k | k != p[0] :: (k in a <==> k in m) && (k in m ==> a[k] == m[k]))
            && (p[0] in a <==> p[0] in b) && (p[0] in a ==> a[p[0]] == b[p[0]])
  {
  }

  lemma CommuteAcross(p: Path, v: VariableMapping, q: Path, w: VariableMapping, m: map<string, Value>)
    requires p != [] && q != [] && p[0] != q[0]
    requires Passes(p, v, Obj(m)) && Passes(q, w, Obj(m))
    ensures Passes(q, w, After(p, v, Obj(m))) && Passes(p, v, After(q, w, Obj(m)))
    ensures After(q, w, After(p, v, Obj(m))) == After(p, v, After(q, w, Obj(m)))
  {
    var a, b := After(p, v, Obj(m)).fields, After(q, w, Obj(m)).fields;
    KeyOnly(p, v, m, m);
    KeyOnly(q, w, m, m);
    KeyOnly(q, w, a, m);
    KeyOnly(p, v, b, m);
    var x, y := After(q, w, Obj(a)).fields, After(p, v, Obj(b)).fields;
    forall k ensures (k in x <==> k in y) && (k in x ==> x[k] == y[k]) {
      assert k != p[0] || k != q[0];
    }
    assert x == y;
  }

  /** A rule that does not pass is not helped by another one. */
  lemma {:induction false} StillFails(p: Path, v: VariableMapping, q: Path, w: VariableMapping, t: Value)
    requires p != [] && q != []
    requires Passes(p, v, t) && !Passes(q, w, t)
    ensures !Passes(q, w, After(p, v, t))
    decreases t
  {
    match t
    case Obj(m) =>
      if p[0] == q[0] {
        if |p| > 1 && |q| > 1 && p[0] in m {
          StillFails(p[1..], v, q[1..], w, m[p[0]]);
        } else if |p| == 1 && |q| > 1 {
          var written := After(p, v, t).fields[p[0]];
          assert !written.Obj? && !written.Arr?;
          assert !Passes(q[1..], w, written);
        } else if |p| > 1 && p[0] in m {
          assert Passes(p[1..], v, m[p[0]]);
          assert m[p[0]].Obj? || m[p[0]].Arr?;
        }
      } else {
        KeyOnly(p, v, m, m);
        KeyOnly(q, w, m, After(p, v, t).fields);
      }
    case Arr(a) =>
      ListStep(p, v, a);
      ListStep(q, w, a);
      var pa := After(p, v, t).elems;
      var i :| 0 <= i < |a| && !((|q| > 1 || a[i].Obj?) && Passes(Down(q), w, a[i]));
      if |q| > 1 || a[i].Obj? {
        StillFails(Down(p), v, Down(q), w, a[i]);
      } else {
        SameNode(Down(p), v, a[i]);
      }
      ListStep(q, w, pa);
    case _ =>
  }

  lemma SameNode(p: Path, v: VariableMapping, t: Value)
    requires p != []
    ensures After(p, v, t).Obj? <==> t.Obj?
  {
  }

  /** Applying one rule does not bring two others together. */
  lemma {:induction false} ApartStable(r: Path, u: VariableMapping, p: Path, q: Path, t: Value)
    requires r != [] && p != [] && q != []
    requires Apart(p, q, t) && Apart(r, p, t) && Apart(r, q, t)
    requires Passes(r, u, t)
    ensures Apart(p, q, After(r, u, t))
    decreases t
  {
    match t
    case Obj(m) =>
      if p[0] == q[0] {
        if p[0] == r[0] {
          if p[0] in m {
            ApartStable(r[1..], u, p[1..], q[1..], m[p[0]]);
          }
        } else {
          KeyOnly(r, u, m, m);
        }
      }
    case Arr(a) =>
      ListStep(r, u, a);
      var b := After(r, u, t).elems;
      forall i | 0 <= i < |a| ensures Apart(Down(p), Down(q), b[i]) {
        ApartStable(Down(r), u, Down(p), Down(q), a[i]);
      }
    case _ =>
  }

  // ---------------------------------------------------------------------
  // Running one rule twice
  // ---------------------------------------------------------------------

  /** No string the rule rewrites still contains what the rule looks for. */
  ghost predicate StringsSettle(path: Path, v: VariableMapping, t: Value)
    requires path != []
  {
    v.variableType.StrVar? ==>
      forall at: Location, s | Writes(path, t, at) && Probe(t, at) == Some(Leaf(Str(s))) ::
        v.fromSubStr == v.toSubStr || !Contains(ReplaceFirst(s, v.fromSubStr, v.toSubStr), v.fromSubStr)
  }

  ghost predicate Idempotent(path: Path, v: VariableMapping, t: Value) {
    && Passes(path, v, t)
    && Iterate(path, v, After(path, v, t)) == Iterate(path, v, t)
  }

  lemma SettleChild(path: Path, v: VariableMapping, t: Value, hop: Hop, down: Path, child: Value)
    requires path != [] && down != []
    requires Child(t, hop) == Some(child)
    requires forall below :: Writes(path, t, [hop] + below) <==> Writes(down, child, below)
    requires StringsSettle(path, v, t)
    ensures StringsSettle(down, v, child)
  {
    forall at: Location, s | Writes(down, child, at) && Probe(child, at) == Some(Leaf(Str(s)))
      ensures Writes(path, t, [hop] + at) && Probe(t, [hop] + at) == Some(Leaf(Str(s)))
    {
      ProbeChild(t, hop, at);
    }
  }

  /** A rule that passed changes nothing when run again, exactly when its strings settle. */
  lemma {:induction false} TwiceIsOnce(path: Path, v: VariableMapping, t: Value)
    requires path != [] && Passes(path, v, t)
    ensures Passes(path, v, After(path, v, t))
    ensures Idempotent(path, v, t) <==> StringsSettle(path, v, t)
    decreases t
  {
    match t
    case Obj(m) =>
      if |path| == 1 {
        TwiceAtKey(path, v, m);
      } else if path[0] in m {
        var child := m[path[0]];
        TwiceIsOnce(path[1..], v, child);
        forall below ensures Writes(path, t, [Key(path[0])] + below) <==> Writes(path[1..], child, below) {
          assert ([Key(path[0])] + below)[1..] == below;
        }
        if StringsSettle(path, v, t) {
          SettleChild(path, v, t, Key(path[0]), path[1..], child);
        }
        var once := After(path, v, t).fields;
        assert once[path[0]] == After(path[1..], v, child);
        if Idempotent(path, v, t) {
          assert After(path, v, Obj(once)).fields[path[0]] == once[path[0]];
          assert StringsSettle(path[1..], v, child);
          forall at: Location, s | Writes(path, t, at) && Probe(t, at) == Some(Leaf(Str(s)))
            ensures Writes(path[1..], child, at[1..]) && Probe(child, at[1..]) == Some(Leaf(Str(s)))
          {
          }
        } else {
          assert After(path, v, Obj(once)) == Obj(once[path[0] := After(path[1..], v, once[path[0]])]);
        }
      }
    case Arr(a) =>
      TwiceInList(path, v, a);
    case _ =>
  }

  lemma TwiceAtKey(path: Path, v: VariableMapping, m: map<string, Value>)
    requires |path| == 1 && Passes(path, v, Obj(m))
    ensures Passes(path, v, After(path, v, Obj(m)))
    ensures Idempotent(path, v, Obj(m)) <==> StringsSettle(path, v, Obj(m))
  {
    var at := [Key(path[0])];
    assert forall x | Writes(path, Obj(m), x) :: x == at;
    assert Writes(path, Obj(m), at);
    ProbeKey(Obj(m), path[0], at);
    if v.variableType.StrVar? && path[0] in m {
      var s := m[path[0]].s;
      ReplaceStable(ReplaceFirst(s, v.fromSubStr, v.toSubStr), v.fromSubStr, v.toSubStr);
      var twice := After(path, v, After(path, v, Obj(m))).fields[path[0]];
      assert twice.s == ReplaceFirst(ReplaceFirst(s, v.fromSubStr, v.toSubStr), v.fromSubStr, v.toSubStr);
      assert Probe(Obj(m), at) == Some(Leaf(Str(s)));
    }
  }

  lemma {:induction false} TwiceInList(path: Path, v: VariableMapping, a: seq<Value>)
    requires path != [] && Passes(path, v, Arr(a))
    ensures Passes(path, v, After(path, v, Arr(a)))
    ensures Idempotent(path, v, Arr(a)) <==> StringsSettle(path, v, Arr(a))
    decreases Arr(a), 0
  {
    var t := Arr(a);
    ListStep(path, v, a);
    var b := After(path, v, t).elems;
    forall i | 0 <= i < |a|
      ensures Passes(Down(path), v, b[i])
      ensures Idempotent(Down(path), v, a[i]) <==> StringsSettle(Down(path), v, a[i])
      ensures forall below :: Writes(path, t, [Index(i)] + below) <==> Writes(Down(path), a[i], below)
    {
      TwiceIsOnce(Down(path), v, a[i]);
      forall below ensures Writes(path, t, [Index(i)] + below) <==> Writes(Down(path), a[i], below) {
        assert ([Index(i)] + below)[1..] == below;
      }
    }
    ListStep(path, v, b);
    var c := After(path, v, Arr(b)).elems;
    if StringsSettle(path, v, t) {
      forall i | 0 <= i < |a| ensures c[i] == b[i] {
        SettleChild(path, v, t, Index(i), Down(path), a[i]);
      }
      assert c == b;
    }
    if Idempotent(path, v, t) {
      assert c == b;
      forall at: Location, s | Writes(path, t, at) && Probe(t, at) == Some(Leaf(Str(s)))
        ensures at[0].Index? && at[0].index < |a|
        ensures StringsSettle(Down(path), v, a[at[0].index])
        ensures Writes(Down(path), a[at[0].index], at[1..]) && Probe(a[at[0].index], at[1..]) == Some(Leaf(Str(s)))
      {
      }
    }
  }

  /** A rule stays idempotent when a rule that is apart from it runs first. */
  lemma {:induction false} IdempotentKept(p: Path, v: VariableMapping, q: Path, w: VariableMapping, t: Value)
    requires p != [] && q != [] && Apart(p, q, t)
    requires Idempotent(p, v, t) && Passes(q, w, t)
    ensures Idempotent(p, v, After(q, w, t))
    decreases t
  {
    Commute(p, v, q, w, t);
    match t
    case Obj(m) =>
      if p[0] == q[0] {
        if p[0] in m {
          var once := After(p, v, t).fields;
          assert After(p, v, Obj(once)).fields[p[0]] == After(p[1..], v, once[p[0]]);
          IdempotentKept(p[1..], v, q[1..], w, m[p[0]]);
        }
      } else {
        var n := After(q, w, t).fields;
        KeyOnly(q, w, m, m);
        KeyOnly(p, v, m, n);
        KeyOnly(p, v, n, n);
        var a, b := After(p, v, Obj(m)).fields, After(p, v, Obj(n)).fields;
        KeyOnly(p, v, b, a);
        KeyOnly(p, v, a, b);
        assert After(p, v, Obj(b)).fields == b;
      }
    case Arr(a) =>
      ListStep(p, v, a);
      ListStep(q, w, a);
      var pa, qa := After(p, v, t).elems, After(q, w, t).elems;
      ListStep(p, v, pa);
      forall i | 0 <= i < |a| ensures Idempotent(Down(p), v, qa[i]) {
        assert After(Down(p), v, pa[i]) == After(p, v, Arr(pa)).elems[i] == pa[i];
        IdempotentKept(Down(p), v, Down(q), w, a[i]);
      }
      ListStep(p, v, qa);
      var once := After(p, v, Arr(qa)).elems;
      ListStep(p, v, once);
      assert After(p, v, Arr(once)).elems == once;
    case _ =>
  }

  // ---------------------------------------------------------------------
  // Where a path leads after rules have run
  // ---------------------------------------------------------------------

  /** A rule leads a path that is apart from it to the same locations, and leaves what is there. */
  lemma {:induction false} WritesKept(p: Path, q: Path, w: VariableMapping, t: Value, at: Location)
    requires p != [] && q != [] && Apart(p, q, t) && Passes(q, w, t) && Writes(p, t, at)
    ensures Writes(p, After(q, w, t), at)
    decreases t
  {
    match t
    case Obj(m) =>
      if p[0] == q[0] {
        WritesKept(p[1..], q[1..], w, m[p[0]], at[1..]);
      } else {
        KeyOnly(q, w, m, m);
      }
    case Arr(a) =>
      ListStep(q, w, a);
      WritesKept(Down(p), Down(q), w, a[at[0].index], at[1..]);
    case _ =>
  }

  lemma ContentsKept(p: Path, q: Path, w: VariableMapping, t: Value, at: Location)
    requires p != [] && q != [] && Apart(p, q, t) && Passes(q, w, t) && Writes(p, t, at)
    ensures Probe(After(q, w, t), at) == Probe(t, at)
  {
    IterateExact(q, w, t, at);
    forall k: nat | k <= |at| ensures !Writes(q, t, at[..k]) {
      if Writes(q, t, at[..k]) {
        WritesStops(q, t, at[..k]);
        ApartNoClash(p, q, t, at, at[..k]);
      }
    }
    assert at[..|at|] == at;
  }

  /** A rule leads its own path to the same locations again. */
  lemma {:induction false} WritesAgain(p: Path, v: VariableMapping, t: Value, at: Location)
    requires p != [] && Passes(p, v, t) && Writes(p, t, at)
    ensures Writes(p, After(p, v, t), at)
    decreases t
  {
    match t
    case Obj(m) =>
      if |p| > 1 {
        WritesAgain(p[1..], v, m[p[0]], at[1..]);
      }
    case Arr(a) =>
      ListStep(p, v, a);
      WritesAgain(Down(p), v, a[at[0].index], at[1..]);
    case _ =>
  }

  /** A rule does not bring its own path together with one it is apart from. */
  lemma {:induction false} ApartAgain(p: Path, v: VariableMapping, q: Path, t: Value)
    requires p != [] && q != [] && Apart(p, q, t) && Passes(p, v, t)
    ensures Apart(p, q, After(p, v, t))
    decreases t
  {
    match t
    case Obj(m) =>
      if p[0] == q[0] && p[0] in m {
        ApartAgain(p[1..], v, q[1..], m[p[0]]);
      }
    case Arr(a) =>
      ListStep(p, v, a);
      var b := After(p, v, t).elems;
      forall i | 0 <= i < |a| ensures Apart(Down(p), Down(q), b[i]) {
        ApartAgain(Down(p), v, Down(q), a[i]);
      }
    case _ =>
  }
}
