/** What one rule of the mapping filter writes, location by location. */
module MappingLaws {
  import opened Wrappers
  import opened Json
  import opened Strconv
  import opened ApiTypes
  import opened VariableMappingFilter

  /** The path an element of a list is entered with. */
  function Down(path: Path): (r: Path)
    requires path != []
    ensures r != []
  {
    if |path| == 1 then path else path[1..]
  }

  /** A passing list is a list of passing elements, each entered with `Down(path)`. */
  lemma {:induction false} ListPasses(path: Path, v: VariableMapping, a: seq<Value>)
    requires path != []
    ensures IterateElements(path, v, a).1 == Passed <==>
            forall i | 0 <= i < |a| :: IterateElement(path, v, a[i]).verdict == Passed
    ensures IterateElements(path, v, a).1 == Passed ==>
            forall i | 0 <= i < |a| :: IterateElements(path, v, a).0[i] == IterateElement(path, v, a[i]).tree
  {
    if a != [] {
      ListPasses(path, v, a[1..]);
      assert forall i | 0 < i < |a| :: a[i] == a[1..][i - 1];
    }
  }

  lemma ElementIsIterate(path: Path, v: VariableMapping, e: Value)
    requires path != []
    ensures |path| > 1 || e.Obj? ==> IterateElement(path, v, e) == Iterate(Down(path), v, e)
    ensures IterateElement(path, v, e).verdict == Passed ==> |path| > 1 || e.Obj?
  {
  }

  // ---------------------------------------------------------------------
  // What one rule writes
  // ---------------------------------------------------------------------

  /** `at` is one of the locations the path resolves to in `t`, where the value is written. */
  ghost predicate Writes(path: Path, t: Value, at: Location)
    requires path != []
    decreases t
  {
    at != [] &&
    match t
    case Obj(m) =>
      at[0] == Key(path[0]) &&
      if |path| == 1 then |at| == 1 else path[0] in m && Writes(path[1..], m[path[0]], at[1..])
    case Arr(a) =>
      at[0].Index? && at[0].index < |a| && Writes(Down(path), a[at[0].index], at[1..])
    case _ => false
  }

  /** `at` is where one branch of the walk along the path ends: a write, a missing key,
      an empty list, or a value that is neither map nor list. */
  ghost predicate Stops(path: Path, t: Value, at: Location)
    requires path != []
    decreases t
  {
    match t
    case Obj(m) =>
      at != [] && at[0] == Key(path[0]) &&
      if |path| == 1 || path[0] !in m then |at| == 1 else Stops(path[1..], m[path[0]], at[1..])
    case Arr(a) =>
      if a == [] then at == []
      else at != [] && at[0].Index? && at[0].index < |a| && Stops(Down(path), a[at[0].index], at[1..])
    case _ => at == []
  }

  ghost predicate Under(path: Path, t: Value, at: Location)
    requires path != []
  {
    exists k: nat | k < |at| :: Writes(path, t, at[..k])
  }

  /** What a rule puts at a location it writes, given what was there. */
  ghost function Rewritten(v: VariableMapping, was: Option<Shape>): Option<Shape> {
    if v.variableType.StrVar? then
      match was
      case Some(Leaf(Str(s))) => Some(Leaf(Str(ReplaceFirst(s, v.fromSubStr, v.toSubStr))))
      case _ => None
    else match Constant(v)
      case Some(c) => Some(Leaf(c))
      case None => None
  }

  /** The tree after a passing rule, location by location: rewritten where the path resolves,
      gone below such a location, and as before everywhere else. */
  ghost function Expected(path: Path, v: VariableMapping, t: Value, at: Location): Option<Shape>
    requires path != []
  {
    if Writes(path, t, at) then Rewritten(v, Probe(t, at))
    else if Under(path, t, at) then None
    else Probe(t, at)
  }

  lemma UnderChild(path: Path, t: Value, at: Location, childPath: Path, child: Value)
    requires path != [] && childPath != [] && at != []
    requires forall below :: Writes(path, t, [at[0]] + below) <==> Writes(childPath, child, below)
    requires !Writes(path, t, [])
    ensures Under(path, t, at) <==> Under(childPath, child, at[1..])
  {
    if Under(path, t, at) {
      var k: nat :| k < |at| && Writes(path, t, at[..k]);
      assert k > 0 && at[..k] == [at[0]] + at[1..][..k - 1];
      assert Writes(childPath, child, at[1..][..k - 1]);
    }
    if Under(childPath, child, at[1..]) {
      var k: nat :| k < |at[1..]| && Writes(childPath, child, at[1..][..k]);
      assert at[..k + 1] == [at[0]] + at[1..][..k];
      assert Writes(path, t, at[..k + 1]);
    }
  }

  lemma ExpectedChild(path: Path, v: VariableMapping, t: Value, at: Location, childPath: Path, child: Value)
    requires path != [] && childPath != [] && at != []
    requires Child(t, at[0]) == Some(child)
    requires forall below :: Writes(path, t, [at[0]] + below) <==> Writes(childPath, child, below)
    requires !Writes(path, t, [])
    ensures Expected(path, v, t, at) == Expected(childPath, v, child, at[1..])
  {
    assert at == [at[0]] + at[1..];
    UnderChild(path, t, at, childPath, child);
  }

  lemma NoneBelow(path: Path, t: Value, at: Location)
    requires path != [] && at != []
    requires forall below :: !Writes(path, t, [at[0]] + below)
    requires !Writes(path, t, [])
    ensures !Writes(path, t, at) && !Under(path, t, at)
  {
    assert at == [at[0]] + at[1..];
    forall k: nat | k < |at| ensures !Writes(path, t, at[..k]) {
      if k > 0 {
        assert at[..k] == [at[0]] + at[1..][..k - 1];
      }
    }
  }

  lemma ProbeKey(t: Value, k: string, at: Location)
    requires t.Obj? && at != [] && at[0] == Key(k)
    ensures k !in t.fields ==> Probe(t, at) == None
    ensures k in t.fields && |at| == 1 ==> Probe(t, at) == Some(ShapeOf(t.fields[k]))
    ensures k in t.fields && |at| > 1 && !t.fields[k].Obj? && !t.fields[k].Arr? ==> Probe(t, at) == None
  {
    if k in t.fields {
      assert Probe(t, at) == Probe(t.fields[k], at[1..]);
    }
  }

  /** A rule that passes changes exactly the locations its path resolves to. */
  lemma {:induction false} IterateExact(path: Path, v: VariableMapping, t: Value, at: Location)
    requires path != [] && Iterate(path, v, t).verdict == Passed
    ensures Probe(Iterate(path, v, t).tree, at) == Expected(path, v, t, at)
    decreases t
  {
    var r := Iterate(path, v, t).tree;
    if at == [] {
      assert !Under(path, t, at);
    } else {
      match t
      case Obj(m) =>
        if at[0] != Key(path[0]) {
          NoneBelow(path, t, at);
        } else if |path| == 1 {
          ProbeKey(t, path[0], at);
          ProbeKey(Iterate(path, v, t).tree, path[0], at);
          if |at| > 1 {
            assert Writes(path, t, at[..1]);
          }
        } else if path[0] in m {
          var child := m[path[0]];
          forall below ensures Writes(path, t, [at[0]] + below) <==> Writes(path[1..], child, below) {
            assert ([at[0]] + below)[1..] == below;
          }
          ExpectedChild(path, v, t, at, path[1..], child);
          IterateExact(path[1..], v, child, at[1..]);
        } else {
          NoneBelow(path, t, at);
        }
      case Arr(a) =>
        ListPasses(path, v, a);
        if at[0].Index? && at[0].index < |a| {
          var child := a[at[0].index];
          ElementIsIterate(path, v, child);
          forall below ensures Writes(path, t, [at[0]] + below) <==> Writes(Down(path), child, below) {
            assert ([at[0]] + below)[1..] == below;
          }
          ExpectedChild(path, v, t, at, Down(path), child);
          IterateExact(Down(path), v, child, at[1..]);
        } else {
          NoneBelow(path, t, at);
        }
    }
  }

  /** So the resulting tree is the only one with those contents. */
  lemma IterateRefinesUpdate(path: Path, v: VariableMapping, t: Value, u: Value)
    requires path != [] && Iterate(path, v, t).verdict == Passed
    ensures u == Iterate(path, v, t).tree <==> forall at :: Probe(u, at) == Expected(path, v, t, at)
  {
    var r := Iterate(path, v, t).tree;
    forall at ensures Probe(r, at) == Expected(path, v, t, at) {
      IterateExact(path, v, t, at);
    }
    if forall at :: Probe(u, at) == Expected(path, v, t, at) {
      SameProbesSameTree(u, r);
    }
  }

  /** Nothing hangs below a leaf or below nothing. */
  lemma {:induction false} NothingBelow(t: Value, at: Location, k: nat)
    requires k < |at| && (Probe(t, at[..k]).None? || Probe(t, at[..k]).value.Leaf?)
    ensures Probe(t, at) == None
  {
    if k > 0 {
      assert at[..k][1..] == at[1..][..k - 1];
      match Child(t, at[0])
      case None =>
      case Some(c) => NothingBelow(c, at[1..], k - 1);
    }
  }

  /** A string rule that passes meets a string, or nothing, wherever it writes. */
  lemma {:induction false} MeetsStrings(path: Path, v: VariableMapping, t: Value, at: Location)
    requires path != [] && v.variableType.StrVar? && Iterate(path, v, t).verdict == Passed && Writes(path, t, at)
    ensures Probe(t, at).None? || (Probe(t, at).value.Leaf? && Probe(t, at).value.value.Str?)
    decreases t
  {
    match t
    case Obj(m) =>
      if |path| == 1 {
        ProbeKey(t, path[0], at);
      } else {
        MeetsStrings(path[1..], v, m[path[0]], at[1..]);
      }
    case Arr(a) =>
      ListPasses(path, v, a);
      ElementIsIterate(path, v, a[at[0].index]);
      MeetsStrings(Down(path), v, a[at[0].index], at[1..]);
    case _ =>
  }

  /** A passing rule removes nothing but what hung below a location it overwrites, and adds nothing
      but the locations it writes; a string rule does neither. */
  lemma ShapeKept(path: Path, v: VariableMapping, t: Value, at: Location)
    requires path != [] && Iterate(path, v, t).verdict == Passed
    ensures var r := Iterate(path, v, t).tree;
            && (Probe(r, at).Some? && Probe(t, at).None? ==> Writes(path, t, at) && !v.variableType.StrVar?)
            && (Probe(r, at).None? && Probe(t, at).Some? ==> Under(path, t, at) && !v.variableType.StrVar?)
  {
    IterateExact(path, v, t, at);
    if Writes(path, t, at) {
      if v.variableType.StrVar? {
        MeetsStrings(path, v, t, at);
      } else {
        ConstantWhereWritten(path, v, t, at);
      }
    } else if Under(path, t, at) && v.variableType.StrVar? {
      var k: nat :| k < |at| && Writes(path, t, at[..k]);
      MeetsStrings(path, v, t, at[..k]);
      NothingBelow(t, at, k);
    }
  }

  /** A passing rule that writes at all has something to write. */
  lemma {:induction false} ConstantWhereWritten(path: Path, v: VariableMapping, t: Value, at: Location)
    requires path != [] && Iterate(path, v, t).verdict == Passed && Writes(path, t, at)
    ensures v.variableType.StrVar? || Constant(v).Some?
    decreases t
  {
    match t
    case Obj(m) =>
      if |path| > 1 {
        ConstantWhereWritten(path[1..], v, m[path[0]], at[1..]);
      }
    case Arr(a) =>
      ListPasses(path, v, a);
      ElementIsIterate(path, v, a[at[0].index]);
      ConstantWhereWritten(Down(path), v, a[at[0].index], at[1..]);
    case _ =>
  }

  /** `r` is `s` with its first occurrence of `from` replaced by `to`, if it has one. */
  ghost predicate ReplacedOnce(s: string, from: string, to: string, r: string) {
    && (forall i: nat | FirstAt(s, from, i) :: r == s[..i] + to + s[i + |from|..])
    && (!Contains(s, from) ==> r == s)
  }

  /** A string rule meets a string wherever it writes something, and leaves it as it is but for the
      first occurrence of what it looks for. */
  lemma StringWritten(path: Path, v: VariableMapping, t: Value, at: Location) returns (s: string, r: string)
    requires path != [] && v.variableType.StrVar? && Iterate(path, v, t).verdict == Passed
    requires Writes(path, t, at) && Probe(t, at).Some?
    ensures Probe(t, at) == Some(Leaf(Str(s)))
    ensures Probe(Iterate(path, v, t).tree, at) == Some(Leaf(Str(r)))
    ensures ReplacedOnce(s, v.fromSubStr, v.toSubStr, r)
  {
    MeetsStrings(path, v, t, at);
    IterateExact(path, v, t, at);
    s := Probe(t, at).value.value.s;
    r := ReplaceFirst(s, v.fromSubStr, v.toSubStr);
    ReplaceFirstExact(s, v.fromSubStr, v.toSubStr);
  }

  /** Any other rule writes the value its replacement spells, whatever was there. */
  lemma ConstantWritten(path: Path, v: VariableMapping, t: Value, at: Location) returns (x: Value)
    requires path != [] && !v.variableType.StrVar? && Iterate(path, v, t).verdict == Passed && Writes(path, t, at)
    ensures Probe(Iterate(path, v, t).tree, at) == Some(Leaf(x))
    ensures match v.variableType
            case BoolVar => x.Bool? && exists w | w in Words(x.b) :: w != "" && v.toSubStr in Spellings(w)
            case IntVar =>
              && x.Int? && SignedNumeral(v.toSubStr) && MIN_INT64 <= x.i <= MAX_INT64
              && x.i == (if Negative(v.toSubStr) then -(Horner(Unsigned(v.toSubStr), 0) as int)
                         else Horner(Unsigned(v.toSubStr), 0))
            case FloatVar => x.Float? && v.floatValue == Some(x.f)
            case _ => false
  {
    IterateExact(path, v, t, at);
    ConstantWhereWritten(path, v, t, at);
    x := Constant(v).value;
    match v.variableType
    case BoolVar => ParseBoolIff(v.toSubStr, x.b);
    case IntVar =>
      if SignedNumeral(v.toSubStr) {
        AtoiSaturates(v.toSubStr);
      } else {
        AtoiMalformed(v.toSubStr);
      }
    case _ =>
  }

  // ---------------------------------------------------------------------
  // When a rule passes
  // ---------------------------------------------------------------------

  /** The walk comes to a value it cannot go through: neither map nor list, or an element of a list that
      is no map while only one component is left. */
  ghost predicate Blocked(path: Path, t: Value, at: Location)
    requires path != []
    decreases t
  {
    match t
    case Obj(m) =>
      at != [] && at[0] == Key(path[0]) && |path| > 1 && path[0] in m && Blocked(path[1..], m[path[0]], at[1..])
    case Arr(a) =>
      at != [] && at[0].Index? && at[0].index < |a| &&
      if |path| == 1 && !a[at[0].index].Obj? then |at| == 1 else Blocked(Down(path), a[at[0].index], at[1..])
    case _ => at == []
  }

  /** What the rule may meet where it writes: a string rule a string or nothing, any other one, if its
      replacement can be read, anything. */
  ghost predicate Writable(v: VariableMapping, was: Option<Shape>) {
    if v.variableType.StrVar? then was.None? || (was.value.Leaf? && was.value.value.Str?) else Constant(v).Some?
  }

  ghost predicate GoesThrough(path: Path, v: VariableMapping, t: Value)
    requires path != []
  {
    && (forall at :: !Blocked(path, t, at))
    && (forall at | Writes(path, t, at) :: Writable(v, Probe(t, at)))
  }

  lemma ThroughKey(path: Path, v: VariableMapping, t: Value)
    requires |path| > 1 && t.Obj? && path[0] in t.fields
    ensures GoesThrough(path, v, t) <==> GoesThrough(path[1..], v, t.fields[path[0]])
  {
    var child := t.fields[path[0]];
    forall below
      ensures Blocked(path, t, [Key(path[0])] + below) <==> Blocked(path[1..], child, below)
      ensures Writes(path, t, [Key(path[0])] + below) <==> Writes(path[1..], child, below)
      ensures Probe(t, [Key(path[0])] + below) == Probe(child, below)
    {
      assert ([Key(path[0])] + below)[1..] == below;
    }
    if GoesThrough(path[1..], v, child) {
      forall at: Location ensures !Blocked(path, t, at) {
        assert at != [] && at[0] == Key(path[0]) ==> at == [Key(path[0])] + at[1..];
      }
      forall at: Location | Writes(path, t, at) ensures Writable(v, Probe(t, at)) {
        assert at == [Key(path[0])] + at[1..];
      }
    }
  }

  lemma ThroughElements(path: Path, v: VariableMapping, a: seq<Value>)
    requires path != []
    ensures GoesThrough(path, v, Arr(a)) <==>
              forall i: nat | i < |a| :: (|path| > 1 || a[i].Obj?) && GoesThrough(Down(path), v, a[i])
  {
    var t := Arr(a);
    forall i: nat, below | i < |a|
      ensures |path| > 1 || a[i].Obj? ==>
                (Blocked(path, t, [Index(i)] + below) <==> Blocked(Down(path), a[i], below))
      ensures Writes(path, t, [Index(i)] + below) <==> Writes(Down(path), a[i], below)
      ensures Probe(t, [Index(i)] + below) == Probe(a[i], below)
    {
      assert ([Index(i)] + below)[1..] == below;
    }
    if GoesThrough(path, v, t) {
      forall i: nat | i < |a| ensures (|path| > 1 || a[i].Obj?) && GoesThrough(Down(path), v, a[i]) {
        assert !Blocked(path, t, [Index(i)] + []);
      }
    }
    if forall i: nat | i < |a| :: (|path| > 1 || a[i].Obj?) && GoesThrough(Down(path), v, a[i]) {
      forall at: Location ensures !Blocked(path, t, at) {
        if at != [] && at[0].Index? {
          assert at == [Index(at[0].index)] + at[1..];
        }
      }
      forall at: Location | Writes(path, t, at) ensures Writable(v, Probe(t, at)) {
        assert at == [Index(at[0].index)] + at[1..];
      }
    }
  }

  /** A rule passes exactly if nothing blocks its walk, and it may write wherever it comes to. */
  lemma {:induction false} PassesIff(path: Path, v: VariableMapping, t: Value)
    requires path != []
    ensures Iterate(path, v, t).verdict == Passed <==> GoesThrough(path, v, t)
    decreases t
  {
    match t
    case Obj(m) =>
      if |path| == 1 {
        forall at: Location | Writes(path, t, at) ensures at == [Key(path[0])] {
        }
        assert Writes(path, t, [Key(path[0])]);
        ProbeKey(t, path[0], [Key(path[0])]);
      } else if path[0] in m {
        ThroughKey(path, v, t);
        PassesIff(path[1..], v, m[path[0]]);
      }
    case Arr(a) =>
      ListPasses(path, v, a);
      ThroughElements(path, v, a);
      forall i: nat | i < |a|
        ensures IterateElement(path, v, a[i]).verdict == Passed <==>
                  (|path| > 1 || a[i].Obj?) && GoesThrough(Down(path), v, a[i])
      {
        ElementIsIterate(path, v, a[i]);
        PassesIff(Down(path), v, a[i]);
      }
    case _ =>
      assert Blocked(path, t, []);
  }
}
