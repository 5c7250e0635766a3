/**
 `pkg/filter/variablemappingfilter/filter.go`: rewriting values inside an object
 along configured key paths.

 The functions specify what one call does to the tree, including what it has
 already rewritten when it fails; the methods below carry out the loops of the
 source and are proved against them.
 */
module VariableMappingFilter {
  import opened Wrappers
  import opened Json
  import opened Strconv
  import opened ApiTypes

  /** The tree a call leaves behind, and how the call ended. */
  datatype Outcome = Outcome(tree: Value, verdict: Verdict)

  /** The value a non-string mapping writes; None when `ToSubStr` does not parse. */
  function Constant(v: VariableMapping): Option<Value> {
    match v.variableType
    case StrVar => None
    case BoolVar => (match ParseBool(v.toSubStr) case None => None case Some(b) => Some(Bool(b)))
    case IntVar => (var r := Atoi(v.toSubStr); if r.1 then Some(Int(r.0)) else None)
    case FloatVar => (match v.floatValue case None => None case Some(f) => Some(Float(f)))
    case UnsupportedVar => None
  }

  function SetMappingValue(v: VariableMapping, key: string, m: map<string, Value>): (r: Outcome)
    ensures r.tree.Obj?
  {
    if v.variableType.StrVar? then
      if key !in m then Outcome(Obj(m), Passed)
      else if m[key].Str? then
        Outcome(Obj(m[key := Str(ReplaceFirst(m[key].s, v.fromSubStr, v.toSubStr))]), Passed)
      else Outcome(Obj(m), Failed)
    else match Constant(v)
      case None => Outcome(Obj(m), Failed)
      case Some(c) => Outcome(Obj(m[key := c]), Passed)
  }

  /** `iteratePath`. A list consumes one component, unless it is the last one:
      then that component is a key of each element. */
  function Iterate(path: Path, v: VariableMapping, t: Value): (r: Outcome)
    ensures t.Obj? ==> r.tree.Obj?
    ensures t.Arr? ==> r.tree.Arr?
    decreases |path|, 2, 0
  {
    match t
    case Null => Outcome(t, Panicked)
    case Obj(m) =>
      if path == [] then Outcome(t, Panicked)
      else if |path| == 1 then SetMappingValue(v, path[0], m)
      else if path[0] !in m then Outcome(t, Passed)
      else
        var r := Iterate(path[1..], v, m[path[0]]);
        Outcome(Obj(m[path[0] := r.tree]), r.verdict)
    case Arr(a) =>
      var r := IterateElements(path, v, a);
      Outcome(Arr(r.0), r.1)
    case _ => Outcome(t, Failed)
  }

  /** The body of the loop over a list. */
  function IterateElement(path: Path, v: VariableMapping, e: Value): Outcome
    decreases |path|, 0, 0
  {
    if e.Null? || path == [] then Outcome(e, Panicked)
    else if |path| > 1 then Iterate(path[1..], v, e)
    else if e.Obj? then SetMappingValue(v, path[0], e.fields)
    else Outcome(e, Failed)
  }

  /** The loop over a list: elements before the first failure stay rewritten. */
  function IterateElements(path: Path, v: VariableMapping, a: seq<Value>): (r: (seq<Value>, Verdict))
    ensures |r.0| == |a|
    decreases |path|, 1, |a|
  {
    if a == [] then (a, Passed)
    else
      var first := IterateElement(path, v, a[0]);
      if first.verdict != Passed then ([first.tree] + a[1..], first.verdict)
      else
        var rest := IterateElements(path, v, a[1..]);
        ([first.tree] + rest.0, rest.1)
  }

  /** One entry of `KeyValueMappings` applied to an object. */
  function ApplyKey(key: string, v: VariableMapping, d: Document): (r: Outcome)
    ensures r.tree.Obj?
  {
    var path := SplitComma(key);
    if path[0] !in d.fields then Outcome(d, Passed)
    else
      var r := Iterate(path[1..], v, d.fields[path[0]]);
      Outcome(Obj(d.fields[path[0] := r.tree]), r.verdict)
  }

  /** One rule of the filter: a key and its mapping. */
  type Rule = (string, VariableMapping)

  function ApplyRules(rules: seq<Rule>, d: Document): (r: Outcome)
    ensures r.tree.Obj?
  {
    if rules == [] then Outcome(d, Passed)
    else
      var first := ApplyKey(rules[0].0, rules[0].1, d);
      if first.verdict != Passed then first else ApplyRules(rules[1..], first.tree)
  }

  /** An order in which Go may range over the keys of a map. */
  ghost predicate IsOrderOf(keys: seq<string>, kv: map<string, VariableMapping>) {
    && (forall i, j | 0 <= i < j < |keys| :: keys[i] != keys[j])
    && (forall k :: k in keys <==> k in kv)
  }

  function RulesOf(keys: seq<string>, kv: map<string, VariableMapping>): (r: seq<Rule>)
    requires forall k | k in keys :: k in kv
    ensures |r| == |keys| && forall i | 0 <= i < |r| :: r[i] == (keys[i], kv[keys[i]])
  {
    seq(|keys|, i requires 0 <= i < |keys| => (keys[i], kv[keys[i]]))
  }

  /** One iteration order for each entry of the configuration. */
  type Orders = seq<seq<string>>

  ghost predicate AreOrders(orders: Orders, entries: seq<VariableMappings>) {
    |orders| == |entries| &&
    forall i | 0 <= i < |entries| :: IsOrderOf(orders[i], entries[i].keyValueMappings)
  }

  /** `Out`: the entries in list order, each entry's keys in the order given. */
  function MapOut(entries: seq<VariableMappings>, orders: Orders, d: Document): (r: Outcome)
    requires |orders| == |entries|
    requires forall i | 0 <= i < |entries| :: forall k | k in orders[i] :: k in entries[i].keyValueMappings
    ensures r.tree.Obj?
  {
    if entries == [] then Outcome(d, Passed)
    else if entries[0].kind.None? then Outcome(d, Panicked)
    else if KindOf(d) != entries[0].kind.value then MapOut(entries[1..], orders[1..], d)
    else
      var r := ApplyRules(RulesOf(orders[0], entries[0].keyValueMappings), d);
      if r.verdict != Passed then r else MapOut(entries[1..], orders[1..], r.tree)
  }

  // ---------------------------------------------------------------------
  // The loops of the source
  // ---------------------------------------------------------------------

  /** `iteratePath`. */
  method IteratePath(path: Path, v: VariableMapping, inf: Value) returns (tree: Value, verdict: Verdict)
    ensures Outcome(tree, verdict) == Iterate(path, v, inf)
    decreases |path|, 1
  {
    match inf
    case Null =>
      return inf, Panicked;
    case Obj(m) =>
      if path == [] {
        return inf, Panicked;
      }
      if |path| == 1 {
        var r := SetMappingValue(v, path[0], m);
        return r.tree, r.verdict;
      }
      if path[0] !in m {
        return inf, Passed;
      }
      var mapped;
      mapped, verdict := IteratePath(path[1..], v, m[path[0]]);
      tree := Obj(m[path[0] := mapped]);
    case Arr(a) =>
      var cells;
      cells, verdict := IterateList(path, v, a);
      tree := Arr(cells);
    case _ =>
      return inf, Failed;
  }

  /** The loop over a list has rewritten its first `|cells|` elements into `cells`. */
  ghost predicate SoFar(path: Path, v: VariableMapping, a: seq<Value>, cells: seq<Value>) {
    |cells| <= |a| &&
    var rest := IterateElements(path, v, a[|cells|..]);
    IterateElements(path, v, a) == (cells + rest.0, rest.1)
  }

  lemma NextElement(path: Path, v: VariableMapping, a: seq<Value>, cells: seq<Value>)
    requires |cells| < |a| && SoFar(path, v, a, cells)
    ensures var r := IterateElement(path, v, a[|cells|]);
            if r.verdict == Passed then SoFar(path, v, a, cells + [r.tree])
            else IterateElements(path, v, a) == (cells + [r.tree] + a[|cells| + 1..], r.verdict)
  {
    var i := |cells|;
    var r := IterateElement(path, v, a[i]);
    assert a[i..][1..] == a[i + 1..];
    var after := if r.verdict == Passed then IterateElements(path, v, a[i + 1..]).0 else a[i + 1..];
    assert cells + ([r.tree] + after) == cells + [r.tree] + after;
  }

  /** The loop of `iteratePath` over a list. */
  method IterateList(path: Path, v: VariableMapping, a: seq<Value>) returns (cells: seq<Value>, verdict: Verdict)
    ensures (cells, verdict) == IterateElements(path, v, a)
    decreases |path|, 0
  {
    cells, verdict := [], Passed;
    assert a[0..] == a && [] + IterateElements(path, v, a).0 == IterateElements(path, v, a).0;
    for i := 0 to |a|
      invariant |cells| == i && SoFar(path, v, a, cells)
    {
      NextElement(path, v, a, cells);
      var r := a[i];
      if r.Null? || path == [] {
        verdict := Panicked;
      } else if |path| > 1 {
        r, verdict := IteratePath(path[1..], v, r);
      } else if r.Obj? {
        var done := SetMappingValue(v, path[0], r.fields);
        r, verdict := done.tree, done.verdict;
      } else {
        verdict := Failed;
      }
      assert Outcome(r, verdict) == IterateElement(path, v, a[i]);
      cells := cells + [r];
      if verdict != Passed {
        return cells + a[i + 1..], verdict;
      }
    }
    assert a[|a|..] == [] && cells + [] == cells;
    return cells, Passed;
  }

  lemma {:induction false} RulesSplit(rules: seq<Rule>, more: seq<Rule>, d: Document)
    ensures ApplyRules(rules + more, d) ==
            var r := ApplyRules(rules, d);
            if r.verdict != Passed then r else ApplyRules(more, r.tree)
  {
    if rules == [] {
      assert rules + more == more;
    } else {
      assert (rules + more)[1..] == rules[1..] + more;
      var first := ApplyKey(rules[0].0, rules[0].1, d);
      if first.verdict == Passed {
        RulesSplit(rules[1..], more, first.tree);
      }
    }
  }

  ghost function AnyOrder<T(!new)>(keys: set<T>): (r: seq<T>)
    ensures forall i, j | 0 <= i < j < |r| :: r[i] != r[j]
    ensures forall k :: k in r <==> k in keys
  {
    if keys == {} then [] else var k :| k in keys; [k] + AnyOrder(keys - {k})
  }

  ghost function AnyOrders(entries: seq<VariableMappings>): (r: Orders)
    ensures AreOrders(r, entries)
  {
    seq(|entries|, i requires 0 <= i < |entries| => AnyOrder(entries[i].keyValueMappings.Keys))
  }

  lemma OneMore(order: seq<string>, k: string, kv: map<string, VariableMapping>, d: Document)
    requires k in kv && forall x | x in order :: x in kv
    requires ApplyRules(RulesOf(order, kv), d).verdict == Passed
    ensures ApplyRules(RulesOf(order + [k], kv), d) == ApplyKey(k, kv[k], ApplyRules(RulesOf(order, kv), d).tree)
  {
    RulesSplit(RulesOf(order, kv), [(k, kv[k])], d);
    assert RulesOf(order + [k], kv) == RulesOf(order, kv) + [(k, kv[k])];
  }

  /** A run that stopped is a run in any order that starts the same way. */
  lemma CompleteOrder(order: seq<string>, todo: set<string>, kv: map<string, VariableMapping>, d: Document)
    returns (whole: seq<string>)
    requires forall i, j | 0 <= i < j < |order| :: order[i] != order[j]
    requires todo <= kv.Keys && forall k :: k in kv.Keys - todo <==> k in order
    requires ApplyRules(RulesOf(order, kv), d).verdict != Passed
    ensures IsOrderOf(whole, kv)
    ensures ApplyRules(RulesOf(whole, kv), d) == ApplyRules(RulesOf(order, kv), d)
  {
    var rest := AnyOrder(todo);
    whole := order + rest;
    forall i | 0 <= i < |order| ensures order[i] !in todo {
      assert order[i] in order;
      assert order[i] in kv.Keys - todo;
    }
    forall i | 0 <= i < |rest| ensures rest[i] in todo {
      assert rest[i] in rest;
    }
    RulesSplit(RulesOf(order, kv), RulesOf(rest, kv), d);
    assert RulesOf(whole, kv) == RulesOf(order, kv) + RulesOf(rest, kv);
  }

  /** The loop over one entry's rules, in whatever order the runtime ranges over the map. */
  method RunEntry(kv: map<string, VariableMapping>, d: Document)
    returns (tree: Document, verdict: Verdict, ghost order: seq<string>)
    ensures IsOrderOf(order, kv)
    ensures Outcome(tree, verdict) == ApplyRules(RulesOf(order, kv), d)
  {
    tree, order := d, [];
    var todo := kv.Keys;
    while todo != {}
      invariant forall i, j | 0 <= i < j < |order| :: order[i] != order[j]
      invariant todo <= kv.Keys
      invariant forall k :: k in kv.Keys - todo <==> k in order
      invariant Outcome(tree, Passed) == ApplyRules(RulesOf(order, kv), d)
      decreases todo
    {
      var k :| k in todo;
      assert k !in order;
      OneMore(order, k, kv, d);
      todo, order := todo - {k}, order + [k];
      var path := SplitComma(k);
      if path[0] in tree.fields {
        var mapped, v := IteratePath(path[1..], kv[k], tree.fields[path[0]]);
        tree := Obj(tree.fields[path[0] := mapped]);
        if v != Passed {
          ghost var whole := CompleteOrder(order, todo, kv, d);
          return tree, v, whole;
        }
      }
    }
    verdict := Passed;
  }

  /** `Out`. */
  method Out(entries: seq<VariableMappings>, d: Document)
    returns (tree: Document, verdict: Verdict, ghost orders: Orders)
    ensures AreOrders(orders, entries)
    ensures Outcome(tree, verdict) == MapOut(entries, orders, d)
    decreases |entries|
  {
    tree, orders := d, AnyOrders(entries);
    if entries == [] {
      return d, Passed, orders;
    }
    if entries[0].kind.None? {
      return d, Panicked, orders;
    }
    if KindOf(d) == entries[0].kind.value {
      ghost var order;
      tree, verdict, order := RunEntry(entries[0].keyValueMappings, d);
      orders := orders[0 := order];
      if verdict != Passed {
        return;
      }
    }
    ghost var rest;
    tree, verdict, rest := Out(entries[1..], tree);
    orders := [orders[0]] + rest;
  }
}
