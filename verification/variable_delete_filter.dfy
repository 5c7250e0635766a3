/** `pkg/filter/variabledeletefilter/filter.go`: removing configured fields from an object. */
module VariableDeleteFilter {
  import opened Wrappers
  import opened Json
  import opened Strconv
  import opened ApiTypes
  import opened VariableMappingFilter

  function RemoveAll(paths: seq<Path>, d: Value): (r: Value)
    requires forall i | 0 <= i < |paths| :: paths[i] != []
    ensures d.Obj? ==> r.Obj?
  {
    if paths == [] then d else RemoveAll(paths[1..], Remove(d, paths[0]))
  }

  function SplitAll(keys: seq<string>): (r: seq<Path>)
    ensures |r| == |keys|
    ensures forall i | 0 <= i < |r| :: r[i] == SplitComma(keys[i]) && r[i] != []
  {
    seq(|keys|, i requires 0 <= i < |keys| => SplitComma(keys[i]))
  }

  /** `doDeleteVariables`. */
  function DoDeleteVariables(keys: seq<string>, d: Document): Document {
    RemoveAll(SplitAll(keys), d)
  }

  function DeleteForKind(rules: seq<VariableDelete>, d: Document): (r: Outcome)
    ensures r.tree.Obj?
  {
    if rules == [] then Outcome(d, Passed)
    else match rules[0].kind
      case None => Outcome(d, Panicked)
      case Some(kind) =>
        DeleteForKind(rules[1..], if KindOf(d) == kind then DoDeleteVariables(rules[0].keyValueDelete, d) else d)
  }

  function DeleteForObject(rules: seq<VariableDelete>, d: Document): (r: Outcome)
    ensures r.tree.Obj?
  {
    if rules == [] then Outcome(d, Passed)
    else match rules[0].kind
      case None => Outcome(d, Panicked)
      case Some(kind) =>
        if KindOf(d) != kind then DeleteForObject(rules[1..], d)
        else match rules[0].target
          case None => Outcome(d, Panicked)
          case Some(target) =>
            DeleteForObject(rules[1..],
                            if GetNamespace(d) == target.ns && GetName(d) == target.name
                            then DoDeleteVariables(rules[0].keyValueDelete, d) else d)
  }

  /** `Out`: first the kind rules, then the object rules. */
  function DeleteOut(config: VariableDeleteFilterConfig, d: Document): (r: Outcome)
    ensures r.tree.Obj?
  {
    var r := DeleteForKind(config.kindDeleteList, d);
    if r.verdict != Passed then r else DeleteForObject(config.objectDeleteList, r.tree)
  }

  // ---------------------------------------------------------------------
  // The loops of the source
  // ---------------------------------------------------------------------

  method DeleteVariables(keys: seq<string>, d: Document) returns (tree: Document)
    ensures tree == DoDeleteVariables(keys, d)
  {
    tree := d;
    assert SplitAll(keys)[0..] == SplitAll(keys);
    for i := 0 to |keys|
      invariant RemoveAll(SplitAll(keys)[i..], tree) == RemoveAll(SplitAll(keys), d)
    {
      assert SplitAll(keys)[i..][1..] == SplitAll(keys)[i + 1..];
      tree := Remove(tree, SplitComma(keys[i]));
    }
  }

  method Out(config: VariableDeleteFilterConfig, d: Document) returns (tree: Document, verdict: Verdict)
    ensures Outcome(tree, verdict) == DeleteOut(config, d)
  {
    tree := d;
    var kinds := config.kindDeleteList;
    assert kinds[0..] == kinds;
    for i := 0 to |kinds|
      invariant DeleteForKind(kinds[i..], tree) == DeleteForKind(kinds, d)
    {
      assert kinds[i..][1..] == kinds[i + 1..];
      if kinds[i].kind.None? {
        return tree, Panicked;
      }
      if KindOf(tree) == kinds[i].kind.value {
        tree := DeleteVariables(kinds[i].keyValueDelete, tree);
      }
    }
    ghost var middle := tree;
    assert DeleteForKind(kinds, d) == Outcome(middle, Passed);
    var objects := config.objectDeleteList;
    assert objects[0..] == objects;
    for i := 0 to |objects|
      invariant DeleteForObject(objects[i..], tree) == DeleteForObject(objects, middle)
    {
      assert objects[i..][1..] == objects[i + 1..];
      if objects[i].kind.None? {
        return tree, Panicked;
      }
      if KindOf(tree) == objects[i].kind.value {
        if objects[i].target.None? {
          return tree, Panicked;
        }
        var target := objects[i].target.value;
        if GetNamespace(tree) == target.ns && GetName(tree) == target.name {
          tree := DeleteVariables(objects[i].keyValueDelete, tree);
        }
      }
    }
    verdict := Passed;
  }

  // ---------------------------------------------------------------------
  // Delete paths act as a set
  // ---------------------------------------------------------------------

  lemma KeysTail(path: Path)
    requires path != []
    ensures KeysOf(path)[1..] == KeysOf(path[1..])
  {
  }

  lemma {:induction false} RemoveExact(d: Value, path: Path, at: Location)
    requires path != []
    ensures Probe(Remove(d, path), at) == if KeysOf(path) <= at then None else Probe(d, at)
    decreases |path|
  {
    KeysTail(path);
    if |path| == 1 {
      assert KeysOf(path) == [Key(path[0])];
    }
    if at != [] && d.Obj? && at[0] == Key(path[0]) && path[0] in d.fields && |path| > 1 {
      RemoveExact(d.fields[path[0]], path[1..], at[1..]);
      assert KeysOf(path) <= at <==> KeysOf(path[1..]) <= at[1..];
    } else if KeysOf(path) <= at {
      assert at[0] == Key(path[0]);
      if d.Obj? && |path| == 1 {
        assert Child(Remove(d, path), at[0]) == None;
      } else {
        assert Remove(d, path) == d;
      }
      if at != [] && (!d.Obj? || path[0] !in d.fields) {
        assert Child(d, at[0]) == None;
      }
    }
  }

  ghost predicate Covered(paths: seq<Path>, at: Location) {
    exists i :: 0 <= i < |paths| && KeysOf(paths[i]) <= at
  }

  /** Every location below a delete path is gone; every other location is as it was. */
  lemma {:induction false} RemoveAllExact(paths: seq<Path>, d: Value, at: Location)
    requires forall i | 0 <= i < |paths| :: paths[i] != []
    ensures Probe(RemoveAll(paths, d), at) == if Covered(paths, at) then None else Probe(d, at)
  {
    if paths != [] {
      RemoveExact(d, paths[0], at);
      RemoveAllExact(paths[1..], Remove(d, paths[0]), at);
      if Covered(paths[1..], at) {
        var i :| 0 <= i < |paths[1..]| && KeysOf(paths[1..][i]) <= at;
        assert KeysOf(paths[i + 1]) <= at;
      }
      if Covered(paths, at) && !(KeysOf(paths[0]) <= at) {
        var i :| 0 <= i < |paths| && KeysOf(paths[i]) <= at;
        assert KeysOf(paths[1..][i - 1]) <= at;
      }
    }
  }

  /** Order and repetition of delete paths are irrelevant. */
  lemma DeletesActAsSet(a: seq<Path>, b: seq<Path>, d: Value)
    requires forall i | 0 <= i < |a| :: a[i] != []
    requires forall i | 0 <= i < |b| :: b[i] != []
    requires forall p :: p in a <==> p in b
    ensures RemoveAll(a, d) == RemoveAll(b, d)
  {
    forall at ensures Probe(RemoveAll(a, d), at) == Probe(RemoveAll(b, d), at) {
      RemoveAllExact(a, d, at);
      RemoveAllExact(b, d, at);
      if Covered(a, at) {
        var i :| 0 <= i < |a| && KeysOf(a[i]) <= at;
        assert a[i] in b;
      }
      if Covered(b, at) {
        var i :| 0 <= i < |b| && KeysOf(b[i]) <= at;
        assert b[i] in a;
      }
    }
    SameProbesSameTree(RemoveAll(a, d), RemoveAll(b, d));
  }

  lemma {:induction false} FoundIsProbed(d: Value, path: Path)
    ensures Nested(d, path).Found? <==> Probe(d, KeysOf(path)).Some?
  {
    if path != [] {
      KeysTail(path);
      if d.Obj? && path[0] in d.fields {
        FoundIsProbed(d.fields[path[0]], path[1..]);
      }
    }
  }

  lemma {:induction false} StringIsProbed(d: Value, path: Path)
    ensures GetString(d, path) ==
            match Probe(d, KeysOf(path)) { case Some(Leaf(Str(s))) => s case _ => "" }
    decreases |path|
  {
    if path != [] {
      KeysTail(path);
      if d.Obj? && path[0] in d.fields {
        StringIsProbed(d.fields[path[0]], path[1..]);
      }
    }
  }

  /** Afterwards no delete path resolves. */
  lemma DeletedIsGone(paths: seq<Path>, d: Value, path: Path)
    requires forall i | 0 <= i < |paths| :: paths[i] != []
    requires path in paths
    ensures !Nested(RemoveAll(paths, d), path).Found?
  {
    RemoveAllExact(paths, d, KeysOf(path));
    FoundIsProbed(RemoveAll(paths, d), path);
  }

  // ---------------------------------------------------------------------
  // Deleting and the pruning order
  // ---------------------------------------------------------------------

  lemma {:induction false} RemoveAllPrunes(paths: seq<Path>, d: Value)
    requires forall i | 0 <= i < |paths| :: paths[i] != []
    ensures Pruned(RemoveAll(paths, d), d)
  {
    PrunedReflexive(d);
    if paths != [] {
      RemovePrunes(d, paths[0]);
      RemoveAllPrunes(paths[1..], Remove(d, paths[0]));
      PrunedTransitive(RemoveAll(paths, d), Remove(d, paths[0]), d);
    }
  }

  lemma {:induction false} RemoveAllMonotone(paths: seq<Path>, x: Value, y: Value)
    requires forall i | 0 <= i < |paths| :: paths[i] != []
    requires Pruned(x, y)
    ensures Pruned(RemoveAll(paths, x), RemoveAll(paths, y))
  {
    if paths != [] {
      RemoveMonotone(x, y, paths[0]);
      RemoveAllMonotone(paths[1..], Remove(x, paths[0]), Remove(y, paths[0]));
    }
  }

  /** Anything between what deleting leaves and what it was given is deleted to the same tree. */
  lemma DeleteBetween(paths: seq<Path>, y: Value, z: Value)
    requires forall i | 0 <= i < |paths| :: paths[i] != []
    requires Pruned(RemoveAll(paths, z), y) && Pruned(y, z)
    ensures RemoveAll(paths, y) == RemoveAll(paths, z)
  {
    var x := RemoveAll(paths, z);
    RemoveAllMonotone(paths, x, y);
    RemoveAllMonotone(paths, y, z);
    assert RemoveAll(paths, x) == x by {
      forall at ensures Probe(RemoveAll(paths, x), at) == Probe(x, at) {
        RemoveAllExact(paths, z, at);
        RemoveAllExact(paths, x, at);
      }
      SameProbesSameTree(RemoveAll(paths, x), x);
    }
    PrunedAntisymmetric(RemoveAll(paths, y), x);
  }

  // ---------------------------------------------------------------------
  // Which rules apply
  // ---------------------------------------------------------------------

  ghost function KindPaths(rules: seq<VariableDelete>, kind: GroupVersionKind): (r: seq<Path>)
    ensures forall i | 0 <= i < |r| :: r[i] != []
  {
    if rules == [] then []
    else (if rules[0].kind == Some(kind) then SplitAll(rules[0].keyValueDelete) else []) + KindPaths(rules[1..], kind)
  }

  ghost function ObjectPaths(rules: seq<VariableDelete>, kind: GroupVersionKind, ns: string,
      name: string): (r: seq<Path>)
    ensures forall i | 0 <= i < |r| :: r[i] != []
  {
    if rules == [] then []
    else
      (if rules[0].kind == Some(kind) && rules[0].target == Some(ObjectKey(ns, name))
       then SplitAll(rules[0].keyValueDelete) else [])
      + ObjectPaths(rules[1..], kind, ns, name)
  }

  /** All paths the configuration deletes from an object of this kind and name. */
  ghost function PathsFor(config: VariableDeleteFilterConfig, d: Value): (r: seq<Path>)
    ensures forall i | 0 <= i < |r| :: r[i] != []
  {
    KindPaths(config.kindDeleteList, KindOf(d))
    + ObjectPaths(config.objectDeleteList, KindOf(d), GetNamespace(d), GetName(d))
  }

  lemma {:induction false} RemoveAllSplit(a: seq<Path>, b: seq<Path>, d: Value)
    requires forall i | 0 <= i < |a| :: a[i] != []
    requires forall i | 0 <= i < |b| :: b[i] != []
    ensures RemoveAll(a + b, d) == RemoveAll(b, RemoveAll(a, d))
  {
    if a == [] {
      assert a + b == b;
    } else {
      assert (a + b)[1..] == a[1..] + b;
      RemoveAllSplit(a[1..], b, Remove(d, a[0]));
    }
  }

  /** The strings an object is matched by survive in between when they survive overall. */
  lemma StringBetween(x: Value, y: Value, z: Value, path: Path)
    requires Pruned(x, y) && Pruned(y, z) && GetString(x, path) == GetString(z, path)
    ensures GetString(y, path) == GetString(z, path)
  {
    PrunedString(x, y, path);
    PrunedString(y, z, path);
  }

  lemma {:induction false} DeleteForKindPrunes(rules: seq<VariableDelete>, d: Document)
    ensures Pruned(DeleteForKind(rules, d).tree, d)
  {
    PrunedReflexive(d);
    if rules != [] && rules[0].kind.Some? {
      var d' := if KindOf(d) == rules[0].kind.value then DoDeleteVariables(rules[0].keyValueDelete, d) else d;
      RemoveAllPrunes(SplitAll(rules[0].keyValueDelete), d);
      DeleteForKindPrunes(rules[1..], d');
      PrunedTransitive(DeleteForKind(rules, d).tree, d', d);
    }
  }

  lemma {:induction false} DeleteForObjectPrunes(rules: seq<VariableDelete>, d: Document)
    ensures Pruned(DeleteForObject(rules, d).tree, d)
  {
    PrunedReflexive(d);
    if rules != [] && rules[0].kind.Some? {
      RemoveAllPrunes(SplitAll(rules[0].keyValueDelete), d);
      var d' := DoDeleteVariables(rules[0].keyValueDelete, d);
      DeleteForObjectPrunes(rules[1..], d);
      DeleteForObjectPrunes(rules[1..], d');
      PrunedTransitive(DeleteForObject(rules[1..], d').tree, d', d);
    }
  }

  lemma {:induction false} KindRulesAreRemoveAll(rules: seq<VariableDelete>, d: Document)
    requires DeleteForKind(rules, d).verdict == Passed
    requires SameKindStrings(DeleteForKind(rules, d).tree, d)
    ensures DeleteForKind(rules, d).tree == RemoveAll(KindPaths(rules, KindOf(d)), d)
  {
    if rules != [] {
      var kind := rules[0].kind.value;
      var paths := SplitAll(rules[0].keyValueDelete);
      var d' := if KindOf(d) == kind then RemoveAll(paths, d) else d;
      RemoveAllPrunes(paths, d);
      PrunedReflexive(d);
      DeleteForKindPrunes(rules[1..], d');
      StringBetween(DeleteForKind(rules, d).tree, d', d, API_VERSION);
      StringBetween(DeleteForKind(rules, d).tree, d', d, KIND);
      KindRulesAreRemoveAll(rules[1..], d');
      if KindOf(d) == kind {
        RemoveAllSplit(paths, KindPaths(rules[1..], kind), d);
      } else {
        assert [] + KindPaths(rules[1..], KindOf(d)) == KindPaths(rules[1..], KindOf(d));
      }
    }
  }

  lemma {:induction false} ObjectRulesAreRemoveAll(rules: seq<VariableDelete>, d: Document)
    requires DeleteForObject(rules, d).verdict == Passed
    requires rules != [] ==>
               SameKindStrings(DeleteForObject(rules, d).tree, d) && SameKey(DeleteForObject(rules, d).tree, d)
    ensures DeleteForObject(rules, d).tree == RemoveAll(ObjectPaths(rules, KindOf(d), GetNamespace(d), GetName(d)), d)
  {
    if rules != [] {
      var ns, name := GetNamespace(d), GetName(d);
      var paths := SplitAll(rules[0].keyValueDelete);
      var hit := rules[0].kind == Some(KindOf(d)) && rules[0].target == Some(ObjectKey(ns, name));
      var d' := if hit then RemoveAll(paths, d) else d;
      var final := DeleteForObject(rules, d).tree;
      RemoveAllPrunes(paths, d);
      PrunedReflexive(d);
      DeleteForObjectPrunes(rules[1..], d');
      assert final == DeleteForObject(rules[1..], d').tree;
      StringBetween(final, d', d, API_VERSION);
      StringBetween(final, d', d, KIND);
      StringBetween(final, d', d, NAME);
      StringBetween(final, d', d, NAMESPACE);
      ObjectRulesAreRemoveAll(rules[1..], d');
      var rest := ObjectPaths(rules[1..], KindOf(d), ns, name);
      if hit {
        RemoveAllSplit(paths, rest, d);
      } else {
        assert [] + rest == rest;
      }
    }
  }

  ghost predicate NamesKept(config: VariableDeleteFilterConfig, x: Value, y: Value) {
    SameKindStrings(x, y) && (config.objectDeleteList != [] ==> SameKey(x, y))
  }

  /** When the object keeps what it is matched by, the filter removes one set of paths. */
  lemma OutIsRemoveAll(config: VariableDeleteFilterConfig, d: Document)
    requires DeleteOut(config, d).verdict == Passed
    requires NamesKept(config, DeleteOut(config, d).tree, d)
    ensures DeleteOut(config, d).tree == RemoveAll(PathsFor(config, d), d)
  {
    var middle := DeleteForKind(config.kindDeleteList, d).tree;
    var final := DeleteOut(config, d).tree;
    DeleteForKindPrunes(config.kindDeleteList, d);
    DeleteForObjectPrunes(config.objectDeleteList, middle);
    StringBetween(final, middle, d, API_VERSION);
    StringBetween(final, middle, d, KIND);
    if config.objectDeleteList != [] {
      StringBetween(final, middle, d, NAME);
      StringBetween(final, middle, d, NAMESPACE);
    }
    KindRulesAreRemoveAll(config.kindDeleteList, d);
    ObjectRulesAreRemoveAll(config.objectDeleteList, middle);
    RemoveAllSplit(KindPaths(config.kindDeleteList, KindOf(d)),
                   ObjectPaths(config.objectDeleteList, KindOf(d), GetNamespace(d), GetName(d)), d);
  }

  // ---------------------------------------------------------------------
  // Deleting again from an object in between
  // ---------------------------------------------------------------------

  /** If a list of paths takes nothing from a tree, none of its prefixes or suffixes does. */
  lemma NothingToRemove(a: seq<Path>, b: seq<Path>, r: Value)
    requires forall i | 0 <= i < |a| :: a[i] != []
    requires forall i | 0 <= i < |b| :: b[i] != []
    requires RemoveAll(a + b, r) == r
    ensures RemoveAll(a, r) == r && RemoveAll(b, r) == r
  {
    RemoveAllSplit(a, b, r);
    RemoveAllPrunes(a, r);
    RemoveAllPrunes(b, RemoveAll(a, r));
    PrunedAntisymmetric(r, RemoveAll(a, r));
  }

  /** Removing some paths first stays between `r` and `t`, and leaves `r` without the others. */
  lemma PartBetween(paths: seq<Path>, rest: seq<Path>, r: Value, z: Value, t: Value)
    requires forall i | 0 <= i < |paths| :: paths[i] != []
    requires forall i | 0 <= i < |rest| :: rest[i] != []
    requires Pruned(r, z) && Pruned(z, t) && RemoveAll(paths + rest, r) == r
    ensures Pruned(r, RemoveAll(paths, z)) && Pruned(RemoveAll(paths, z), t)
    ensures RemoveAll(rest, r) == r && RemoveAll(paths + rest, z) == RemoveAll(rest, RemoveAll(paths, z))
  {
    NothingToRemove(paths, rest, r);
    RemoveAllMonotone(paths, r, z);
    RemoveAllPrunes(paths, z);
    PrunedTransitive(RemoveAll(paths, z), z, t);
    RemoveAllSplit(paths, rest, z);
  }

  lemma KindBetween(r: Value, z: Value, t: Value)
    requires Pruned(r, z) && Pruned(z, t) && SameKindStrings(r, t)
    ensures KindOf(z) == KindOf(t)
  {
    StringBetween(r, z, t, API_VERSION);
    StringBetween(r, z, t, KIND);
  }

  lemma KeyBetween(r: Value, z: Value, t: Value)
    requires Pruned(r, z) && Pruned(z, t) && SameKey(r, t)
    ensures GetName(z) == GetName(t) && GetNamespace(z) == GetNamespace(t)
  {
    StringBetween(r, z, t, NAME);
    StringBetween(r, z, t, NAMESPACE);
  }

  lemma {:induction false} KindRulesBetween(rules: seq<VariableDelete>, r: Document, z: Document, t: Document)
    requires Pruned(r, z) && Pruned(z, t) && SameKindStrings(r, t)
    requires forall i | 0 <= i < |rules| :: rules[i].kind.Some?
    requires RemoveAll(KindPaths(rules, KindOf(t)), r) == r
    ensures DeleteForKind(rules, z) == Outcome(RemoveAll(KindPaths(rules, KindOf(t)), z), Passed)
    ensures Pruned(r, DeleteForKind(rules, z).tree)
  {
    KindBetween(r, z, t);
    if rules != [] {
      var rest := KindPaths(rules[1..], KindOf(t));
      if rules[0].kind.value == KindOf(t) {
        var paths := SplitAll(rules[0].keyValueDelete);
        PartBetween(paths, rest, r, z, t);
        KindRulesBetween(rules[1..], r, RemoveAll(paths, z), t);
      } else {
        assert [] + rest == rest;
        KindRulesBetween(rules[1..], r, z, t);
      }
    }
  }

  /** No rule for this kind makes `Out` dereference a nil pointer. */
  ghost predicate WellFormedFor(rules: seq<VariableDelete>, kind: GroupVersionKind) {
    forall i | 0 <= i < |rules| :: rules[i].kind.Some? && (rules[i].kind.value == kind ==> rules[i].target.Some?)
  }

  lemma {:induction false} ObjectRulesBetween(rules: seq<VariableDelete>, r: Document, z: Document, t: Document)
    requires Pruned(r, z) && Pruned(z, t) && SameKindStrings(r, t)
    requires rules != [] ==> SameKey(r, t)
    requires WellFormedFor(rules, KindOf(t))
    requires RemoveAll(ObjectPaths(rules, KindOf(t), GetNamespace(t), GetName(t)), r) == r
    ensures DeleteForObject(rules, z) ==
            Outcome(RemoveAll(ObjectPaths(rules, KindOf(t), GetNamespace(t), GetName(t)), z), Passed)
  {
    if rules != [] {
      KindBetween(r, z, t);
      KeyBetween(r, z, t);
      var rest := ObjectPaths(rules[1..], KindOf(t), GetNamespace(t), GetName(t));
      if rules[0].kind == Some(KindOf(t)) && rules[0].target == Some(ObjectKey(GetNamespace(t), GetName(t))) {
        var paths := SplitAll(rules[0].keyValueDelete);
        PartBetween(paths, rest, r, z, t);
        ObjectRulesBetween(rules[1..], r, RemoveAll(paths, z), t);
      } else {
        assert [] + rest == rest;
        assert rules[0].kind == Some(KindOf(t)) ==> rules[0].target.Some?;
        ObjectRulesBetween(rules[1..], r, z, t);
      }
    }
  }

  lemma {:induction false} PassedIsKinded(rules: seq<VariableDelete>, d: Document)
    requires DeleteForKind(rules, d).verdict == Passed
    ensures forall i | 0 <= i < |rules| :: rules[i].kind.Some?
  {
    if rules != [] {
      var d' := if KindOf(d) == rules[0].kind.value then DoDeleteVariables(rules[0].keyValueDelete, d) else d;
      PassedIsKinded(rules[1..], d');
      assert forall i | 0 < i < |rules| :: rules[i] == rules[1..][i - 1];
    }
  }

  lemma {:induction false} PassedIsWellFormed(rules: seq<VariableDelete>, d: Document)
    requires DeleteForObject(rules, d).verdict == Passed
    requires SameKindStrings(DeleteForObject(rules, d).tree, d)
    ensures WellFormedFor(rules, KindOf(d))
  {
    if rules != [] {
      var hit := KindOf(d) == rules[0].kind.value && rules[0].target == Some(ObjectKey(GetNamespace(d), GetName(d)));
      var d' := if hit then DoDeleteVariables(rules[0].keyValueDelete, d) else d;
      assert DeleteForObject(rules, d) == DeleteForObject(rules[1..], d');
      RemoveAllPrunes(SplitAll(rules[0].keyValueDelete), d);
      PrunedReflexive(d);
      DeleteForObjectPrunes(rules[1..], d');
      StringBetween(DeleteForObject(rules, d).tree, d', d, API_VERSION);
      StringBetween(DeleteForObject(rules, d).tree, d', d, KIND);
      PassedIsWellFormed(rules[1..], d');
      assert forall i | 0 < i < |rules| :: rules[i] == rules[1..][i - 1];
    }
  }

  /** Any object between the filter's result and its input is taken to the same result. */
  lemma DeleteAgain(config: VariableDeleteFilterConfig, t: Document, y: Document)
    requires DeleteOut(config, t).verdict == Passed
    requires NamesKept(config, DeleteOut(config, t).tree, t)
    requires Pruned(DeleteOut(config, t).tree, y) && Pruned(y, t)
    ensures DeleteOut(config, y) == DeleteOut(config, t)
  {
    var r := DeleteOut(config, t).tree;
    var kinds := KindPaths(config.kindDeleteList, KindOf(t));
    var objects := ObjectPaths(config.objectDeleteList, KindOf(t), GetNamespace(t), GetName(t));
    OutIsRemoveAll(config, t);
    DeleteBetween(kinds + objects, y, t);
    RemoveAllSplit(kinds, objects, y);
    RemoveAllPrunes(kinds + objects, t);
    PrunedReflexive(r);
    DeleteBetween(kinds + objects, r, t);
    NothingToRemove(kinds, objects, r);
    PassedIsKinded(config.kindDeleteList, t);
    var middle := DeleteForKind(config.kindDeleteList, t).tree;
    DeleteForKindPrunes(config.kindDeleteList, t);
    DeleteForObjectPrunes(config.objectDeleteList, middle);
    StringBetween(r, middle, t, API_VERSION);
    StringBetween(r, middle, t, KIND);
    PassedIsWellFormed(config.objectDeleteList, middle);
    KindRulesBetween(config.kindDeleteList, r, y, t);
    var y' := DeleteForKind(config.kindDeleteList, y).tree;
    RemoveAllPrunes(kinds, y);
    PrunedTransitive(y', y, t);
    ObjectRulesBetween(config.objectDeleteList, r, y', t);
  }

  // ---------------------------------------------------------------------
  // When deleting ends where it started
  // ---------------------------------------------------------------------

  /** The filter takes `u` back to `x`, a part of it that is matched by the same rules, exactly if the
      paths for them do, and no rule that is looked at lacks what it needs. */
  lemma DeletesBackIff(config: VariableDeleteFilterConfig, x: Document, u: Document)
    requires Pruned(x, u) && SameKindStrings(x, u) && SameKey(x, u)
    ensures DeleteOut(config, u) == Outcome(x, Passed) <==>
            && RemoveAll(PathsFor(config, x), u) == x
            && (forall i | 0 <= i < |config.kindDeleteList| :: config.kindDeleteList[i].kind.Some?)
            && WellFormedFor(config.objectDeleteList, KindOf(x))
  {
    if DeleteOut(config, u) == Outcome(x, Passed) {
      OutIsRemoveAll(config, u);
      var middle := DeleteForKind(config.kindDeleteList, u).tree;
      PassedIsKinded(config.kindDeleteList, u);
      DeleteForKindPrunes(config.kindDeleteList, u);
      DeleteForObjectPrunes(config.objectDeleteList, middle);
      KindBetween(x, middle, u);
      StringBetween(x, middle, u, API_VERSION);
      StringBetween(x, middle, u, KIND);
      PassedIsWellFormed(config.objectDeleteList, middle);
    }
    if RemoveAll(PathsFor(config, x), u) == x
      && (forall i | 0 <= i < |config.kindDeleteList| :: config.kindDeleteList[i].kind.Some?)
       && WellFormedFor(config.objectDeleteList, KindOf(x)) {
      DeletesBack(config, x, u);
    }
  }

  lemma DeletesBack(config: VariableDeleteFilterConfig, x: Document, u: Document)
    requires Pruned(x, u) && SameKindStrings(x, u) && SameKey(x, u)
    requires forall i | 0 <= i < |config.kindDeleteList| :: config.kindDeleteList[i].kind.Some?
    requires WellFormedFor(config.objectDeleteList, KindOf(x)) && RemoveAll(PathsFor(config, x), u) == x
    ensures DeleteOut(config, u) == Outcome(x, Passed)
  {
    var kinds := KindPaths(config.kindDeleteList, KindOf(u));
    var objects := ObjectPaths(config.objectDeleteList, KindOf(u), GetNamespace(u), GetName(u));
    PrunedReflexive(u);
    PrunedReflexive(x);
    DeleteBetween(kinds + objects, x, u);
    NothingToRemove(kinds, objects, x);
    KindRulesBetween(config.kindDeleteList, x, u, u);
    RemoveAllPrunes(kinds, u);
    ObjectRulesBetween(config.objectDeleteList, x, RemoveAll(kinds, u), u);
    RemoveAllSplit(kinds, objects, u);
  }

  // ---------------------------------------------------------------------
  // Strings no rule for the object is about
  // ---------------------------------------------------------------------

  /** No rule for this kind is about the string, or about what leads to it. */
  ghost predicate Spares(rules: seq<VariableDelete>, kind: GroupVersionKind, name: Path) {
    forall i, j | 0 <= i < |rules| && rules[i].kind == Some(kind) && 0 <= j < |rules[i].keyValueDelete| ::
      !(SplitComma(rules[i].keyValueDelete[j]) <= name)
  }

  /** No rule for this kind takes what the kind is read from. */
  ghost predicate SparesKind(rules: seq<VariableDelete>, kind: GroupVersionKind) {
    Spares(rules, kind, KIND) && Spares(rules, kind, API_VERSION)
  }

  lemma {:induction false} RemoveAllSpares(paths: seq<Path>, d: Value, name: Path)
    requires forall i | 0 <= i < |paths| :: paths[i] != [] && !(paths[i] <= name)
    ensures GetString(RemoveAll(paths, d), name) == GetString(d, name)
  {
    if paths != [] {
      StringUntouched(d, paths[0], name);
      RemoveAllSpares(paths[1..], Remove(d, paths[0]), name);
    }
  }

  lemma SparesTail(rules: seq<VariableDelete>, kind: GroupVersionKind, name: Path)
    requires rules != [] && Spares(rules, kind, name)
    ensures Spares(rules[1..], kind, name)
    ensures rules[0].kind == Some(kind) ==>
              forall i | 0 <= i < |SplitAll(rules[0].keyValueDelete)| :: !(SplitAll(rules[0].keyValueDelete)[i] <= name)
  {
    assert forall i | 0 <= i < |rules[1..]| :: rules[1..][i] == rules[i + 1];
  }

  lemma {:induction false} KindRulesSpare(rules: seq<VariableDelete>, d: Document, name: Path)
    requires SparesKind(rules, KindOf(d)) && Spares(rules, KindOf(d), name)
    ensures SameKindStrings(DeleteForKind(rules, d).tree, d)
    ensures GetString(DeleteForKind(rules, d).tree, name) == GetString(d, name)
  {
    if rules != [] && rules[0].kind.Some? {
      var paths := SplitAll(rules[0].keyValueDelete);
      var d' := if KindOf(d) == rules[0].kind.value then RemoveAll(paths, d) else d;
      SparesTail(rules, KindOf(d), KIND);
      SparesTail(rules, KindOf(d), API_VERSION);
      SparesTail(rules, KindOf(d), name);
      if KindOf(d) == rules[0].kind.value {
        RemoveAllSpares(paths, d, KIND);
        RemoveAllSpares(paths, d, API_VERSION);
        RemoveAllSpares(paths, d, name);
      }
      KindRulesSpare(rules[1..], d', name);
    }
  }

  lemma {:induction false} ObjectRulesSpare(rules: seq<VariableDelete>, d: Document, name: Path)
    requires SparesKind(rules, KindOf(d)) && Spares(rules, KindOf(d), name)
    ensures SameKindStrings(DeleteForObject(rules, d).tree, d)
    ensures GetString(DeleteForObject(rules, d).tree, name) == GetString(d, name)
  {
    if rules != [] && rules[0].kind.Some? {
      var paths := SplitAll(rules[0].keyValueDelete);
      SparesTail(rules, KindOf(d), KIND);
      SparesTail(rules, KindOf(d), API_VERSION);
      SparesTail(rules, KindOf(d), name);
      if KindOf(d) == rules[0].kind.value {
        RemoveAllSpares(paths, d, KIND);
        RemoveAllSpares(paths, d, API_VERSION);
        RemoveAllSpares(paths, d, name);
        ObjectRulesSpare(rules[1..], RemoveAll(paths, d), name);
      }
      ObjectRulesSpare(rules[1..], d, name);
    }
  }

  /** A string no rule for the object's kind is about stays, and so does the kind. */
  lemma OutSpares(config: VariableDeleteFilterConfig, d: Document, name: Path)
    requires SparesKind(config.kindDeleteList, KindOf(d)) && SparesKind(config.objectDeleteList, KindOf(d))
    requires Spares(config.kindDeleteList, KindOf(d), name) && Spares(config.objectDeleteList, KindOf(d), name)
    ensures SameKindStrings(DeleteOut(config, d).tree, d)
            && GetString(DeleteOut(config, d).tree, name) == GetString(d, name)
  {
    KindRulesSpare(config.kindDeleteList, d, name);
    ObjectRulesSpare(config.objectDeleteList, DeleteForKind(config.kindDeleteList, d).tree, name);
  }
}
