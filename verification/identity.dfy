/**
 What the chain of an installed configuration leaves of an object's uid, name and
 other strings.
 */
module Identity {
  import opened Wrappers
  import opened Json
  import opened Strconv
  import opened ApiTypes
  import Mapping = VariableMappingFilter
  import opened MappingLaws
  import opened MappingOrder
  import Deleting = VariableDeleteFilter
  import opened FilterChain
  import opened InstalledChain
  import opened Retry

  // ---------------------------------------------------------------------
  // Mapping
  // ---------------------------------------------------------------------

  lemma WritesTwoKeys(p: Path, d: Document, name: Path, k: nat)
    requires |p| > 1 && |name| == 2 && k <= 2 && Writes(p, d, KeysOf(name)[..k])
    ensures p == name
  {
    var at := KeysOf(name)[..k];
    var below := at[1..];
    assert Writes(p[1..], d.fields[p[0]], below);
    assert k == 2 && below == [Key(name[1])];
    if |p| > 2 {
      assert !Writes(p[1..][1..], d.fields[p[0]].fields[p[1]], below[1..]);
    }
    assert p == [p[0], p[1]];
  }

  /** A rule whose path is not the string's own leaves a string two keys down as it is. */
  lemma RuleKeepsString(r: Mapping.Rule, d: Document, name: Path)
    requires RulePasses(r, d) && |name| == 2 && PathOf(r) != name
    ensures GetString(AfterRule(r, d), name) == GetString(d, name)
  {
    if |PathOf(r)| == 1 {
      ShortRule(r, d);
    } else {
      var p := PathOf(r);
      var at := KeysOf(name);
      RuleIsIterate(r, d);
      IterateExact(p, r.1, d, at);
      forall k: nat | k <= 2 ensures !Writes(p, d, at[..k]) {
        if Writes(p, d, at[..k]) {
          WritesTwoKeys(p, d, name, k);
        }
      }
      assert at[..2] == at;
      Deleting.StringIsProbed(d, name);
      Deleting.StringIsProbed(AfterRule(r, d), name);
    }
  }

  lemma {:induction false} RulesKeepString(rules: seq<Mapping.Rule>, d: Document, name: Path)
    requires Mapping.ApplyRules(rules, d).verdict == Passed && |name| == 2
    requires forall i | 0 <= i < |rules| :: PathOf(rules[i]) != name
    ensures GetString(Mapping.ApplyRules(rules, d).tree, name) == GetString(d, name)
  {
    if rules != [] {
      RuleKeepsString(rules[0], d, name);
      RulesKeepString(rules[1..], AfterRule(rules[0], d), name);
    }
  }

  /** No mapping rule for the kind is about the string. */
  ghost predicate MapsAround(e: DRFilterConfig, kind: GroupVersionKind, name: Path) {
    e.variableMappingFilter.Some? ==>
      var entries := e.variableMappingFilter.value.kindVariableMappings;
      forall i, k | 0 <= i < |entries| && entries[i].kind == Some(kind) && k in entries[i].keyValueMappings ::
        SplitComma(k) != name
  }

  lemma {:induction false} KindRulesAround(entries: seq<VariableMappings>, orders: Mapping.Orders,
      kind: GroupVersionKind, name: Path)
    requires Mapping.AreOrders(orders, entries)
    requires forall i, k | 0 <= i < |entries| && entries[i].kind == Some(kind) && k in entries[i].keyValueMappings ::
               SplitComma(k) != name
    ensures forall i | 0 <= i < |KindRules(entries, orders, kind)| ::
              PathOf(KindRules(entries, orders, kind)[i]) != name
  {
    if entries != [] {
      assert Mapping.AreOrders(orders[1..], entries[1..]);
      KindRulesAround(entries[1..], orders[1..], kind, name);
      if entries[0].kind == Some(kind) {
        var block := Mapping.RulesOf(orders[0], entries[0].keyValueMappings);
        forall i | 0 <= i < |block| ensures PathOf(block[i]) != name {
          assert orders[0][i] in orders[0];
        }
      }
    }
  }

  lemma MapKeepsString(e: DRFilterConfig, o: Mapping.Orders, d: Document, name: Path)
    requires MapOrders(e, o) && Map(e, o, d).verdict == Passed && |name| == 2 && MapsAround(e, KindOf(d), name)
    ensures GetString(Map(e, o, d).tree, name) == GetString(d, name)
  {
    MapRuns(e, o, d);
    if e.variableMappingFilter.Some? {
      KindRulesAround(e.variableMappingFilter.value.kindVariableMappings, o, KindOf(d), name);
    }
    RulesKeepString(RulesFor(e, o, d), d, name);
  }

  // ---------------------------------------------------------------------
  // Deletion
  // ---------------------------------------------------------------------

  /** Kind rule `i` is for the kind the rules before it leave the object with, and about the location. */
  ghost predicate KindHit(rules: seq<VariableDelete>, d: Document, i: nat, at: Location) {
    i < |rules| && rules[i].kind == Some(KindOf(Deleting.DeleteForKind(rules[..i], d).tree))
    && Deleting.Covered(Deleting.SplitAll(rules[i].keyValueDelete), at)
  }

  ghost predicate KindsHit(rules: seq<VariableDelete>, d: Document, at: Location) {
    exists i :: KindHit(rules, d, i, at)
  }

  /** Object rule `i` is for the kind and the key the rules before it leave the object with, ... */
  ghost predicate ObjectHit(rules: seq<VariableDelete>, d: Document, i: nat, at: Location) {
    i < |rules| &&
    var x := Deleting.DeleteForObject(rules[..i], d).tree;
    && rules[i].kind == Some(KindOf(x)) && rules[i].target == Some(ObjectKey(GetNamespace(x), GetName(x)))
    && Deleting.Covered(Deleting.SplitAll(rules[i].keyValueDelete), at)
  }

  ghost predicate ObjectsHit(rules: seq<VariableDelete>, d: Document, at: Location) {
    exists i :: ObjectHit(rules, d, i, at)
  }

  lemma KindsHitGrow(before: seq<VariableDelete>, r: VariableDelete, d: Document, at: Location)
    ensures KindsHit(before + [r], d, at) <==> KindsHit(before, d, at) || KindHit(before + [r], d, |before|, at)
  {
    var rules := before + [r];
    forall i: nat | i < |before| ensures KindHit(before, d, i, at) <==> KindHit(rules, d, i, at) {
      assert before[..i] == rules[..i];
    }
    if KindsHit(before, d, at) {
      var i :| KindHit(before, d, i, at);
      assert KindHit(rules, d, i, at);
    }
  }

  /** The kind rules remove exactly what one of them hits when it is its turn. */
  lemma {:induction false} KindListExact(rules: seq<VariableDelete>, d: Document, at: Location)
    requires Deleting.DeleteForKind(rules, d).verdict == Passed
    ensures Probe(Deleting.DeleteForKind(rules, d).tree, at) == if KindsHit(rules, d, at) then None else Probe(d, at)
    decreases |rules|
  {
    if rules != [] {
      var n := |rules| - 1;
      var before, last := rules[..n], rules[n];
      assert rules == before + [last];
      KindListSplit(before, [last], d);
      KindListExact(before, d, at);
      KindsHitGrow(before, last, d, at);
      OneKindRule(last, Deleting.DeleteForKind(before, d).tree, at);
    }
  }

  lemma OneKindRule(r: VariableDelete, x: Document, at: Location)
    requires r.kind.Some?
    ensures Deleting.DeleteForKind([r], x).verdict == Passed
    ensures Probe(Deleting.DeleteForKind([r], x).tree, at) ==
            if r.kind == Some(KindOf(x)) && Deleting.Covered(Deleting.SplitAll(r.keyValueDelete), at) then None
              else Probe(x, at)
  {
    assert [r][1..] == [];
    Deleting.RemoveAllExact(Deleting.SplitAll(r.keyValueDelete), x, at);
  }

  lemma ObjectsHitGrow(before: seq<VariableDelete>, r: VariableDelete, d: Document, at: Location)
    ensures ObjectsHit(before + [r], d, at) <==> ObjectsHit(before, d, at) || ObjectHit(before + [r], d, |before|, at)
  {
    var rules := before + [r];
    forall i: nat | i < |before| ensures ObjectHit(before, d, i, at) <==> ObjectHit(rules, d, i, at) {
      assert before[..i] == rules[..i];
    }
    if ObjectsHit(before, d, at) {
      var i :| ObjectHit(before, d, i, at);
      assert ObjectHit(rules, d, i, at);
    }
  }

  /** And so do the object rules. */
  lemma {:induction false} ObjectListExact(rules: seq<VariableDelete>, d: Document, at: Location)
    requires Deleting.DeleteForObject(rules, d).verdict == Passed
    ensures Probe(Deleting.DeleteForObject(rules, d).tree, at) ==
            if ObjectsHit(rules, d, at) then None else Probe(d, at)
    decreases |rules|
  {
    if rules != [] {
      var n := |rules| - 1;
      var before, last := rules[..n], rules[n];
      assert rules == before + [last];
      ObjectListSplit(before, [last], d);
      ObjectListExact(before, d, at);
      ObjectsHitGrow(before, last, d, at);
      OneObjectRule(last, Deleting.DeleteForObject(before, d).tree, at);
    }
  }

  lemma OneObjectRule(r: VariableDelete, x: Document, at: Location)
    requires Deleting.DeleteForObject([r], x).verdict == Passed
    ensures Probe(Deleting.DeleteForObject([r], x).tree, at) ==
            if r.kind == Some(KindOf(x)) && r.target == Some(ObjectKey(GetNamespace(x), GetName(x)))
               && Deleting.Covered(Deleting.SplitAll(r.keyValueDelete), at) then None else Probe(x, at)
  {
    assert [r][1..] == [];
    Deleting.RemoveAllExact(Deleting.SplitAll(r.keyValueDelete), x, at);
  }

  lemma PrefixKeys(path: Path, name: Path)
    ensures KeysOf(path) <= KeysOf(name) <==> path <= name
  {
    if KeysOf(path) <= KeysOf(name) {
      forall i | 0 <= i < |path| ensures path[i] == name[i] {
        assert KeysOf(path)[i] == KeysOf(name)[i];
      }
    }
  }

  /** The default rules remove the uid of the kind that is white-listed last, and nothing else. */
  lemma DefaultsExact(w: WhiteListFilterConfig, x: Document, at: Location)
    ensures Deleting.DeleteForKind(KindDefaults(w), x).verdict == Passed
    ensures Probe(Deleting.DeleteForKind(KindDefaults(w), x).tree, at) ==
            if w.kindWhiteList != [] && KindOf(x) == Last(w.kindWhiteList) && KeysOf(UID) <= at then None
              else Probe(x, at)
  {
    var rules := KindDefaults(w);
    if rules != [] {
      DefaultOnce(rules, Last(w.kindWhiteList), x);
      assert [rules[0]][1..] == [];
      UidKey(DEFAULT_DELETE[0]);
      var paths := Deleting.SplitAll(DEFAULT_DELETE);
      assert paths[0] == UID;
      Deleting.RemoveAllExact(paths, x, at);
      assert Deleting.Covered(paths, at) <==> KeysOf(UID) <= at;
    }
  }

  /** The configured and the default rules remove something at the location from a mapped object. */
  ghost predicate Deleted(c: DRFilterConfig, t: Document, at: Location) {
    var configured := Deleting.DeleteForKind(DeletesOf(c).kindDeleteList, t).tree;
    var w := WhiteListOf(c);
    || KindsHit(DeletesOf(c).kindDeleteList, t, at)
    || (w.kindWhiteList != [] && KindOf(configured) == Last(w.kindWhiteList) && KeysOf(UID) <= at)
    || ObjectsHit(DeletesOf(c).objectDeleteList, Deleting.DeleteForKind(KindDefaults(w), configured).tree, at)
  }

  /** What an accepted object looks like, location by location: it is the mapped object without what
      a rule hit when it was its turn, and without the uid if its kind was white-listed last. */
  lemma AcceptedExact(c: DRFilterConfig, orders: seq<Mapping.Orders>, gvr: GroupVersionResource, d: Document,
      at: Location)
    requires OrdersFit(Chain(Some(Enrich(c))), orders)
    requires ChainOut(Chain(Some(Enrich(c))), orders, gvr, d).verdict == Accept
    ensures MapOrders(c, MapOrder(Enrich(c), orders))
    ensures var t := Map(c, MapOrder(Enrich(c), orders), d).tree;
            Probe(ChainOut(Chain(Some(Enrich(c))), orders, gvr, d).tree, at) ==
              if Deleted(c, t, at) then None else Probe(t, at)
  {
    var e, o := Enrich(c), MapOrder(Enrich(c), orders);
    ChainRuns(e, orders, gvr, d);
    AcceptedByKind(c, orders, gvr, d);
    var t := Map(e, o, d).tree;
    assert t == Map(c, o, d).tree;
    DeleteFromIsOut(e, t);
    var v, w := DeletesOf(c), WhiteListOf(c);
    assert DeletesOf(e).kindDeleteList == v.kindDeleteList + KindDefaults(w);
    assert v.objectDeleteList + [] == v.objectDeleteList;
    KindListSplit(v.kindDeleteList, KindDefaults(w), t);
    KindListExact(v.kindDeleteList, t, at);
    var configured := Deleting.DeleteForKind(v.kindDeleteList, t).tree;
    DefaultsExact(w, configured, at);
    ObjectListExact(v.objectDeleteList, Deleting.DeleteForKind(KindDefaults(w), configured).tree, at);
  }

  /** So a string is empty afterwards exactly if it is after mapping, or is deleted. */
  lemma StringKeptIff(c: DRFilterConfig, orders: seq<Mapping.Orders>, gvr: GroupVersionResource, d: Document,
      name: Path)
    requires OrdersFit(Chain(Some(Enrich(c))), orders)
    requires ChainOut(Chain(Some(Enrich(c))), orders, gvr, d).verdict == Accept
    ensures MapOrders(c, MapOrder(Enrich(c), orders))
    ensures var t := Map(c, MapOrder(Enrich(c), orders), d).tree;
            GetString(ChainOut(Chain(Some(Enrich(c))), orders, gvr, d).tree, name) ==
            if Deleted(c, t, KeysOf(name)) then "" else GetString(t, name)
  {
    AcceptedExact(c, orders, gvr, d, KeysOf(name));
    Deleting.StringIsProbed(ChainOut(Chain(Some(Enrich(c))), orders, gvr, d).tree, name);
    Deleting.StringIsProbed(Map(c, MapOrder(Enrich(c), orders), d).tree, name);
  }

  /** The uid of the kind that is white-listed last is lost, unless a kind rule makes an object of
      another kind of it first. */
  lemma LastKindLosesUid(c: DRFilterConfig, orders: seq<Mapping.Orders>, gvr: GroupVersionResource, d: Document)
    requires OrdersFit(Chain(Some(Enrich(c))), orders)
    requires ChainOut(Chain(Some(Enrich(c))), orders, gvr, d).verdict == Accept
    requires WhiteListOf(c).kindWhiteList != [] && KindOf(d) == Last(WhiteListOf(c).kindWhiteList)
    requires Deleting.SparesKind(DeletesOf(c).kindDeleteList, KindOf(d))
    ensures GetUID(ChainOut(Chain(Some(Enrich(c))), orders, gvr, d).tree) == ""
  {
    var o := MapOrder(Enrich(c), orders);
    StringKeptIff(c, orders, gvr, d, UID);
    ChainRuns(Enrich(c), orders, gvr, d);
    assert Map(Enrich(c), o, d) == Map(c, o, d);
    MapKeepsKind(c, o, d);
    Deleting.KindRulesSpare(DeletesOf(c).kindDeleteList, Map(c, o, d).tree, KIND);
  }
}
