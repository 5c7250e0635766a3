/**
 A waiting object is filtered again every time the worker picks it up, and the
 filters rewrite it in place. This module shows which objects a pass leaves alone, and
 when the number of rounds an object waited cannot be seen in what is handed over.
 */
module Retry {
  import opened Wrappers
  import opened Json
  import opened Strconv
  import opened ApiTypes
  import Mapping = VariableMappingFilter
  import opened MappingLaws
  import opened MappingOrder
  import opened MappingPruned
  import Deleting = VariableDeleteFilter
  import opened FilterChain
  import opened InstalledChain

  // ---------------------------------------------------------------------
  // Deletion
  // ---------------------------------------------------------------------

  lemma DeleteFromIsOut(e: DRFilterConfig, d: Document)
    ensures DeleteFrom(e, d) == Deleting.DeleteOut(DeletesOf(e), d)
  {
  }

  lemma DeletePrunes(e: DRFilterConfig, d: Document)
    ensures Pruned(DeleteFrom(e, d).tree, d)
  {
    PrunedReflexive(d);
    var config := DeletesOf(e);
    var middle := Deleting.DeleteForKind(config.kindDeleteList, d).tree;
    Deleting.DeleteForKindPrunes(config.kindDeleteList, d);
    Deleting.DeleteForObjectPrunes(config.objectDeleteList, middle);
    PrunedTransitive(Deleting.DeleteForObject(config.objectDeleteList, middle).tree, middle, d);
  }

  /** No delete rule for objects of the kind is about the string. */
  ghost predicate DeletesAround(c: DRFilterConfig, kind: GroupVersionKind, name: Path) {
    Deleting.Spares(DeletesOf(c).kindDeleteList, kind, name)
      && Deleting.Spares(DeletesOf(c).objectDeleteList, kind, name)
  }

  /** No delete rule for objects of the kind takes what the kind is read from. */
  ghost predicate KeepsKind(c: DRFilterConfig, kind: GroupVersionKind) {
    DeletesAround(c, kind, KIND) && DeletesAround(c, kind, API_VERSION)
  }

  /** The default rules are about the uid of the kind that is white-listed last. */
  lemma EnrichedAround(c: DRFilterConfig, kind: GroupVersionKind, name: Path)
    requires DeletesAround(c, kind, name)
    requires UID <= name && WhiteListOf(c).kindWhiteList != [] ==> kind != Last(WhiteListOf(c).kindWhiteList)
    ensures DeletesAround(Enrich(c), kind, name)
  {
    var v, w := DeletesOf(c), WhiteListOf(c);
    UidKey(DEFAULT_DELETE[0]);
    assert v.kindDeleteList + [] == v.kindDeleteList && v.objectDeleteList + [] == v.objectDeleteList;
    assert DeletesOf(Enrich(c)).kindDeleteList == v.kindDeleteList + KindDefaults(w);
    assert DeletesOf(Enrich(c)).objectDeleteList == v.objectDeleteList + ObjectDefaults(w);
  }

  lemma EnrichedKeepsKind(c: DRFilterConfig, kind: GroupVersionKind)
    requires KeepsKind(c, kind)
    ensures KeepsKind(Enrich(c), kind)
  {
    assert UID[0] == "metadata" && KIND[0] == "kind" && API_VERSION[0] == "apiVersion";
    EnrichedAround(c, kind, KIND);
    EnrichedAround(c, kind, API_VERSION);
  }

  lemma DeleteKeepsString(c: DRFilterConfig, t: Document, name: Path)
    requires KeepsKind(c, KindOf(t)) && DeletesAround(c, KindOf(t), name)
    requires UID <= name && WhiteListOf(c).kindWhiteList != [] ==> KindOf(t) != Last(WhiteListOf(c).kindWhiteList)
    ensures SameKindStrings(DeleteFrom(Enrich(c), t).tree, t)
    ensures GetString(DeleteFrom(Enrich(c), t).tree, name) == GetString(t, name)
  {
    EnrichedKeepsKind(c, KindOf(t));
    EnrichedAround(c, KindOf(t), name);
    DeleteFromIsOut(Enrich(c), t);
    Deleting.OutSpares(DeletesOf(Enrich(c)), t, name);
  }

  lemma DeleteKeepsKind(c: DRFilterConfig, t: Document)
    requires KeepsKind(c, KindOf(t))
    ensures SameKindStrings(DeleteFrom(Enrich(c), t).tree, t)
  {
    assert UID[0] == "metadata" && KIND[0] == "kind";
    DeleteKeepsString(c, t, KIND);
  }

  // ---------------------------------------------------------------------
  // Mapping
  // ---------------------------------------------------------------------

  ghost function RulesFor(e: DRFilterConfig, o: Mapping.Orders, d: Document): seq<Mapping.Rule>
    requires MapOrders(e, o)
  {
    if e.variableMappingFilter.Some? then KindRules(e.variableMappingFilter.value.kindVariableMappings, o, KindOf(d))
      else []
  }

  /** A rule of the mapping filter for objects of the kind, in whatever order they run. */
  ghost predicate HasRule(e: DRFilterConfig, kind: GroupVersionKind, r: Mapping.Rule) {
    e.variableMappingFilter.Some? && EntriesHave(e.variableMappingFilter.value.kindVariableMappings, kind, r)
  }

  ghost predicate EntriesHave(entries: seq<VariableMappings>, kind: GroupVersionKind, r: Mapping.Rule) {
    exists i :: 0 <= i < |entries| && EntryHas(entries[i], kind, r)
  }

  ghost predicate EntryHas(entry: VariableMappings, kind: GroupVersionKind, r: Mapping.Rule) {
    entry.kind == Some(kind) && r.0 in entry.keyValueMappings && entry.keyValueMappings[r.0] == r.1
  }

  lemma {:induction false} KindRulesHave(entries: seq<VariableMappings>, orders: Mapping.Orders, kind: GroupVersionKind,
      r: Mapping.Rule)
    requires Mapping.AreOrders(orders, entries)
    ensures r in KindRules(entries, orders, kind) <==> EntriesHave(entries, kind, r)
  {
    if entries != [] {
      assert Mapping.AreOrders(orders[1..], entries[1..]);
      KindRulesHave(entries[1..], orders[1..], kind, r);
      var kv := entries[0].keyValueMappings;
      if entries[0].kind == Some(kind) {
        var block := Mapping.RulesOf(orders[0], kv);
        if EntryHas(entries[0], kind, r) {
          assert r.0 in orders[0];
          var i :| 0 <= i < |orders[0]| && orders[0][i] == r.0;
          assert block[i] == r;
        }
        if r in block {
          var i :| 0 <= i < |block| && block[i] == r;
          assert orders[0][i] in orders[0];
        }
        assert r in block <==> EntryHas(entries[0], kind, r);
      }
      if EntriesHave(entries, kind, r) && !EntryHas(entries[0], kind, r) {
        var i :| 0 <= i < |entries| && EntryHas(entries[i], kind, r);
        assert EntryHas(entries[1..][i - 1], kind, r);
      }
      if EntriesHave(entries[1..], kind, r) {
        var i :| 0 <= i < |entries[1..]| && EntryHas(entries[1..][i], kind, r);
        assert EntryHas(entries[i + 1], kind, r);
      }
    }
  }

  lemma RulesHave(e: DRFilterConfig, o: Mapping.Orders, d: Document, r: Mapping.Rule)
    requires MapOrders(e, o)
    ensures r in RulesFor(e, o, d) <==> HasRule(e, KindOf(d), r)
  {
    if e.variableMappingFilter.Some? {
      KindRulesHave(e.variableMappingFilter.value.kindVariableMappings, o, KindOf(d), r);
    }
  }

  /** The rules for the object's kind do not interfere on it. */
  ghost predicate MappingsApart(e: DRFilterConfig, d: Document) {
    e.variableMappingFilter.Some? ==> Independent(e.variableMappingFilter.value.kindVariableMappings, d)
  }

  /** The mapping filter is a run of the rules for the object's kind. */
  lemma MapRuns(e: DRFilterConfig, o: Mapping.Orders, d: Document)
    requires MapOrders(e, o)
    ensures var all := Mapping.ApplyRules(RulesFor(e, o, d), d);
            (Map(e, o, d).verdict == Passed ==> Map(e, o, d) == all)
            && (Map(e, o, d).verdict == Passed <==>
                (e.variableMappingFilter.Some? ==> AllKinded(e.variableMappingFilter.value.kindVariableMappings))
                  && all.verdict == Passed)
  {
    if e.variableMappingFilter.Some? {
      MapOutRules(e.variableMappingFilter.value.kindVariableMappings, o, d);
    }
  }

  lemma MapKeepsKind(e: DRFilterConfig, o: Mapping.Orders, d: Document)
    requires MapOrders(e, o) && Map(e, o, d).verdict == Passed
    ensures SameKindStrings(Map(e, o, d).tree, d)
  {
    MapRuns(e, o, d);
    KindKeptByRules(RulesFor(e, o, d), d);
  }

  lemma AnyMapOrder(e: DRFilterConfig, x: Mapping.Orders, y: Mapping.Orders, d: Document)
    requires MapOrders(e, x) && MapOrders(e, y) && MappingsApart(e, d) && Map(e, x, d).verdict == Passed
    ensures Map(e, y, d) == Map(e, x, d)
  {
    if e.variableMappingFilter.Some? {
      OrderDoesNotMatter(e.variableMappingFilter.value.kindVariableMappings, x, y, d);
    }
  }

  /** Rules that do not interfere on an object do not on what is left of its mapped form. */
  lemma ApartStays(e: DRFilterConfig, o: Mapping.Orders, d: Document, left: Document)
    requires MapOrders(e, o) && MappingsApart(e, d) && Map(e, o, d).verdict == Passed
    requires Pruned(left, Map(e, o, d).tree) && SameKindStrings(left, d)
    ensures MappingsApart(e, left)
  {
    if e.variableMappingFilter.Some? {
      var entries := e.variableMappingFilter.value.kindVariableMappings;
      forall orders | Mapping.AreOrders(orders, entries)
        ensures PairwiseApart(KindRules(entries, orders, KindOf(left)), left)
      {
        AnyMapOrder(e, o, orders, d);
        MapRuns(e, orders, d);
        AgainPasses(RulesFor(e, orders, d), d, left);
      }
    }
  }

  // ---------------------------------------------------------------------
  // The objects a pass leaves alone
  // ---------------------------------------------------------------------

  /** All paths the installed configuration deletes from an object that is matched like `x`. */
  ghost function Paths(c: DRFilterConfig, x: Document): (r: seq<Path>)
    ensures forall i | 0 <= i < |r| :: r[i] != []
  {
    Deleting.PathsFor(DeletesOf(Enrich(c)), x)
  }

  /** No mapping rule for the object changes what it meets. */
  ghost predicate NothingToRewrite(c: DRFilterConfig, x: Document) {
    forall r | HasRule(c, KindOf(x), r) :: RuleLeavesBe(r, x)
  }

  /** No delete path for the object leads to anything. */
  ghost predicate NothingToDelete(c: DRFilterConfig, x: Document) {
    forall at | Deleting.Covered(Paths(c, x), at) :: Probe(x, at).None?
  }

  /** Whatever a mapping rule would add to the object is deleted again. */
  ghost predicate AddedIsDeleted(c: DRFilterConfig, x: Document) {
    forall r, at | HasRule(c, KindOf(x), r) && RuleAdds(r, x, at) :: Deleting.Covered(Paths(c, x), at)
  }

  /** The delete rules that are looked at for an object of the kind have what they need. */
  ghost predicate RulesComplete(c: DRFilterConfig, kind: GroupVersionKind) {
    && (forall i | 0 <= i < |DeletesOf(c).kindDeleteList| :: DeletesOf(c).kindDeleteList[i].kind.Some?)
    && Deleting.WellFormedFor(DeletesOf(c).objectDeleteList, kind)
  }

  /** The chain looks at all of the object, and then lets it pass. */
  ghost predicate Taken(c: DRFilterConfig, o: Mapping.Orders, gvr: GroupVersionResource, x: Document)
    requires MapOrders(c, o)
  {
    && KindOf(x) in WhiteListOf(c).kindWhiteList && WhiteListOf(c).objectWhiteList == []
    && Map(c, o, x).verdict == Passed && RulesComplete(c, KindOf(x)) && VolumeKnown(gvr, x)
  }

  lemma EnrichedComplete(c: DRFilterConfig, kind: GroupVersionKind)
    requires WhiteListOf(c).objectWhiteList == []
    ensures RulesComplete(Enrich(c), kind) <==> RulesComplete(c, kind)
  {
    var v, w := DeletesOf(c), WhiteListOf(c);
    assert v.kindDeleteList + [] == v.kindDeleteList && v.objectDeleteList + [] == v.objectDeleteList;
    assert DeletesOf(Enrich(c)).kindDeleteList == v.kindDeleteList + KindDefaults(w);
    assert DeletesOf(Enrich(c)).objectDeleteList == v.objectDeleteList;
  }

  /** Mapping only adds to the object, if and only if it has nothing to rewrite; then it keeps what the
      delete rules are matched against. */
  lemma MapAdds(c: DRFilterConfig, o: Mapping.Orders, x: Document)
    requires MapOrders(c, o) && MappingsApart(c, x) && Map(c, o, x).verdict == Passed
    ensures Pruned(x, Map(c, o, x).tree) <==> NothingToRewrite(c, x)
    ensures NothingToRewrite(c, x) ==> SameKindStrings(x, Map(c, o, x).tree) && SameKey(x, Map(c, o, x).tree)
    ensures NothingToRewrite(c, x) ==>
              (Deleting.RemoveAll(Paths(c, x), Map(c, o, x).tree) == x <==>
                NothingToDelete(c, x) && AddedIsDeleted(c, x))
  {
    var rules := RulesFor(c, o, x);
    MapRuns(c, o, x);
    assert PairwiseApart(rules, x);
    OnlyAddsIff(rules, x);
    forall r ensures r in rules <==> HasRule(c, KindOf(x), r) {
      RulesHave(c, o, x, r);
    }
    assert LeaveBe(rules, x) <==> NothingToRewrite(c, x) by {
      assert forall i | 0 <= i < |rules| :: rules[i] in rules;
    }
    if NothingToRewrite(c, x) {
      AddingKeepsString(rules, x, KIND);
      AddingKeepsString(rules, x, API_VERSION);
      AddingKeepsString(rules, x, NAME);
      AddingKeepsString(rules, x, NAMESPACE);
      DeletedBackIff(rules, x, Paths(c, x));
      assert (forall at | Adds(rules, x, at) :: Deleting.Covered(Paths(c, x), at)) <==> AddedIsDeleted(c, x) by {
        AddsByRule(c, rules, x);
      }
    }
  }

  lemma AddsByRule(c: DRFilterConfig, rules: seq<Mapping.Rule>, x: Document)
    requires forall r :: r in rules <==> HasRule(c, KindOf(x), r)
    ensures (forall at | Adds(rules, x, at) :: Deleting.Covered(Paths(c, x), at)) <==> AddedIsDeleted(c, x)
  {
    if AddedIsDeleted(c, x) {
      forall at | Adds(rules, x, at) ensures Deleting.Covered(Paths(c, x), at) {
        var i :| 0 <= i < |rules| && RuleAdds(rules[i], x, at);
        assert rules[i] in rules;
      }
    }
    if forall at | Adds(rules, x, at) :: Deleting.Covered(Paths(c, x), at) {
      forall r, at | HasRule(c, KindOf(x), r) && RuleAdds(r, x, at) ensures Deleting.Covered(Paths(c, x), at) {
        assert r in rules;
        var i :| 0 <= i < |rules| && rules[i] == r;
        assert Adds(rules, x, at);
      }
    }
  }

  /** A pass accepts an object and leaves it as it is, if and only if it is let through to the end,
      no rule changes what it meets, no delete path leads to anything, and whatever mapping adds is
      deleted again. */
  lemma FixedIff(c: DRFilterConfig, orders: seq<Mapping.Orders>, gvr: GroupVersionResource, x: Document)
    requires OrdersFit(Chain(Some(Enrich(c))), orders) && MapOrders(c, MapOrder(Enrich(c), orders))
             && MappingsApart(c, x)
    ensures ChainOut(Chain(Some(Enrich(c))), orders, gvr, x) == FilterOutcome(x, Accept) <==>
            && Taken(c, MapOrder(Enrich(c), orders), gvr, x)
            && NothingToRewrite(c, x) && NothingToDelete(c, x) && AddedIsDeleted(c, x)
  {
    var e, o := Enrich(c), MapOrder(Enrich(c), orders);
    ChainRuns(e, orders, gvr, x);
    var t := Map(e, o, x);
    assert t == Map(c, o, x);
    if t.verdict == Passed {
      MapAdds(c, o, x);
      DeleteFromIsOut(e, t.tree);
      DeletePrunes(e, t.tree);
      if WhiteListOf(c).objectWhiteList == [] {
        EnrichedComplete(c, KindOf(x));
        if NothingToRewrite(c, x) {
          Deleting.DeletesBackIff(DeletesOf(e), x, t.tree);
        }
      } else {
        InstalledDeletePanics(c, t.tree);
      }
    }
  }

  // ---------------------------------------------------------------------
  // Another pass
  // ---------------------------------------------------------------------

  /** Where deletion leaves a string that a rule for the object rewrote, the rule would leave it
      alone the next time. */
  ghost predicate Settles(c: DRFilterConfig, d: Document, left: Document) {
    forall r | HasRule(c, KindOf(d), r) :: SurvivorsSettle(r, d, left)
  }

  /** What is left of a mapped object is let through again, and has nothing to rewrite exactly if it
      settles. */
  lemma MapAgain(c: DRFilterConfig, x: Mapping.Orders, y: Mapping.Orders, d: Document, left: Document)
    requires MapOrders(c, x) && MapOrders(c, y) && MappingsApart(c, d) && Map(c, x, d).verdict == Passed
    requires Pruned(left, Map(c, x, d).tree) && SameKindStrings(left, d)
    ensures MappingsApart(c, left) && Map(c, y, left).verdict == Passed
    ensures NothingToRewrite(c, left) <==> Settles(c, d, left)
  {
    AnyMapOrder(c, x, y, d);
    MapRuns(c, y, d);
    MapRuns(c, y, left);
    var rules := RulesFor(c, y, d);
    assert PairwiseApart(rules, d);
    BetweenIff(rules, d, left);
    ApartStays(c, x, d, left);
    MapAdds(c, y, left);
    forall r ensures r in rules <==> HasRule(c, KindOf(d), r) {
      RulesHave(c, y, d, r);
    }
    assert AllSettle(rules, d, left) <==> Settles(c, d, left) by {
      assert forall i | 0 <= i < |rules| :: rules[i] in rules;
    }
  }

  lemma SameKind(c: DRFilterConfig, o: Mapping.Orders, d: Document)
    requires MapOrders(c, o) && Map(c, o, d).verdict == Passed && KeepsKind(c, KindOf(d))
    ensures MapOrders(Enrich(c), o) && SameKindStrings(DeleteFrom(Enrich(c), Map(Enrich(c), o, d).tree).tree, d)
    ensures SameKindStrings(Map(Enrich(c), o, d).tree, d)
  {
    MapKeepsKind(c, o, d);
    DeleteKeepsKind(c, Map(c, o, d).tree);
  }

  /** Passing once shows that the delete rules have what they need. */
  lemma PassedIsComplete(c: DRFilterConfig, t: Document)
    requires DeleteFrom(Enrich(c), t).verdict == Passed && SameKindStrings(DeleteFrom(Enrich(c), t).tree, t)
    requires WhiteListOf(c).objectWhiteList == []
    ensures RulesComplete(c, KindOf(t))
  {
    var config := DeletesOf(Enrich(c));
    var middle := Deleting.DeleteForKind(config.kindDeleteList, t).tree;
    var r := DeleteFrom(Enrich(c), t).tree;
    DeleteFromIsOut(Enrich(c), t);
    Deleting.PassedIsKinded(config.kindDeleteList, t);
    Deleting.DeleteForKindPrunes(config.kindDeleteList, t);
    Deleting.DeleteForObjectPrunes(config.objectDeleteList, middle);
    Deleting.StringBetween(r, middle, t, API_VERSION);
    Deleting.StringBetween(r, middle, t, KIND);
    Deleting.PassedIsWellFormed(config.objectDeleteList, middle);
    EnrichedComplete(c, KindOf(t));
  }

  /** What another pass must find: nothing to rewrite, nothing to delete, nothing to add for good. */
  ghost predicate Stable(c: DRFilterConfig, d: Document, left: Document) {
    Settles(c, d, left) && NothingToDelete(c, left) && AddedIsDeleted(c, left)
  }

  /** A second pass, in any iteration order, accepts the object and leaves it as it is, if and only if
      what was rewritten and not deleted settles, no delete path for what is left leads to anything,
      and each location a rule would add something to is below such a path. */
  lemma SecondPass(c: DRFilterConfig, x: seq<Mapping.Orders>, y: seq<Mapping.Orders>, gvr: GroupVersionResource,
      d: Document)
    requires OrdersFit(Chain(Some(Enrich(c))), x) && OrdersFit(Chain(Some(Enrich(c))), y)
    requires ChainOut(Chain(Some(Enrich(c))), x, gvr, d).verdict == Accept
    requires MappingsApart(c, d) && KeepsKind(c, KindOf(d))
    ensures var r := ChainOut(Chain(Some(Enrich(c))), x, gvr, d);
            ChainOut(Chain(Some(Enrich(c))), y, gvr, r.tree) == r <==> Stable(c, d, r.tree)
  {
    var e := Enrich(c);
    var ox, oy := MapOrder(e, x), MapOrder(e, y);
    var r := ChainOut(Chain(Some(e)), x, gvr, d).tree;
    ChainRuns(e, x, gvr, d);
    AcceptedByKind(c, x, gvr, d);
    var t := Map(c, ox, d).tree;
    assert t == Map(e, ox, d).tree && r == DeleteFrom(e, t).tree;
    SameKind(c, ox, d);
    DeletePrunes(e, t);
    MapAgain(c, ox, oy, d, r);
    PassedIsComplete(c, t);
    FixedIff(c, y, gvr, r);
  }

  // ---------------------------------------------------------------------
  // Objects that keep their name
  // ---------------------------------------------------------------------

  /** Delete rules that name single objects are there together with none about the name. */
  ghost predicate KeepsName(c: DRFilterConfig, kind: GroupVersionKind) {
    DeletesOf(c).objectDeleteList != [] ==> DeletesAround(c, kind, NAME) && DeletesAround(c, kind, NAMESPACE)
  }

  lemma KeyKept(c: DRFilterConfig, t: Document)
    requires KeepsKind(c, KindOf(t)) && KeepsName(c, KindOf(t)) && DeletesOf(c).objectDeleteList != []
    ensures SameKey(DeleteFrom(Enrich(c), t).tree, t)
  {
    assert UID[1] == "uid" && NAME[1] == "name" && NAMESPACE[1] == "namespace";
    DeleteKeepsString(c, t, NAME);
    DeleteKeepsString(c, t, NAMESPACE);
  }

  /** Then deletion removes exactly what the paths for the mapped object cover, and what is left is
      matched by the same rules. */
  lemma LeftExactly(c: DRFilterConfig, t: Document, at: Location)
    requires KeepsKind(c, KindOf(t)) && KeepsName(c, KindOf(t)) && WhiteListOf(c).objectWhiteList == []
    requires DeleteFrom(Enrich(c), t).verdict == Passed
    ensures var left := DeleteFrom(Enrich(c), t).tree;
            Paths(c, left) == Paths(c, t)
              && Probe(left, at) == if Deleting.Covered(Paths(c, t), at) then None else Probe(t, at)
  {
    var config := DeletesOf(Enrich(c));
    assert config.objectDeleteList == DeletesOf(c).objectDeleteList + ObjectDefaults(WhiteListOf(c));
    DeleteFromIsOut(Enrich(c), t);
    DeleteKeepsKind(c, t);
    if DeletesOf(c).objectDeleteList != [] {
      KeyKept(c, t);
    }
    Deleting.OutIsRemoveAll(config, t);
    Deleting.RemoveAllExact(Paths(c, t), t, at);
  }

  /** No string that a rule rewrites above every delete path would be rewritten again. */
  ghost predicate RulesSettle(c: DRFilterConfig, d: Document, paths: seq<Path>) {
    forall r, at: Location, s |
      HasRule(c, KindOf(d), r) && r.1.variableType.StrVar? && RuleWrites(r, d, at)
      && Probe(d, at) == Some(Leaf(Str(s))) && !Deleting.Covered(paths, at) ::
      r.1.fromSubStr == r.1.toSubStr || !Contains(ReplaceFirst(s, r.1.fromSubStr, r.1.toSubStr), r.1.fromSubStr)
  }

  lemma RewrittenIsThere(c: DRFilterConfig, o: Mapping.Orders, d: Document, r: Mapping.Rule, at: Location)
    requires MapOrders(c, o) && Map(c, o, d).verdict == Passed && MappingsApart(c, d)
    requires HasRule(c, KindOf(d), r) && RuleWrites(r, d, at)
    ensures Probe(Map(c, o, d).tree, at) == Rewritten(r.1, Probe(d, at))
  {
    var rules := RulesFor(c, o, d);
    MapRuns(c, o, d);
    RulesHave(c, o, d, r);
    var i :| 0 <= i < |rules| && rules[i] == r;
    assert PairwiseApart(rules, d);
    OnePass(rules, i, d, at);
  }

  /** What the rules would add to what is left, they wrote the first time. */
  lemma AddedWasThere(c: DRFilterConfig, o: Mapping.Orders, d: Document, left: Document, r: Mapping.Rule, at: Location)
    requires MapOrders(c, o) && Map(c, o, d).verdict == Passed && MappingsApart(c, d)
    requires Pruned(left, Map(c, o, d).tree) && SameKindStrings(left, d)
    requires HasRule(c, KindOf(left), r) && RuleAdds(r, left, at)
    ensures Probe(Map(c, o, d).tree, at).Some?
  {
    var rules := RulesFor(c, o, d);
    MapRuns(c, o, d);
    RulesHave(c, o, d, r);
    var i :| 0 <= i < |rules| && rules[i] == r;
    assert PairwiseApart(rules, d);
    WroteThere(rules, i, d, left, at);
    PassTogether(rules, d);
    RuleIsIterate(r, d);
    ConstantWhereWritten(PathOf(r), r.1, d, at);
  }

  /** A rewritten string is left exactly if no path leads to it. */
  lemma SettlesByPaths(c: DRFilterConfig, o: Mapping.Orders, d: Document, left: Document, paths: seq<Path>)
    requires MapOrders(c, o) && Map(c, o, d).verdict == Passed && MappingsApart(c, d)
    requires forall at :: Probe(left, at) == if Deleting.Covered(paths, at) then None else Probe(Map(c, o, d).tree, at)
    ensures Settles(c, d, left) <==> RulesSettle(c, d, paths)
  {
    forall r, at: Location, s |
      HasRule(c, KindOf(d), r) && r.1.variableType.StrVar? && RuleWrites(r, d, at) && Probe(d, at) == Some(Leaf(Str(s)))
      ensures Probe(left, at).Some? <==> !Deleting.Covered(paths, at)
    {
      RewrittenIsThere(c, o, d, r, at);
    }
    if Settles(c, d, left) {
      forall r, at: Location, s |
        HasRule(c, KindOf(d), r) && r.1.variableType.StrVar? && RuleWrites(r, d, at)
        && Probe(d, at) == Some(Leaf(Str(s))) && !Deleting.Covered(paths, at)
        ensures r.1.fromSubStr == r.1.toSubStr
                || !Contains(ReplaceFirst(s, r.1.fromSubStr, r.1.toSubStr), r.1.fromSubStr)
      {
        assert SurvivorsSettle(r, d, left) && Probe(left, at).Some?;
      }
    }
  }

  /** If deletion leaves names alone, only the strings matter: nothing that is left is deleted by the
      next pass, and what it adds is. So the rules and the object decide. */
  lemma StableByRules(c: DRFilterConfig, o: Mapping.Orders, d: Document)
    requires MapOrders(c, o) && Map(c, o, d).verdict == Passed && MappingsApart(c, d)
    requires KeepsKind(c, KindOf(d)) && KeepsName(c, KindOf(d)) && WhiteListOf(c).objectWhiteList == []
    requires DeleteFrom(Enrich(c), Map(c, o, d).tree).verdict == Passed
    ensures var t := Map(c, o, d).tree;
            Stable(c, d, DeleteFrom(Enrich(c), t).tree) <==> RulesSettle(c, d, Paths(c, t))
  {
    var t := Map(c, o, d).tree;
    var left := DeleteFrom(Enrich(c), t).tree;
    MapKeepsKind(c, o, d);
    forall at
      ensures Paths(c, left) == Paths(c, t)
              && Probe(left, at) == if Deleting.Covered(Paths(c, t), at) then None else Probe(t, at)
    {
      LeftExactly(c, t, at);
    }
    SettlesByPaths(c, o, d, left, Paths(c, t));
    SameKind(c, o, d);
    DeletePrunes(Enrich(c), t);
    LeftExactly(c, t, []);
    forall r, at | HasRule(c, KindOf(left), r) && RuleAdds(r, left, at) ensures Deleting.Covered(Paths(c, left), at) {
      AddedWasThere(c, o, d, left, r, at);
    }
  }

  // ---------------------------------------------------------------------
  // Any number of passes
  // ---------------------------------------------------------------------

  /** `k` rounds of waiting: one pass per round. */
  ghost function Rounds(e: DRFilterConfig, rounds: seq<seq<Mapping.Orders>>, gvr: GroupVersionResource,
      d: Document): FilterOutcome
    requires AllFit(e, rounds)
  {
    if rounds == [] then FilterOutcome(d, Accept)
    else
      var r := ChainOut(Chain(Some(e)), rounds[0], gvr, d);
      if r.verdict != Accept then r else Rounds(e, rounds[1..], gvr, r.tree)
  }

  ghost predicate AllFit(e: DRFilterConfig, rounds: seq<seq<Mapping.Orders>>) {
    forall i | 0 <= i < |rounds| :: OrdersFit(Chain(Some(e)), rounds[i])
  }

  lemma {:induction false} MoreRounds(c: DRFilterConfig, x: seq<Mapping.Orders>, rounds: seq<seq<Mapping.Orders>>,
      gvr: GroupVersionResource, d: Document)
    requires OrdersFit(Chain(Some(Enrich(c))), x) && AllFit(Enrich(c), rounds)
    requires ChainOut(Chain(Some(Enrich(c))), x, gvr, d).verdict == Accept && MappingsApart(c, d)
             && KeepsKind(c, KindOf(d))
    requires Stable(c, d, ChainOut(Chain(Some(Enrich(c))), x, gvr, d).tree)
    ensures Rounds(Enrich(c), rounds, gvr, ChainOut(Chain(Some(Enrich(c))), x, gvr, d).tree) ==
            ChainOut(Chain(Some(Enrich(c))), x, gvr, d)
  {
    if rounds != [] {
      SecondPass(c, x, rounds[0], gvr, d);
      MoreRounds(c, x, rounds[1..], gvr, d);
    }
  }

  /** One pass, in any order, does what another does in any other. */
  lemma AnyOrderOnce(c: DRFilterConfig, x: seq<Mapping.Orders>, y: seq<Mapping.Orders>, gvr: GroupVersionResource,
      d: Document)
    requires OrdersFit(Chain(Some(Enrich(c))), x) && OrdersFit(Chain(Some(Enrich(c))), y)
    requires ChainOut(Chain(Some(Enrich(c))), x, gvr, d).verdict == Accept && MappingsApart(c, d)
    ensures ChainOut(Chain(Some(Enrich(c))), y, gvr, d) == ChainOut(Chain(Some(Enrich(c))), x, gvr, d)
  {
    ChainRuns(Enrich(c), x, gvr, d);
    ChainRuns(Enrich(c), y, gvr, d);
    AnyMapOrder(Enrich(c), MapOrder(Enrich(c), x), MapOrder(Enrich(c), y), d);
  }

  /** The object handed over depends neither on how many rounds it waited, nor on the orders in which
      Go ranged over the rules in each of them, if and only if what one pass makes of it is stable. */
  lemma RetryIndependent(c: DRFilterConfig, once: seq<Mapping.Orders>, gvr: GroupVersionResource, d: Document)
    requires OrdersFit(Chain(Some(Enrich(c))), once)
    requires ChainOut(Chain(Some(Enrich(c))), once, gvr, d).verdict == Accept && MappingsApart(c, d)
             && KeepsKind(c, KindOf(d))
    ensures (forall rounds | rounds != [] && AllFit(Enrich(c), rounds) ::
               Rounds(Enrich(c), rounds, gvr, d) == ChainOut(Chain(Some(Enrich(c))), once, gvr, d))
            <==> Stable(c, d, ChainOut(Chain(Some(Enrich(c))), once, gvr, d).tree)
  {
    var e := Enrich(c);
    var r := ChainOut(Chain(Some(e)), once, gvr, d);
    if Stable(c, d, r.tree) {
      forall rounds | rounds != [] && AllFit(e, rounds) ensures Rounds(e, rounds, gvr, d) == r {
        AnyOrderOnce(c, once, rounds[0], gvr, d);
        MoreRounds(c, once, rounds[1..], gvr, d);
      }
    }
    if forall rounds | rounds != [] && AllFit(e, rounds) :: Rounds(e, rounds, gvr, d) == r {
      var twice := [once, once];
      assert AllFit(e, twice) && twice[1..] == [once] && [once][1..] == [];
      assert Rounds(e, [once], gvr, r.tree) == ChainOut(Chain(Some(e)), once, gvr, r.tree);
      assert Rounds(e, twice, gvr, d) == Rounds(e, [once], gvr, r.tree);
      SecondPass(c, once, once, gvr, d);
    }
  }
}
