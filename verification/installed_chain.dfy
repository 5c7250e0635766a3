/**
 What the chain of an installed configuration does to an object: white list, mapping,
 deletion, volume check, and where it dereferences a nil pointer.
 */
module InstalledChain {
  import opened Wrappers
  import opened Json
  import opened ApiTypes
  import Mapping = VariableMappingFilter
  import Deleting = VariableDeleteFilter
  import opened FilterChain

  ghost predicate MapOrders(e: DRFilterConfig, o: Mapping.Orders) {
    e.variableMappingFilter.Some? ==> Mapping.AreOrders(o, e.variableMappingFilter.value.kindVariableMappings)
  }

  ghost function Map(e: DRFilterConfig, o: Mapping.Orders, d: Document): (r: Mapping.Outcome)
    requires MapOrders(e, o)
    ensures r.tree.Obj?
  {
    match e.variableMappingFilter
    case None => Mapping.Outcome(d, Passed)
    case Some(m) => Mapping.MapOut(m.kindVariableMappings, o, d)
  }

  function DeleteFrom(e: DRFilterConfig, d: Document): (r: Mapping.Outcome)
    ensures r.tree.Obj?
  {
    match e.variableDeleteFilter
    case None => Mapping.Outcome(d, Passed)
    case Some(v) => Deleting.DeleteOut(v, d)
  }

  ghost predicate VolumeKnown(gvr: GroupVersionResource, d: Document) {
    gvr == PERSISTENT_VOLUME_CLAIM_GVR ==> GetString(d, VOLUME_NAME) != ""
  }

  /** The iteration order the chain's mapping filter is given, if it has one. */
  ghost function MapOrder(e: DRFilterConfig, orders: seq<Mapping.Orders>): Mapping.Orders
    requires |orders| == |Chain(Some(e))|
  {
    if e.variableMappingFilter.Some? then orders[1] else []
  }

  // ---------------------------------------------------------------------
  // One pass
  // ---------------------------------------------------------------------

  /** The filters from the delete filter on. */
  ghost function AfterMapping(e: DRFilterConfig, gvr: GroupVersionResource, t: Document): FilterOutcome {
    var u := DeleteFrom(e, t);
    if u.verdict != Passed then FromOutcome(u)
    else FilterOutcome(u.tree, if VolumeKnown(gvr, u.tree) then Accept else Reject)
  }

  /** White list, then mapping, then deletion, then the volume check, up to the first that refuses. */
  lemma ChainRuns(e: DRFilterConfig, orders: seq<Mapping.Orders>, gvr: GroupVersionResource, d: Document)
    requires OrdersFit(Chain(Some(e)), orders)
    ensures MapOrders(e, MapOrder(e, orders))
    ensures ChainOut(Chain(Some(e)), orders, gvr, d) ==
            var t := Map(e, MapOrder(e, orders), d);
            if !WhiteListed(e.whiteListFilter, d) then FilterOutcome(d, Reject)
            else if t.verdict != Passed then FromOutcome(t)
            else AfterMapping(e, gvr, t.tree)
  {
    var fs := Chain(Some(e));
    assert fs[0] == WhiteListFilter(e.whiteListFilter);
    assert fs[|fs| - 1] == PVCFilter;
    WalkFrom(fs, orders, gvr, d);
    if e.variableMappingFilter.Some? {
      assert fs[1] == FilterChain.VariableMappingFilter(e.variableMappingFilter.value);
      WalkFrom(fs[1..], orders[1..], gvr, d);
      var t := Map(e, orders[1], d).tree;
      assert fs[1..][1..] == fs[2..] && orders[1..][1..] == orders[2..];
      RestRuns(e, fs[2..], orders[2..], gvr, t);
    } else {
      RestRuns(e, fs[1..], orders[1..], gvr, d);
    }
  }

  lemma RestRuns(e: DRFilterConfig, fs: seq<Filter>, orders: seq<Mapping.Orders>, gvr: GroupVersionResource,
      t: Document)
    requires OrdersFit(fs, orders)
    requires fs ==
             (if e.variableDeleteFilter.Some? then [FilterChain.VariableDeleteFilter(e.variableDeleteFilter.value)]
             else []) + [PVCFilter]
    ensures Walk(fs, orders, gvr, t) == AfterMapping(e, gvr, t)
  {
    WalkFrom(fs, orders, gvr, t);
    if e.variableDeleteFilter.Some? {
      var u := DeleteFrom(e, t).tree;
      assert fs[1..] == [PVCFilter];
      WalkFrom(fs[1..], orders[1..], gvr, u);
      assert Walk(fs[1..][1..], orders[1..][1..], gvr, u) == FilterOutcome(u, Accept);
    } else {
      assert Walk(fs[1..], orders[1..], gvr, t) == FilterOutcome(t, Accept);
    }
  }

  // ---------------------------------------------------------------------
  // Where the delete filter panics
  // ---------------------------------------------------------------------

  /** The kind list panics exactly at a rule without a kind. */
  lemma {:induction false} KindListPanics(rules: seq<VariableDelete>, d: Document)
    ensures Deleting.DeleteForKind(rules, d).verdict ==
            if exists i | 0 <= i < |rules| :: rules[i].kind.None? then Panicked else Passed
  {
    if rules != [] {
      var d' := if rules[0].kind == Some(KindOf(d)) then Deleting.DoDeleteVariables(rules[0].keyValueDelete, d) else d;
      KindListPanics(rules[1..], d');
      assert forall i | 0 < i < |rules| :: rules[i] == rules[1..][i - 1];
      if rules[0].kind.Some? && exists i | 0 <= i < |rules| :: rules[i].kind.None? {
        var i :| 0 <= i < |rules| && rules[i].kind.None?;
        assert rules[1..][i - 1].kind.None?;
      }
    }
  }

  /** Object rule `i` has no kind, or it has the kind the rules before it leave the object with,
      and no object key. */
  ghost predicate Stumbles(rules: seq<VariableDelete>, d: Document, i: nat) {
    i < |rules| &&
    (rules[i].kind.None? ||
     (rules[i].kind == Some(KindOf(Deleting.DeleteForObject(rules[..i], d).tree)) && rules[i].target.None?))
  }

  lemma {:induction false} ObjectListPanics(rules: seq<VariableDelete>, d: Document)
    ensures Deleting.DeleteForObject(rules, d).verdict == if exists i :: Stumbles(rules, d, i) then Panicked else Passed
    decreases |rules|
  {
    if rules != [] {
      var n := |rules| - 1;
      var before, last := rules[..n], [rules[n]];
      ObjectListPanics(before, d);
      assert rules == before + last;
      ObjectListSplit(before, last, d);
      assert forall i: nat | i < n :: before[..i] == rules[..i];
      assert forall i: nat | i < n :: Stumbles(before, d, i) <==> Stumbles(rules, d, i);
      var t := Deleting.DeleteForObject(before, d).tree;
      assert last[1..] == [];
      if exists i :: Stumbles(before, d, i) {
        var i :| Stumbles(before, d, i);
        assert Stumbles(rules, d, i);
      } else {
        assert Deleting.DeleteForObject(last, t).verdict == if Stumbles(rules, d, n) then Panicked else Passed;
      }
    }
  }

  /** A configured kind rule has no kind, or an object rule stumbles once the kind rules are done. */
  ghost predicate ConfiguredStumbles(c: DRFilterConfig, t: Document) {
    var kinds := DeletesOf(Enrich(c)).kindDeleteList;
    || (exists i | 0 <= i < |DeletesOf(c).kindDeleteList| :: DeletesOf(c).kindDeleteList[i].kind.None?)
    || (exists i :: Stumbles(DeletesOf(c).objectDeleteList, Deleting.DeleteForKind(kinds, t).tree, i))
  }

  /** The installed delete filter never fails. It panics exactly if single objects are white-listed
      or a configured rule lacks what it needs. */
  lemma InstalledDeletePanics(c: DRFilterConfig, t: Document)
    ensures DeleteFrom(Enrich(c), t).verdict ==
            if WhiteListOf(c).objectWhiteList != [] || ConfiguredStumbles(c, t) then Panicked else Passed
  {
    var w, v := WhiteListOf(c), DeletesOf(c);
    var kinds, objects := DeletesOf(Enrich(c)).kindDeleteList, DeletesOf(Enrich(c)).objectDeleteList;
    assert kinds == v.kindDeleteList + KindDefaults(w) && objects == v.objectDeleteList + ObjectDefaults(w);
    KindListSplit(v.kindDeleteList, KindDefaults(w), t);
    KindListPanics(v.kindDeleteList, t);
    KindListPanics(KindDefaults(w), Deleting.DeleteForKind(v.kindDeleteList, t).tree);
    var middle := Deleting.DeleteForKind(kinds, t).tree;
    ObjectListSplit(v.objectDeleteList, ObjectDefaults(w), middle);
    ObjectListPanics(v.objectDeleteList, middle);
  }

  /** When an object makes the chain of an installed configuration panic: it is white-listed, and its
      mapping panics, or passes and leaves the delete filter with a rule that lacks what it needs. */
  lemma InstalledPanics(c: DRFilterConfig, orders: seq<Mapping.Orders>, gvr: GroupVersionResource, d: Document)
    requires OrdersFit(Chain(Some(Enrich(c))), orders)
    ensures MapOrders(Enrich(c), MapOrder(Enrich(c), orders))
    ensures var t := Map(Enrich(c), MapOrder(Enrich(c), orders), d);
            ChainOut(Chain(Some(Enrich(c))), orders, gvr, d).verdict == Panic <==>
            && WhiteListed(Some(WhiteListOf(c)), d)
            && (|| t.verdict == Panicked
                || (t.verdict == Passed && (WhiteListOf(c).objectWhiteList != [] || ConfiguredStumbles(c, t.tree))))
  {
    ChainRuns(Enrich(c), orders, gvr, d);
    InstalledDeletePanics(c, Map(Enrich(c), MapOrder(Enrich(c), orders), d).tree);
  }

  /** Whatever is accepted was white-listed by its kind, and no single object is white-listed. */
  lemma AcceptedByKind(c: DRFilterConfig, orders: seq<Mapping.Orders>, gvr: GroupVersionResource, d: Document)
    requires OrdersFit(Chain(Some(Enrich(c))), orders)
    requires ChainOut(Chain(Some(Enrich(c))), orders, gvr, d).verdict == Accept
    ensures WhiteListOf(c).objectWhiteList == [] && KindOf(d) in WhiteListOf(c).kindWhiteList
  {
    ChainRuns(Enrich(c), orders, gvr, d);
    InstalledDeletePanics(c, Map(Enrich(c), MapOrder(Enrich(c), orders), d).tree);
  }

  /** Every rule names what it is for, and no single object is white-listed. */
  predicate WellFormed(c: DRFilterConfig) {
    && WhiteListOf(c).objectWhiteList == []
    && (forall i | 0 <= i < |DeletesOf(c).kindDeleteList| :: DeletesOf(c).kindDeleteList[i].kind.Some?)
    && (forall i | 0 <= i < |DeletesOf(c).objectDeleteList| ::
          DeletesOf(c).objectDeleteList[i].kind.Some? && DeletesOf(c).objectDeleteList[i].target.Some?)
  }

  /** Such a configuration's delete filter takes every object. */
  lemma WellFormedDeletes(c: DRFilterConfig, t: Document)
    requires WellFormed(c)
    ensures DeleteFrom(Enrich(c), t).verdict == Passed
  {
    InstalledDeletePanics(c, t);
  }

  /** An object of that kind and name, with a configuration that white-lists it and no kind. */
  lemma ListedObjectPanics(orders: seq<Mapping.Orders>)
    requires var c := DRFilterConfig(None, None, Some(WhiteListFilterConfig([ObjectKey("shop", "db")], [])));
             OrdersFit(Chain(Some(Enrich(c))), orders)
    ensures var c := DRFilterConfig(None, None, Some(WhiteListFilterConfig([ObjectKey("shop", "db")], [])));
            var d: Document :=
              Obj(map["kind" := Str("Secret"),
                      "metadata" := Obj(map["namespace" := Str("shop"), "name" := Str("db")])]);
            ChainOut(Chain(Some(Enrich(c))), orders, GroupVersionResource("", "v1", "secrets"), d).verdict == Panic
  {
    var c := DRFilterConfig(None, None, Some(WhiteListFilterConfig([ObjectKey("shop", "db")], [])));
    var d: Document :=
      Obj(map["kind" := Str("Secret"), "metadata" := Obj(map["namespace" := Str("shop"), "name" := Str("db")])]);
    SecretIsListed(d, WhiteListOf(c));
    InstalledPanics(c, orders, GroupVersionResource("", "v1", "secrets"), d);
  }

  lemma SecretIsListed(d: Document, w: WhiteListFilterConfig)
    requires d == Obj(map["kind" := Str("Secret"),
                          "metadata" := Obj(map["namespace" := Str("shop"), "name" := Str("db")])])
    requires w == WhiteListFilterConfig([ObjectKey("shop", "db")], [])
    ensures WhiteListed(Some(w), d)
  {
    assert NAME[1..] == ["name"] && NAME[1..][1..] == [];
    assert GetName(d) == "db";
    assert w.objectWhiteList[0].name == GetName(d);
  }

  // ---------------------------------------------------------------------
  // What the verdict says
  // ---------------------------------------------------------------------

  /** White-listed by kind, or by name alone. */
  ghost predicate Listed(w: WhiteListFilterConfig, d: Document) {
    KindOf(d) in w.kindWhiteList ||
    exists i :: 0 <= i < |w.objectWhiteList| && w.objectWhiteList[i].name == GetString(d, ["metadata", "name"])
  }

  /** An object is refused exactly if it is not listed, or is a claim that is left without a volume name;
      an error exactly if it is listed and its mapping fails; and accepted exactly if its kind is listed,
      no single object is, its mapping passes, no delete rule stumbles, and a claim still names its volume. */
  lemma VerdictIff(c: DRFilterConfig, orders: seq<Mapping.Orders>, gvr: GroupVersionResource, d: Document)
    requires OrdersFit(Chain(Some(Enrich(c))), orders)
    ensures MapOrders(Enrich(c), MapOrder(Enrich(c), orders))
    ensures var w, t := WhiteListOf(c), Map(Enrich(c), MapOrder(Enrich(c), orders), d);
            var r := ChainOut(Chain(Some(Enrich(c))), orders, gvr, d);
            var lacksVolume := gvr == PERSISTENT_VOLUME_CLAIM_GVR && GetString(r.tree, ["spec", "volumeName"]) == "";
            var deletes := w.objectWhiteList == [] && !ConfiguredStumbles(c, t.tree);
            && (r.verdict.Error? <==> Listed(w, d) && t.verdict == Failed)
            && (r.verdict.Reject? <==> !Listed(w, d) || (t.verdict == Passed && deletes && lacksVolume))
            && (r.verdict.Accept? <==>
                  KindOf(d) in w.kindWhiteList && t.verdict == Passed && deletes && !lacksVolume)
  {
    ChainRuns(Enrich(c), orders, gvr, d);
    InstalledDeletePanics(c, Map(Enrich(c), MapOrder(Enrich(c), orders), d).tree);
  }

  /** Without a configuration nothing is accepted. */
  lemma NothingConfigured(orders: seq<Mapping.Orders>, gvr: GroupVersionResource, d: Document)
    requires OrdersFit(Chain(None), orders)
    ensures ChainOut(Chain(None), orders, gvr, d) == FilterOutcome(d, Reject)
  {
    WalkFrom(Chain(None), orders, gvr, d);
  }
}
