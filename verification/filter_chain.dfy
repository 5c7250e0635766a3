/**
 `pkg/filter/filter_factory.go` with the white-list and PVC filters, and the loop of
 `DependencyNamesapceWorker.filter` that runs the chain over an object.
 */
module FilterChain {
  import opened Wrappers
  import opened Json
  import opened Strconv
  import opened ApiTypes
  import Mapping = VariableMappingFilter
  import Deleting = VariableDeleteFilter

  datatype Filter =
    | WhiteListFilter(whiteList: Option<WhiteListFilterConfig>)
    | VariableMappingFilter(mapping: VariableMappingFilterConfig)
    | VariableDeleteFilter(delete: VariableDeleteFilterConfig)
    | PVCFilter

  /** Accepted, refused with ErrNoPassFilter, refused with another error, or a panic. */
  datatype FilterVerdict = Accept | Reject | Error | Panic

  datatype FilterOutcome = FilterOutcome(tree: Document, verdict: FilterVerdict)

  function FromOutcome(o: Mapping.Outcome): FilterOutcome
    requires o.tree.Obj?
  {
    FilterOutcome(o.tree, match o.verdict case Passed => Accept case Failed => Error case Panicked => Panic)
  }

  predicate WhiteListed(whiteList: Option<WhiteListFilterConfig>, d: Document) {
    whiteList.Some? &&
    (KindOf(d) in whiteList.value.kindWhiteList ||
     exists i :: 0 <= i < |whiteList.value.objectWhiteList| && GetName(d) == whiteList.value.objectWhiteList[i].name)
  }

  const VOLUME_NAME: Path := ["spec", "volumeName"]

  /** A chain and, for each of its filters, the orders Go picks for the rule maps. */
  ghost predicate OrdersFit(filters: seq<Filter>, orders: seq<Mapping.Orders>) {
    |orders| == |filters| &&
    forall i | 0 <= i < |filters| :: filters[i].VariableMappingFilter? ==>
      Mapping.AreOrders(orders[i], filters[i].mapping.kindVariableMappings)
  }

  ghost function AnyFilterOrders(filters: seq<Filter>): (r: seq<Mapping.Orders>)
    ensures OrdersFit(filters, r)
  {
    seq(|filters|, i requires 0 <= i < |filters| =>
      if filters[i].VariableMappingFilter? then Mapping.AnyOrders(filters[i].mapping.kindVariableMappings) else [])
  }

  ghost function FilterOut(f: Filter, o: Mapping.Orders, gvr: GroupVersionResource, d: Document): FilterOutcome
    requires f.VariableMappingFilter? ==> Mapping.AreOrders(o, f.mapping.kindVariableMappings)
  {
    match f
    case WhiteListFilter(whiteList) => FilterOutcome(d, if WhiteListed(whiteList, d) then Accept else Reject)
    case VariableMappingFilter(mapping) => FromOutcome(Mapping.MapOut(mapping.kindVariableMappings, o, d))
    case VariableDeleteFilter(delete) => FromOutcome(Deleting.DeleteOut(delete, d))
    case PVCFilter =>
      FilterOutcome(d, if gvr == PERSISTENT_VOLUME_CLAIM_GVR && GetString(d, VOLUME_NAME) == "" then Reject else Accept)
  }

  ghost function Walk(filters: seq<Filter>, orders: seq<Mapping.Orders>, gvr: GroupVersionResource,
      d: Document): FilterOutcome
    requires OrdersFit(filters, orders)
  {
    if filters == [] then FilterOutcome(d, Accept)
    else
      var r := FilterOut(filters[0], orders[0], gvr, d);
      if r.verdict != Accept then r else Walk(filters[1..], orders[1..], gvr, r.tree)
  }

  /** What `filter` does to an object. A chain with no filter at all accepts nothing. */
  ghost function ChainOut(filters: seq<Filter>, orders: seq<Mapping.Orders>, gvr: GroupVersionResource,
      d: Document): FilterOutcome
    requires OrdersFit(filters, orders)
  {
    if filters == [] then FilterOutcome(d, Reject) else Walk(filters, orders, gvr, d)
  }

  lemma WalkFrom(filters: seq<Filter>, orders: seq<Mapping.Orders>, gvr: GroupVersionResource, d: Document)
    requires OrdersFit(filters, orders) && filters != []
    ensures OrdersFit(filters[1..], orders[1..])
    ensures Walk(filters, orders, gvr, d) ==
            var r := FilterOut(filters[0], orders[0], gvr, d);
            if r.verdict != Accept then r else Walk(filters[1..], orders[1..], gvr, r.tree)
  {
  }

  /** One filter's `Out`. */
  method RunFilter(f: Filter, gvr: GroupVersionResource, d: Document)
    returns (tree: Document, verdict: FilterVerdict, ghost o: Mapping.Orders)
    ensures f.VariableMappingFilter? ==> Mapping.AreOrders(o, f.mapping.kindVariableMappings)
    ensures FilterOutcome(tree, verdict) == FilterOut(f, o, gvr, d)
    ensures !f.VariableMappingFilter? ==> FilterOutcome(tree, verdict) == FilterOut(f, [], gvr, d)
  {
    o := [];
    match f
    case WhiteListFilter(whiteList) =>
      tree, verdict := d, Reject;
      if whiteList.Some? {
        for i := 0 to |whiteList.value.kindWhiteList|
          invariant verdict == Reject
          invariant KindOf(d) !in whiteList.value.kindWhiteList[..i]
        {
          if KindOf(d) == whiteList.value.kindWhiteList[i] {
            return d, Accept, o;
          }
        }
        for i := 0 to |whiteList.value.objectWhiteList|
          invariant verdict == Reject
          invariant forall j | 0 <= j < i :: GetName(d) != whiteList.value.objectWhiteList[j].name
        {
          if GetName(d) == whiteList.value.objectWhiteList[i].name {
            return d, Accept, o;
          }
        }
      }
    case VariableMappingFilter(mapping) =>
      var v;
      tree, v, o := Mapping.Out(mapping.kindVariableMappings, d);
      verdict := match v case Passed => Accept case Failed => Error case Panicked => Panic;
    case VariableDeleteFilter(delete) =>
      var v;
      tree, v := Deleting.Out(delete, d);
      verdict := match v case Passed => Accept case Failed => Error case Panicked => Panic;
    case PVCFilter =>
      if gvr == PERSISTENT_VOLUME_CLAIM_GVR && GetString(d, VOLUME_NAME) == "" {
        return d, Reject, o;
      }
      return d, Accept, o;
  }

  // ---------------------------------------------------------------------
  // Building the chain
  // ---------------------------------------------------------------------

  const DEFAULT_DELETE: seq<string> := ["metadata,uid"]

  function Repeat<T>(x: T, n: nat): (r: seq<T>)
    ensures |r| == n && forall i | 0 <= i < n :: r[i] == x
  {
    seq(n, _ => x)
  }

  function Last<T>(s: seq<T>): T
    requires s != []
  {
    s[|s| - 1]
  }

  function WhiteListOf(c: DRFilterConfig): WhiteListFilterConfig {
    match c.whiteListFilter
    case None => WhiteListFilterConfig([], [])
    case Some(w) => w
  }

  function DeletesOf(c: DRFilterConfig): VariableDeleteFilterConfig {
    match c.variableDeleteFilter
    case None => VariableDeleteFilterConfig([], [])
    case Some(v) => v
  }

  /** The default rules appended for the white-listed kinds: each of them points at the loop
      variable, so all of them name the last kind. */
  function KindDefaults(w: WhiteListFilterConfig): seq<VariableDelete> {
    if w.kindWhiteList == [] then []
    else Repeat(VariableDelete(None, Some(Last(w.kindWhiteList)), DEFAULT_DELETE), |w.kindWhiteList|)
  }

  /** The default rules for white-listed objects carry no kind. */
  function ObjectDefaults(w: WhiteListFilterConfig): seq<VariableDelete> {
    if w.objectWhiteList == [] then []
    else Repeat(VariableDelete(Some(Last(w.objectWhiteList)), None, DEFAULT_DELETE), |w.objectWhiteList|)
  }

  /** What `addDefaultConfig` turns a non-nil config into. */
  function Enrich(c: DRFilterConfig): DRFilterConfig {
    var w := WhiteListOf(c);
    var v := DeletesOf(c);
    DRFilterConfig(
      if w.kindWhiteList == [] && w.objectWhiteList == [] then c.variableDeleteFilter
      else Some(VariableDeleteFilterConfig(v.objectDeleteList + ObjectDefaults(w), v.kindDeleteList + KindDefaults(w))),
      c.variableMappingFilter,
      Some(w))
  }

  /** The chain `getFilters` builds, after enrichment; None is a nil config. */
  function Chain(c: Option<DRFilterConfig>): (r: seq<Filter>)
    ensures r != []
  {
    match c
    case None => [WhiteListFilter(None), PVCFilter]
    case Some(f) =>
      [WhiteListFilter(f.whiteListFilter)]
      + (if f.variableMappingFilter.Some? then [VariableMappingFilter(f.variableMappingFilter.value)] else [])
      + (if f.variableDeleteFilter.Some? then [VariableDeleteFilter(f.variableDeleteFilter.value)] else [])
      + [PVCFilter]
  }

  /** A `*DRFilterConfig`: notifications hand out the pointer, so enrichment accumulates behind it. */
  class FilterConfigPointer {
    var config: DRFilterConfig

    constructor (c: DRFilterConfig)
      ensures config == c
    {
      config := c;
    }

    /** `addDefaultConfig`. `gvk` is the one variable of the range loop. */
    method AddDefaultConfig()
      modifies this
      ensures config == Enrich(old(config))
    {
      if config.whiteListFilter.None? {
        config := config.(whiteListFilter := Some(WhiteListFilterConfig([], [])));
      }
      var w := config.whiteListFilter.value;
      var kinds := DeletesOf(config).kindDeleteList;
      for i := 0 to |w.kindWhiteList|
        invariant config == if i == 0 then old(config).(whiteListFilter := Some(w)) else
                  old(config).(whiteListFilter := Some(w), variableDeleteFilter := Some(VariableDeleteFilterConfig(
                    DeletesOf(old(config)).objectDeleteList,
                    kinds + Repeat(VariableDelete(None, Some(w.kindWhiteList[i - 1]), DEFAULT_DELETE), i))))
      {
        var gvk := w.kindWhiteList[i];
        var pointing := Repeat(VariableDelete(None, Some(gvk), DEFAULT_DELETE), i + 1);
        config := config.(variableDeleteFilter := Some(DeletesOf(config).(kindDeleteList := kinds + pointing)));
      }
      assert kinds + [] == kinds;
      ghost var half := config;
      var objects := DeletesOf(config).objectDeleteList;
      assert objects + [] == objects;
      for i := 0 to |w.objectWhiteList|
        invariant config == if i == 0 then half else
                  half.(variableDeleteFilter := Some(VariableDeleteFilterConfig(
                    objects + Repeat(VariableDelete(Some(w.objectWhiteList[i - 1]), None, DEFAULT_DELETE), i),
                    DeletesOf(half).kindDeleteList)))
      {
        var gvkObj := w.objectWhiteList[i];
        var pointing := Repeat(VariableDelete(Some(gvkObj), None, DEFAULT_DELETE), i + 1);
        config := config.(variableDeleteFilter := Some(DeletesOf(config).(objectDeleteList := objects + pointing)));
      }
    }
  }

  /** The filters of one namespace, replaced on every configuration change. */
  class FilterAggregation {
    var Filters: seq<Filter>

    constructor ()
      ensures Filters == []
    {
      Filters := [];
    }

    /** `UpdateFilterHook`. */
    method UpdateFilterHook(fConfig: FilterConfigPointer?)
      modifies this, fConfig
      ensures fConfig == null ==> Filters == Chain(None)
      ensures fConfig != null ==>
                fConfig.config == Enrich(old(fConfig.config)) && Filters == Chain(Some(fConfig.config))
    {
      if fConfig == null {
        Filters := [WhiteListFilter(None), PVCFilter];
        return;
      }
      fConfig.AddDefaultConfig();
      var filters := [WhiteListFilter(fConfig.config.whiteListFilter)];
      if fConfig.config.variableMappingFilter.Some? {
        filters := filters + [VariableMappingFilter(fConfig.config.variableMappingFilter.value)];
      }
      if fConfig.config.variableDeleteFilter.Some? {
        filters := filters + [VariableDeleteFilter(fConfig.config.variableDeleteFilter.value)];
      }
      Filters := filters + [PVCFilter];
    }
  }

  // ---------------------------------------------------------------------
  // Notifying the same config again and again
  // ---------------------------------------------------------------------

  function EnrichTimes(c: DRFilterConfig, n: nat): DRFilterConfig {
    if n == 0 then c else Enrich(EnrichTimes(c, n - 1))
  }

  lemma {:induction false} EnrichedLists(c: DRFilterConfig, n: nat)
    requires n > 0
    ensures var e := EnrichTimes(c, n);
            var w := WhiteListOf(c);
            && e.whiteListFilter == Some(w) && e.variableMappingFilter == c.variableMappingFilter
            && (e.variableDeleteFilter.Some? <==>
                 c.variableDeleteFilter.Some? || w.kindWhiteList != [] || w.objectWhiteList != [])
            && |DeletesOf(e).kindDeleteList| == |DeletesOf(c).kindDeleteList| + n * |w.kindWhiteList|
            && DeletesOf(c).kindDeleteList <= DeletesOf(e).kindDeleteList
            && (forall i | |DeletesOf(c).kindDeleteList| <= i < |DeletesOf(e).kindDeleteList| ::
                  w.kindWhiteList != []
                  && DeletesOf(e).kindDeleteList[i] ==
                     VariableDelete(None, Some(Last(w.kindWhiteList)), DEFAULT_DELETE))
            && |DeletesOf(e).objectDeleteList| == |DeletesOf(c).objectDeleteList| + n * |w.objectWhiteList|
            && DeletesOf(c).objectDeleteList <= DeletesOf(e).objectDeleteList
            && (forall i | |DeletesOf(c).objectDeleteList| <= i < |DeletesOf(e).objectDeleteList| ::
                  w.objectWhiteList != []
                  && DeletesOf(e).objectDeleteList[i] ==
                     VariableDelete(Some(Last(w.objectWhiteList)), None, DEFAULT_DELETE))
  {
    if n > 1 {
      EnrichedLists(c, n - 1);
    }
    var before := EnrichTimes(c, n - 1);
    assert WhiteListOf(before) == WhiteListOf(c);
    assert n * |WhiteListOf(c).kindWhiteList| ==
      (n - 1) * |WhiteListOf(c).kindWhiteList| + |WhiteListOf(c).kindWhiteList|;
    assert n * |WhiteListOf(c).objectWhiteList| ==
      (n - 1) * |WhiteListOf(c).objectWhiteList| + |WhiteListOf(c).objectWhiteList|;
  }

  lemma {:induction false} SplitAt(s: string, n: nat)
    requires n <= |s| && (n < |s| ==> s[n] == ',') && forall i | 0 <= i < n :: s[i] != ','
    ensures SplitComma(s) == [s[..n]] + if n == |s| then [] else SplitComma(s[n + 1..])
  {
    if n > 0 {
      SplitAt(s[1..], n - 1);
      assert [s[0]] + s[1..][..n - 1] == s[..n];
    }
  }

  lemma UidKey(key: string)
    requires key == "metadata,uid"
    ensures SplitComma(key) == UID
  {
    var rest := key[9..];
    SplitAt(key, 8);
    SplitAt(rest, 3);
    assert key[..8] == "metadata";
    assert rest[..3] == "uid";
  }

  lemma {:induction false} KindListSplit(a: seq<VariableDelete>, b: seq<VariableDelete>, d: Document)
    ensures Deleting.DeleteForKind(a + b, d) ==
            var r := Deleting.DeleteForKind(a, d);
            if r.verdict != Passed then r else Deleting.DeleteForKind(b, r.tree)
  {
    if a == [] {
      assert a + b == b;
    } else {
      assert (a + b)[1..] == a[1..] + b;
      if a[0].kind.Some? {
        var rest := if KindOf(d) == a[0].kind.value then Deleting.DoDeleteVariables(a[0].keyValueDelete, d) else d;
        KindListSplit(a[1..], b, rest);
      }
    }
  }

  lemma {:induction false} ObjectListSplit(a: seq<VariableDelete>, b: seq<VariableDelete>, d: Document)
    ensures Deleting.DeleteForObject(a + b, d) ==
            var r := Deleting.DeleteForObject(a, d);
            if r.verdict != Passed then r else Deleting.DeleteForObject(b, r.tree)
  {
    if a == [] {
      assert a + b == b;
    } else {
      assert (a + b)[1..] == a[1..] + b;
      ObjectListSplit(a[1..], b, d);
      ObjectListSplit(a[1..], b, Deleting.DoDeleteVariables(a[0].keyValueDelete, d));
    }
  }

  /** Any positive number of copies of a default rule acts like one. */
  lemma {:induction false} DefaultOnce(rules: seq<VariableDelete>, kind: GroupVersionKind, d: Document)
    requires rules != []
    requires forall i | 0 <= i < |rules| :: rules[i] == VariableDelete(None, Some(kind), DEFAULT_DELETE)
    ensures Deleting.DeleteForKind(rules, d) == Deleting.DeleteForKind([rules[0]], d)
  {
    var d' := if KindOf(d) == kind then Deleting.DoDeleteVariables(DEFAULT_DELETE, d) else d;
    assert [rules[0]][1..] == [];
    assert Deleting.DeleteForKind([rules[0]], d) == Mapping.Outcome(d', Passed);
    if |rules| > 1 {
      DefaultOnce(rules[1..], kind, d');
      assert [rules[1..][0]][1..] == [];
      if KindOf(d) == kind {
        var paths := Deleting.SplitAll(DEFAULT_DELETE);
        UidKey(DEFAULT_DELETE[0]);
        assert paths[0] == UID;
        Deleting.RemoveAllSpares(paths, d, KIND);
        Deleting.RemoveAllSpares(paths, d, API_VERSION);
        Deleting.RemoveAllPrunes(paths, d);
        PrunedReflexive(d');
        Deleting.DeleteBetween(paths, d', d);
      }
    }
  }

  lemma KindListsAlike(L: seq<VariableDelete>, one: seq<VariableDelete>, many: seq<VariableDelete>,
      kind: GroupVersionKind, d: Document)
    requires one == [] <==> many == []
    requires forall i | 0 <= i < |one| :: one[i] == VariableDelete(None, Some(kind), DEFAULT_DELETE)
    requires forall i | 0 <= i < |many| :: many[i] == VariableDelete(None, Some(kind), DEFAULT_DELETE)
    ensures Deleting.DeleteForKind(L + one, d) == Deleting.DeleteForKind(L + many, d)
  {
    KindListSplit(L, one, d);
    KindListSplit(L, many, d);
    if one != [] {
      DefaultOnce(one, kind, Deleting.DeleteForKind(L, d).tree);
      DefaultOnce(many, kind, Deleting.DeleteForKind(L, d).tree);
    }
  }

  /** A rule without a kind makes the filter panic, once is enough. */
  lemma ObjectListsAlike(L: seq<VariableDelete>, one: seq<VariableDelete>, many: seq<VariableDelete>, d: Document)
    requires one == [] <==> many == []
    requires one != [] ==> one[0].kind.None? && many[0].kind.None?
    ensures Deleting.DeleteForObject(L + one, d) == Deleting.DeleteForObject(L + many, d)
  {
    ObjectListSplit(L, one, d);
    ObjectListSplit(L, many, d);
  }

  lemma PositiveCopies(n: nat, m: nat)
    requires n > 0
    ensures n * m == 0 <==> m == 0
  {
  }

  /** Notified once or many times, the delete filter does the same to every object. */
  lemma EnrichedDeletesAlike(c: DRFilterConfig, n: nat, d: Document)
    requires n > 0
    ensures Deleting.DeleteOut(DeletesOf(EnrichTimes(c, n)), d) == Deleting.DeleteOut(DeletesOf(EnrichTimes(c, 1)), d)
  {
    EnrichedLists(c, n);
    EnrichedLists(c, 1);
    var w := WhiteListOf(c);
    PositiveCopies(n, |w.kindWhiteList|);
    PositiveCopies(n, |w.objectWhiteList|);
    var one, many := DeletesOf(EnrichTimes(c, 1)), DeletesOf(EnrichTimes(c, n));
    var L, O := DeletesOf(c).kindDeleteList, DeletesOf(c).objectDeleteList;
    var k1, kn := one.kindDeleteList[|L|..], many.kindDeleteList[|L|..];
    var o1, on := one.objectDeleteList[|O|..], many.objectDeleteList[|O|..];
    assert one.kindDeleteList == L + k1 && many.kindDeleteList == L + kn;
    assert one.objectDeleteList == O + o1 && many.objectDeleteList == O + on;
    var kind := if w.kindWhiteList == [] then KindOf(d) else Last(w.kindWhiteList);
    KindListsAlike(L, k1, kn, kind, d);
    ObjectListsAlike(O, o1, on, Deleting.DeleteForKind(L + k1, d).tree);
  }

  lemma {:induction false} WalkAlike(fs: seq<Filter>, gs: seq<Filter>, orders: seq<Mapping.Orders>,
      gvr: GroupVersionResource, d: Document)
    requires |fs| == |gs| && OrdersFit(fs, orders)
    requires forall i | 0 <= i < |fs| :: fs[i] == gs[i] ||
               (fs[i].VariableDeleteFilter? && gs[i].VariableDeleteFilter? &&
                forall x: Document :: Deleting.DeleteOut(fs[i].delete, x) == Deleting.DeleteOut(gs[i].delete, x))
    ensures OrdersFit(gs, orders) && Walk(fs, orders, gvr, d) == Walk(gs, orders, gvr, d)
  {
    if fs != [] {
      WalkFrom(fs, orders, gvr, d);
      assert OrdersFit(gs, orders);
      WalkFrom(gs, orders, gvr, d);
      WalkAlike(fs[1..], gs[1..], orders[1..], gvr, FilterOut(fs[0], orders[0], gvr, d).tree);
    }
  }

  /** After any number of notifications the installed chain acts as after the first one. */
  lemma EnrichmentStable(c: DRFilterConfig, n: nat, orders: seq<Mapping.Orders>, gvr: GroupVersionResource, d: Document)
    requires n > 0 && OrdersFit(Chain(Some(EnrichTimes(c, n))), orders)
    ensures OrdersFit(Chain(Some(Enrich(c))), orders)
    ensures ChainOut(Chain(Some(EnrichTimes(c, n))), orders, gvr, d) == ChainOut(Chain(Some(Enrich(c))), orders, gvr, d)
  {
    EnrichedLists(c, n);
    EnrichedLists(c, 1);
    var fs, gs := Chain(Some(EnrichTimes(c, n))), Chain(Some(EnrichTimes(c, 1)));
    assert EnrichTimes(c, 1) == Enrich(EnrichTimes(c, 0)) == Enrich(c);
    forall x: Document
      ensures Deleting.DeleteOut(DeletesOf(EnrichTimes(c, n)), x) ==
              Deleting.DeleteOut(DeletesOf(EnrichTimes(c, 1)), x) {
      EnrichedDeletesAlike(c, n, x);
    }
    WalkAlike(fs, gs, orders, gvr, d);
  }
}
