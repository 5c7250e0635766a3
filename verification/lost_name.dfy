/** An object whose name is deleted by its own rules: what a second pass makes of it. */
module LostName {
  import opened Wrappers
  import opened Json
  import opened Strconv
  import opened ApiTypes
  import Mapping = VariableMappingFilter
  import MappingConfluence
  import Deleting = VariableDeleteFilter
  import opened FilterChain
  import opened InstalledChain

  const BOX := GroupVersionKind("", "", "Box")

  function Box(metadata: map<string, Value>): Document {
    Obj(map["kind" := Str("Box"), "metadata" := Obj(metadata)])
  }

  /** Sets `metadata,x` to 1 in every box; deletes it, and the name, from the box called "n". */
  function BoxConfig(nameKey: string, key: string): DRFilterConfig {
    DRFilterConfig(
      Some(VariableDeleteFilterConfig([VariableDelete(Some(ObjectKey("", "n")), Some(BOX), [nameKey, key])], [])),
      Some(VariableMappingFilterConfig([VariableMappings(Some(BOX), map[key := MappingConfluence.Number("1")])])),
      Some(WhiteListFilterConfig([], [BOX])))
  }

  /** Its delete rules, with the default one. */
  function BoxDeletes(nameKey: string, key: string): VariableDeleteFilterConfig {
    VariableDeleteFilterConfig([VariableDelete(Some(ObjectKey("", "n")), Some(BOX), [nameKey, key])],
                               [VariableDelete(None, Some(BOX), DEFAULT_DELETE)])
  }

  /** What deletion leaves of the metadata of a box. */
  function Once(m: map<string, Value>): map<string, Value> {
    if "name" in m && m["name"] == Str("n") then m - {"name", "x"} else m
  }

  lemma InBox(m: map<string, Value>, k: string)
    ensures Nested(Box(m), ["metadata", k]) == if k in m then Found(m[k]) else Missing
    ensures Remove(Box(m), ["metadata", k]) == Box(m - {k})
  {
    assert ["metadata", k][1..] == [k] && [k][1..] == [];
    assert Nested(Obj(m), [k]) == if k in m then Found(m[k]) else Missing;
    assert Box(m).fields["metadata" := Obj(m - {k})] == Box(m - {k}).fields;
  }

  lemma Boxes(m: map<string, Value>)
    requires "namespace" !in m
    ensures KindOf(Box(m)) == BOX && GetNamespace(Box(m)) == ""
    ensures GetName(Box(m)) == if "name" in m && m["name"].Str? then m["name"].s else ""
  {
    InBox(m, "name");
    InBox(m, "namespace");
    assert KIND[1..] == [];
    assert Nested(Str("Box"), []) == Found(Str("Box"));
    assert Nested(Box(m), KIND) == Found(Str("Box"));
    assert Nested(Box(m), API_VERSION) == Missing;
  }

  lemma BoxKeys(nameKey: string, key: string)
    requires nameKey == "metadata,name" && key == "metadata,x"
    ensures SplitComma(nameKey) == NAME && SplitComma(key) == ["metadata", "x"]
  {
    SplitAt(nameKey, 8);
    SplitAt(nameKey[9..], 4);
    SplitAt(key, 8);
    SplitAt(key[9..], 1);
    assert nameKey[..8] == "metadata" && nameKey[9..][..4] == "name";
    assert key[..8] == "metadata" && key[9..][..1] == "x";
  }

  lemma BoxMapped(c: DRFilterConfig, key: string, o: Mapping.Orders, m: map<string, Value>)
    requires SplitComma(key) == ["metadata", "x"] && o == [[key]] && "namespace" !in m
    requires c.variableMappingFilter ==
             Some(VariableMappingFilterConfig([VariableMappings(Some(BOX), map[key := MappingConfluence.Number("1")])]))
    ensures MapOrders(c, o)
    ensures Map(c, o, Box(m)) == Mapping.Outcome(Box(m["x" := Int(1)]), Passed)
  {
    MappingConfluence.Numbers();
    Boxes(m);
    var v := MappingConfluence.Number("1");
    var kv := map[key := v];
    var entries := [VariableMappings(Some(BOX), kv)];
    BoxRule(key, v, m);
    assert [key][0] == key && Mapping.RulesOf([key], kv) == [(key, v)];
    assert [(key, v)][1..] == [];
    assert Mapping.ApplyRules([(key, v)], Box(m)) == Mapping.Outcome(Box(m["x" := Int(1)]), Passed);
    assert Mapping.IsOrderOf([key], kv);
    assert entries[1..] == [] && o[1..] == [];
    assert Mapping.MapOut(entries, o, Box(m)) == Mapping.Outcome(Box(m["x" := Int(1)]), Passed);
  }

  lemma BoxRule(key: string, v: VariableMapping, m: map<string, Value>)
    requires SplitComma(key) == ["metadata", "x"] && v.variableType.IntVar? && Mapping.Constant(v) == Some(Int(1))
    ensures Mapping.ApplyKey(key, v, Box(m)) == Mapping.Outcome(Box(m["x" := Int(1)]), Passed)
  {
    assert ["metadata", "x"][1..] == ["x"];
    assert Mapping.Iterate(["x"], v, Obj(m)) == Mapping.Outcome(Obj(m["x" := Int(1)]), Passed);
    assert Box(m).fields["metadata" := Obj(m["x" := Int(1)])] == Box(m["x" := Int(1)]).fields;
  }

  lemma BoxRemoved(keys: seq<string>, nameKey: string, key: string, m: map<string, Value>)
    requires SplitComma(nameKey) == NAME && SplitComma(key) == ["metadata", "x"] && keys == [nameKey, key]
    ensures Deleting.DoDeleteVariables(keys, Box(m)) == Box(m - {"name", "x"})
  {
    var paths := Deleting.SplitAll(keys);
    assert paths == [NAME, ["metadata", "x"]] && paths[1..] == [["metadata", "x"]] && paths[1..][1..] == [];
    InBox(m, "name");
    InBox(m - {"name"}, "x");
    assert m - {"name"} - {"x"} == m - {"name", "x"};
    assert Deleting.RemoveAll(paths[1..], Box(m - {"name"})) == Box(m - {"name", "x"});
  }

  lemma BoxDefault(m: map<string, Value>)
    requires "uid" !in m
    ensures Deleting.DoDeleteVariables(DEFAULT_DELETE, Box(m)) == Box(m)
  {
    UidKey(DEFAULT_DELETE[0]);
    var paths := Deleting.SplitAll(DEFAULT_DELETE);
    assert |paths| == 1 && paths[0] == UID && paths[1..] == [];
    InBox(m, "uid");
    assert m - {"uid"} == m;
    assert Remove(Box(m), UID) == Box(m);
    assert Deleting.RemoveAll(paths, Box(m)) == Deleting.RemoveAll(paths[1..], Remove(Box(m), paths[0]));
  }

  lemma OneKindRule(rules: seq<VariableDelete>, d: Document)
    requires |rules| == 1 && rules[0].kind == Some(KindOf(d))
    ensures Deleting.DeleteForKind(rules, d) ==
            Mapping.Outcome(Deleting.DoDeleteVariables(rules[0].keyValueDelete, d), Passed)
  {
    assert rules[1..] == [];
  }

  lemma OneObjectRule(rules: seq<VariableDelete>, d: Document)
    requires |rules| == 1 && rules[0].kind == Some(KindOf(d)) && rules[0].target.Some?
    ensures Deleting.DeleteForObject(rules, d) ==
            Mapping.Outcome(if rules[0].target.value == ObjectKey(GetNamespace(d), GetName(d))
                            then Deleting.DoDeleteVariables(rules[0].keyValueDelete, d) else d, Passed)
  {
    assert rules[1..] == [];
  }

  lemma BoxDeleted(config: VariableDeleteFilterConfig, keys: seq<string>, nameKey: string, key: string,
      m: map<string, Value>)
    requires SplitComma(nameKey) == NAME && SplitComma(key) == ["metadata", "x"] && keys == [nameKey, key]
    requires "namespace" !in m && "uid" !in m
    requires config.kindDeleteList == [VariableDelete(None, Some(BOX), DEFAULT_DELETE)]
    requires config.objectDeleteList == [VariableDelete(Some(ObjectKey("", "n")), Some(BOX), keys)]
    ensures Deleting.DeleteOut(config, Box(m)) ==
            Mapping.Outcome(Box(Once(m)), Passed)
  {
    Boxes(m);
    BoxDefault(m);
    BoxRemoved(keys, nameKey, key, m);
    assert GetName(Box(m)) == "n" <==> "name" in m && m["name"] == Str("n");
    OneKindRule(config.kindDeleteList, Box(m));
    OneObjectRule(config.objectDeleteList, Box(m));
  }

  /** The chain of the enriched configuration. */
  lemma BoxChain(nameKey: string, key: string, orders: seq<Mapping.Orders>)
    requires orders == [[], [[key]], [], []]
    ensures var e := Enrich(BoxConfig(nameKey, key));
            && OrdersFit(Chain(Some(e)), orders) && MapOrder(e, orders) == [[key]]
            && e.whiteListFilter == Some(WhiteListFilterConfig([], [BOX]))
            && e.variableMappingFilter == BoxConfig(nameKey, key).variableMappingFilter
            && e.variableDeleteFilter == Some(BoxDeletes(nameKey, key))
  {
    var e := Enrich(BoxConfig(nameKey, key));
    var fs := Chain(Some(e));
    assert |fs| == 4 && fs[0].WhiteListFilter? && fs[2].VariableDeleteFilter? && fs[3].PVCFilter?;
    assert fs[1] == FilterChain.VariableMappingFilter(e.variableMappingFilter.value);
    assert [key][0] == key;
    var v := e.variableDeleteFilter.value;
    assert v.kindDeleteList == BoxDeletes(nameKey, key).kindDeleteList;
    assert v.objectDeleteList == BoxDeletes(nameKey, key).objectDeleteList;
  }

  /** What the filters after the mapping make of a box. */
  lemma BoxAfterMapping(e: DRFilterConfig, nameKey: string, key: string, gvr: GroupVersionResource,
      m: map<string, Value>)
    requires SplitComma(nameKey) == NAME && SplitComma(key) == ["metadata", "x"]
    requires "namespace" !in m && "uid" !in m && gvr != PERSISTENT_VOLUME_CLAIM_GVR
    requires e.variableDeleteFilter == Some(BoxDeletes(nameKey, key))
    ensures AfterMapping(e, gvr, Box(m)) ==
            FilterOutcome(Box(Once(m)), Accept)
  {
    BoxDeleted(BoxDeletes(nameKey, key), [nameKey, key], nameKey, key, m);
  }

  lemma BoxListed(w: Option<WhiteListFilterConfig>, m: map<string, Value>)
    requires w == Some(WhiteListFilterConfig([], [BOX])) && "namespace" !in m
    ensures WhiteListed(w, Box(m))
  {
    Boxes(m);
    assert BOX in [BOX];
  }

  lemma PassesThrough(e: DRFilterConfig, orders: seq<Mapping.Orders>, gvr: GroupVersionResource, d: Document,
      t: Document)
    requires OrdersFit(Chain(Some(e)), orders) && WhiteListed(e.whiteListFilter, d)
    requires Map(e, MapOrder(e, orders), d) == Mapping.Outcome(t, Passed)
    ensures ChainOut(Chain(Some(e)), orders, gvr, d) == AfterMapping(e, gvr, t)
  {
    ChainRuns(e, orders, gvr, d);
  }

  lemma BoxAsMapped(e: DRFilterConfig, key: string, orders: seq<Mapping.Orders>, gvr: GroupVersionResource,
      m: map<string, Value>)
    requires SplitComma(key) == ["metadata", "x"] && "namespace" !in m
    requires OrdersFit(Chain(Some(e)), orders) && MapOrder(e, orders) == [[key]]
    requires e.whiteListFilter == Some(WhiteListFilterConfig([], [BOX]))
    requires e.variableMappingFilter ==
             Some(VariableMappingFilterConfig([VariableMappings(Some(BOX), map[key := MappingConfluence.Number("1")])]))
    ensures ChainOut(Chain(Some(e)), orders, gvr, Box(m)) == AfterMapping(e, gvr, Box(m["x" := Int(1)]))
  {
    BoxMapped(e, key, [[key]], m);
    BoxListed(e.whiteListFilter, m);
    PassesThrough(e, orders, gvr, Box(m), Box(m["x" := Int(1)]));
  }

  /** One pass over a box without a uid. */
  lemma BoxPass(nameKey: string, key: string, orders: seq<Mapping.Orders>, gvr: GroupVersionResource,
      m: map<string, Value>)
    requires SplitComma(nameKey) == NAME && SplitComma(key) == ["metadata", "x"] && orders == [[], [[key]], [], []]
    requires "namespace" !in m && "uid" !in m && gvr != PERSISTENT_VOLUME_CLAIM_GVR
    ensures var e := Enrich(BoxConfig(nameKey, key));
            && OrdersFit(Chain(Some(e)), orders)
            && ChainOut(Chain(Some(e)), orders, gvr, Box(m)) == FilterOutcome(Box(Once(m["x" := Int(1)])), Accept)
  {
    var e := Enrich(BoxConfig(nameKey, key));
    BoxChain(nameKey, key, orders);
    BoxAsMapped(e, key, orders, gvr, m);
    BoxAfterMapping(e, nameKey, key, gvr, m["x" := Int(1)]);
  }

  /** If deleting takes an object's name, the rules for that object no longer find it, and the second
      pass puts back what they deleted. */
  lemma LostNameShows(nameKey: string, key: string, orders: seq<Mapping.Orders>, gvr: GroupVersionResource)
    requires nameKey == "metadata,name" && key == "metadata,x" && orders == [[], [[key]], [], []]
    requires gvr != PERSISTENT_VOLUME_CLAIM_GVR
    ensures var e := Enrich(BoxConfig(nameKey, key));
            var once := FilterOutcome(Box(map[]), Accept);
            && OrdersFit(Chain(Some(e)), orders)
            && ChainOut(Chain(Some(e)), orders, gvr, Box(map["name" := Str("n")])) == once
            && ChainOut(Chain(Some(e)), orders, gvr, once.tree) == FilterOutcome(Box(map["x" := Int(1)]), Accept)
  {
    BoxKeys(nameKey, key);
    var named := map["name" := Str("n")];
    BoxPass(nameKey, key, orders, gvr, named);
    assert Once(named["x" := Int(1)]) == map[];
    BoxPass(nameKey, key, orders, gvr, map[]);
  }
}
