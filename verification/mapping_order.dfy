/**
 The mapping filter as a whole: Go ranges over the rules of a kind in a random
 order, and the worker runs the filter again on the object it already rewrote.
 */
module MappingOrder {
  import opened Wrappers
  import opened Json
  import opened Strconv
  import opened ApiTypes
  import opened VariableMappingFilter
  import opened MappingLaws
  import opened MappingConfluence

  ghost predicate RulePasses(r: Rule, d: Document) {
    ApplyKey(r.0, r.1, d).verdict == Passed
  }

  ghost function AfterRule(r: Rule, d: Document): Document {
    ApplyKey(r.0, r.1, d).tree
  }

  ghost function PathOf(r: Rule): (p: Path)
    ensures p != []
  {
    SplitComma(r.0)
  }

  /** A key with at least two components is `iteratePath` from the root. */
  lemma RuleIsIterate(r: Rule, d: Document)
    requires |PathOf(r)| > 1
    ensures ApplyKey(r.0, r.1, d) == Iterate(PathOf(r), r.1, d)
  {
  }

  /** A key with one component panics or fails, unless there is nothing to visit. */
  lemma ShortRule(r: Rule, d: Document)
    requires |PathOf(r)| == 1
    ensures RulePasses(r, d) <==> (PathOf(r)[0] !in d.fields || d.fields[PathOf(r)[0]] == Arr([]))
    ensures RulePasses(r, d) ==> AfterRule(r, d) == d
  {
    var k := PathOf(r)[0];
    assert PathOf(r)[1..] == [];
    if k in d.fields && d.fields[k].Arr? && d.fields[k].elems != [] {
      assert IterateElement([], r.1, d.fields[k].elems[0]).verdict == Panicked;
      assert IterateElements([], r.1, d.fields[k].elems).1 == Panicked;
    }
    if RulePasses(r, d) && k in d.fields {
      assert d.fields[k := d.fields[k]] == d.fields;
    }
  }

  ghost predicate RulesApart(r: Rule, s: Rule, d: Document) {
    |PathOf(r)| == 1 || |PathOf(s)| == 1 || Apart(PathOf(r), PathOf(s), d)
  }

  /** A rule with a proper key leaves every one-component key as it found it. */
  lemma ShortUntouched(r: Rule, s: Rule, d: Document)
    requires |PathOf(r)| > 1 && |PathOf(s)| == 1 && RulePasses(r, d)
    ensures RulePasses(s, AfterRule(r, d)) <==> RulePasses(s, d)
  {
    RuleIsIterate(r, d);
    ShortRule(s, d);
    ShortRule(s, AfterRule(r, d));
    var k := PathOf(r)[0];
    if k in d.fields && d.fields[k].Arr? {
      ListPasses(PathOf(r)[1..], r.1, d.fields[k].elems);
    }
  }

  lemma RulesCommute(r: Rule, s: Rule, d: Document)
    requires RulesApart(r, s, d) && RulePasses(r, d)
    ensures RulePasses(s, d) <==> RulePasses(s, AfterRule(r, d))
    ensures RulePasses(s, d) ==> RulePasses(r, AfterRule(s, d))
    ensures RulePasses(s, d) ==> AfterRule(s, AfterRule(r, d)) == AfterRule(r, AfterRule(s, d))
  {
    var p, q := PathOf(r), PathOf(s);
    if |p| == 1 {
      ShortRule(r, d);
      if |q| == 1 {
        ShortRule(s, d);
      } else if RulePasses(s, d) {
        ShortUntouched(s, r, d);
        ShortRule(r, AfterRule(s, d));
      }
    } else if |q| == 1 {
      ShortRule(s, d);
      ShortRule(s, AfterRule(r, d));
      ShortUntouched(r, s, d);
    } else {
      RuleIsIterate(r, d);
      RuleIsIterate(s, d);
      RuleIsIterate(s, AfterRule(r, d));
      if RulePasses(s, d) {
        Commute(p, r.1, q, s.1, d);
        RuleIsIterate(r, AfterRule(s, d));
      } else {
        StillFails(p, r.1, q, s.1, d);
      }
    }
  }

  lemma RulesApartStable(u: Rule, r: Rule, s: Rule, d: Document)
    requires RulesApart(r, s, d) && RulesApart(u, r, d) && RulesApart(u, s, d) && RulePasses(u, d)
    ensures RulesApart(r, s, AfterRule(u, d))
  {
    if |PathOf(u)| == 1 {
      ShortRule(u, d);
    } else if |PathOf(r)| > 1 && |PathOf(s)| > 1 {
      RuleIsIterate(u, d);
      ApartStable(PathOf(u), u.1, PathOf(r), PathOf(s), d);
    }
  }

  /** No two rules of the list interfere on this object. */
  ghost predicate PairwiseApart(rules: seq<Rule>, d: Document) {
    forall i, j | 0 <= i < |rules| && 0 <= j < |rules| && i != j :: RulesApart(rules[i], rules[j], d)
  }

  lemma PairwiseApartTail(rules: seq<Rule>, d: Document)
    requires rules != [] && PairwiseApart(rules, d) && RulePasses(rules[0], d)
    ensures PairwiseApart(rules[1..], AfterRule(rules[0], d))
  {
    forall i, j | 0 <= i < |rules[1..]| && 0 <= j < |rules[1..]| && i != j
      ensures RulesApart(rules[1..][i], rules[1..][j], AfterRule(rules[0], d))
    {
      assert RulesApart(rules[i + 1], rules[j + 1], d);
      RulesApartStable(rules[0], rules[i + 1], rules[j + 1], d);
    }
  }

  /** Rules that are apart pass together exactly when each passes alone. */
  lemma {:induction false} PassTogether(rules: seq<Rule>, d: Document)
    requires PairwiseApart(rules, d)
    ensures ApplyRules(rules, d).verdict == Passed <==> forall i | 0 <= i < |rules| :: RulePasses(rules[i], d)
  {
    if rules != [] && RulePasses(rules[0], d) {
      var d' := AfterRule(rules[0], d);
      PairwiseApartTail(rules, d);
      PassTogether(rules[1..], d');
      forall i | 0 < i < |rules| ensures RulePasses(rules[i], d) <==> RulePasses(rules[1..][i - 1], d') {
        RulesCommute(rules[0], rules[i], d);
      }
      assert forall i | 0 <= i < |rules[1..]| :: rules[1..][i] == rules[i + 1];
    }
  }

  lemma DropLater<T>(s: seq<T>, i: nat)
    requires 0 < i < |s|
    ensures var rest := s[..i] + s[i + 1..];
            rest[0] == s[0] && rest[1..] == s[1..][..i - 1] + s[1..][i..]
  {
    assert s[1..][..i - 1] == s[..i][1..];
    assert s[1..][i..] == s[i + 1..];
  }

  lemma RunFirstLater(rules: seq<Rule>, i: nat, d: Document)
    requires 0 < i < |rules| && RulePasses(rules[0], d) && RulesApart(rules[0], rules[i], d)
    requires RulePasses(rules[i], AfterRule(rules[0], d))
    requires var d' := AfterRule(rules[0], d);
             ApplyRules(rules[1..][..i - 1] + rules[1..][i..], AfterRule(rules[i], d')) == ApplyRules(rules[1..], d')
    ensures RulePasses(rules[i], d)
    ensures ApplyRules(rules[..i] + rules[i + 1..], AfterRule(rules[i], d)) == ApplyRules(rules, d)
  {
    RulesCommute(rules[0], rules[i], d);
    DropLater(rules, i);
    var without, x := rules[..i] + rules[i + 1..], AfterRule(rules[i], d);
    assert ApplyRules(without, x) == ApplyRules(without[1..], AfterRule(without[0], x));
  }

  /** Any rule of a passing list may as well run first. */
  lemma {:induction false} RunFirst(rules: seq<Rule>, i: nat, d: Document)
    requires i < |rules| && PairwiseApart(rules, d) && ApplyRules(rules, d).verdict == Passed
    ensures RulePasses(rules[i], d)
    ensures ApplyRules(rules[..i] + rules[i + 1..], AfterRule(rules[i], d)) == ApplyRules(rules, d)
  {
    if i == 0 {
      assert rules[..0] + rules[1..] == rules[1..];
    } else {
      PairwiseApartTail(rules, d);
      RunFirst(rules[1..], i - 1, AfterRule(rules[0], d));
      assert rules[1..][i - 1] == rules[i];
      RunFirstLater(rules, i, d);
    }
  }

  ghost predicate Distinct(rules: seq<Rule>) {
    forall i, j | 0 <= i < j < |rules| :: rules[i] != rules[j]
  }

  /** Two enumerations of the same rules. */
  ghost predicate SameRules(a: seq<Rule>, b: seq<Rule>) {
    Distinct(a) && Distinct(b) && forall r :: r in a <==> r in b
  }

  lemma {:induction false} SameResult(a: seq<Rule>, b: seq<Rule>, d: Document)
    requires SameRules(a, b) && PairwiseApart(a, d) && PairwiseApart(b, d)
    ensures ApplyRules(a, d).verdict == Passed <==> ApplyRules(b, d).verdict == Passed
    ensures ApplyRules(a, d).verdict == Passed ==> ApplyRules(a, d) == ApplyRules(b, d)
  {
    PassTogether(a, d);
    PassTogether(b, d);
    assert forall i | 0 <= i < |a| :: a[i] in b;
    assert forall i | 0 <= i < |b| :: b[i] in a;
    if ApplyRules(a, d).verdict == Passed && a != [] {
      var i :| 0 <= i < |b| && b[i] == a[0];
      PairwiseApartTail(a, d);
      RunFirst(b, i, d);
      SameWithoutOne(a, b, i);
      ApartWithoutOne(b, i, d);
      SameResult(a[1..], b[..i] + b[i + 1..], AfterRule(a[0], d));
    }
  }

  lemma SameWithoutOne(a: seq<Rule>, b: seq<Rule>, i: nat)
    requires SameRules(a, b) && a != [] && i < |b| && b[i] == a[0]
    ensures SameRules(a[1..], b[..i] + b[i + 1..])
  {
    var rest := b[..i] + b[i + 1..];
    forall r ensures r in a[1..] <==> r in rest {
      assert r in a <==> r == a[0] || r in a[1..];
      assert b == b[..i] + [b[i]] + b[i + 1..];
      assert r in b <==> r == b[i] || r in rest;
    }
  }

  lemma ApartWithoutOne(b: seq<Rule>, i: nat, d: Document)
    requires i < |b| && PairwiseApart(b, d) && RulePasses(b[i], d)
    ensures PairwiseApart(b[..i] + b[i + 1..], AfterRule(b[i], d))
  {
    var rest := b[..i] + b[i + 1..];
    forall j, k | 0 <= j < |rest| && 0 <= k < |rest| && j != k
      ensures RulesApart(rest[j], rest[k], AfterRule(b[i], d))
    {
      var j', k' := if j < i then j else j + 1, if k < i then k else k + 1;
      assert rest[j] == b[j'] && rest[k] == b[k'];
      RulesApartStable(b[i], b[j'], b[k'], d);
    }
  }

  lemma OrdersSameRules(x: seq<string>, y: seq<string>, kv: map<string, VariableMapping>)
    requires IsOrderOf(x, kv) && IsOrderOf(y, kv)
    ensures SameRules(RulesOf(x, kv), RulesOf(y, kv))
  {
    var a, b := RulesOf(x, kv), RulesOf(y, kv);
    forall r ensures r in a <==> r in b {
      if r in a {
        var i :| 0 <= i < |a| && a[i] == r;
        assert x[i] in y;
        var j :| 0 <= j < |y| && y[j] == x[i];
        assert b[j] == r;
      }
      if r in b {
        var i :| 0 <= i < |b| && b[i] == r;
        assert y[i] in x;
        var j :| 0 <= j < |x| && x[j] == y[i];
        assert a[j] == r;
      }
    }
  }

  /** The rules of the entries for one kind, in the order they run. */
  ghost function KindRules(entries: seq<VariableMappings>, orders: Orders, kind: GroupVersionKind): seq<Rule>
    requires AreOrders(orders, entries)
  {
    if entries == [] then []
    else
      (if entries[0].kind == Some(kind) then RulesOf(orders[0], entries[0].keyValueMappings) else [])
      + KindRules(entries[1..], orders[1..], kind)
  }

  /** A mapping never changes what kind of object it is looking at. */
  lemma KindKept(r: Rule, d: Document)
    requires RulePasses(r, d)
    ensures SameKindStrings(AfterRule(r, d), d)
  {
    var k := PathOf(r)[0];
    var d' := AfterRule(r, d);
    forall top: string ensures GetString(d', [top]) == GetString(d, [top]) {
      if top == k && k in d.fields {
        assert d.fields[k].Obj? || d.fields[k].Arr?;
        assert d'.fields[k].Obj? || d'.fields[k].Arr?;
      }
      assert [top][0] == top && [top][1..] == [];
      assert Nested(d, [top]) == if top in d.fields then Found(d.fields[top]) else Missing;
      assert Nested(d', [top]) == if top in d'.fields then Found(d'.fields[top]) else Missing;
    }
    assert GetString(d', API_VERSION) == GetString(d, API_VERSION);
    assert GetString(d', KIND) == GetString(d, KIND);
  }

  lemma {:induction false} KindKeptByRules(rules: seq<Rule>, d: Document)
    requires ApplyRules(rules, d).verdict == Passed
    ensures SameKindStrings(ApplyRules(rules, d).tree, d)
  {
    if rules != [] {
      KindKept(rules[0], d);
      KindKeptByRules(rules[1..], AfterRule(rules[0], d));
    }
  }

  ghost predicate AllKinded(entries: seq<VariableMappings>) {
    forall i | 0 <= i < |entries| :: entries[i].kind.Some?
  }

  /** When it passes, the filter runs the rules for the object's kind, one after the other. */
  lemma {:induction false} MapOutRules(entries: seq<VariableMappings>, orders: Orders, d: Document)
    requires AreOrders(orders, entries)
    ensures var all := ApplyRules(KindRules(entries, orders, KindOf(d)), d);
            (MapOut(entries, orders, d).verdict == Passed <==> AllKinded(entries) && all.verdict == Passed) &&
            (MapOut(entries, orders, d).verdict == Passed ==> MapOut(entries, orders, d) == all)
  {
    if entries != [] && entries[0].kind.Some? {
      assert AreOrders(orders[1..], entries[1..]);
      var rest := KindRules(entries[1..], orders[1..], KindOf(d));
      assert AllKinded(entries) <==> AllKinded(entries[1..]) by {
        assert forall i | 0 < i < |entries| :: entries[i] == entries[1..][i - 1];
      }
      if entries[0].kind.value == KindOf(d) {
        var block := RulesOf(orders[0], entries[0].keyValueMappings);
        RulesSplit(block, rest, d);
        var r := ApplyRules(block, d);
        if r.verdict == Passed {
          KindKeptByRules(block, d);
          MapOutRules(entries[1..], orders[1..], r.tree);
        }
      } else {
        assert [] + rest == rest;
        MapOutRules(entries[1..], orders[1..], d);
      }
    }
  }

  lemma {:induction false} PairwiseApartAfter(block: seq<Rule>, rest: seq<Rule>, d: Document)
    requires PairwiseApart(block + rest, d) && ApplyRules(block, d).verdict == Passed
    ensures PairwiseApart(rest, ApplyRules(block, d).tree)
  {
    if block == [] {
      assert block + rest == rest;
    } else {
      assert (block + rest)[1..] == block[1..] + rest;
      PairwiseApartTail(block + rest, d);
      PairwiseApartAfter(block[1..], rest, AfterRule(block[0], d));
    }
  }

  lemma {:induction false} KindRulesSame(
    entries: seq<VariableMappings>, x: Orders, y: Orders, d: Document, kind: GroupVersionKind)
    requires AreOrders(x, entries) && AreOrders(y, entries)
    requires PairwiseApart(KindRules(entries, x, kind), d) && PairwiseApart(KindRules(entries, y, kind), d)
    ensures var a, b := ApplyRules(KindRules(entries, x, kind), d), ApplyRules(KindRules(entries, y, kind), d);
            (a.verdict == Passed <==> b.verdict == Passed) && (a.verdict == Passed ==> a == b)
  {
    if entries != [] {
      assert AreOrders(x[1..], entries[1..]) && AreOrders(y[1..], entries[1..]);
      var a, b := KindRules(entries[1..], x[1..], kind), KindRules(entries[1..], y[1..], kind);
      if entries[0].kind == Some(kind) {
        var kv := entries[0].keyValueMappings;
        var f, g := RulesOf(x[0], kv), RulesOf(y[0], kv);
        PairwiseApartPrefix(f, a, d);
        PairwiseApartPrefix(g, b, d);
        OrdersSameRules(x[0], y[0], kv);
        SameResult(f, g, d);
        RulesSplit(f, a, d);
        RulesSplit(g, b, d);
        if ApplyRules(f, d).verdict == Passed {
          PairwiseApartAfter(f, a, d);
          PairwiseApartAfter(g, b, d);
          KindRulesSame(entries[1..], x[1..], y[1..], ApplyRules(f, d).tree, kind);
        }
      } else {
        assert [] + a == a && [] + b == b;
        KindRulesSame(entries[1..], x[1..], y[1..], d, kind);
      }
    }
  }

  lemma PairwiseApartPrefix(f: seq<Rule>, g: seq<Rule>, d: Document)
    requires PairwiseApart(f + g, d)
    ensures PairwiseApart(f, d)
  {
    forall i, j | 0 <= i < |f| && 0 <= j < |f| && i != j ensures RulesApart(f[i], f[j], d) {
      assert RulesApart((f + g)[i], (f + g)[j], d);
    }
  }

  /** No two rules for this object's kind interfere, whatever order they are listed in. */
  ghost predicate Independent(entries: seq<VariableMappings>, d: Document) {
    forall orders | AreOrders(orders, entries) :: PairwiseApart(KindRules(entries, orders, KindOf(d)), d)
  }

  /** Confluence: the order in which Go ranges over the rule maps changes neither whether
      the filter passes nor the object it leaves behind. */
  lemma OrderDoesNotMatter(entries: seq<VariableMappings>, x: Orders, y: Orders, d: Document)
    requires AreOrders(x, entries) && AreOrders(y, entries) && Independent(entries, d)
    ensures MapOut(entries, x, d).verdict == Passed <==> MapOut(entries, y, d).verdict == Passed
    ensures MapOut(entries, x, d).verdict == Passed ==> MapOut(entries, x, d) == MapOut(entries, y, d)
  {
    MapOutRules(entries, x, d);
    MapOutRules(entries, y, d);
    KindRulesSame(entries, x, y, d, KindOf(d));
  }

  // ---------------------------------------------------------------------
  // Running the filter on an object it already rewrote
  // ---------------------------------------------------------------------

  ghost predicate RuleSettles(r: Rule, d: Document) {
    |PathOf(r)| > 1 ==> StringsSettle(PathOf(r), r.1, d)
  }

  ghost predicate Fixes(r: Rule, d: Document) {
    ApplyKey(r.0, r.1, d) == Outcome(d, Passed)
  }

  ghost predicate RuleIdempotent(r: Rule, d: Document) {
    |PathOf(r)| > 1 ==> Idempotent(PathOf(r), r.1, d)
  }

  lemma RuleIdempotentKept(r: Rule, s: Rule, d: Document)
    requires RulesApart(r, s, d) && RuleIdempotent(r, d) && RulePasses(r, d) && RulePasses(s, d)
    ensures RuleIdempotent(r, AfterRule(s, d))
  {
    if |PathOf(s)| == 1 {
      ShortRule(s, d);
    } else if |PathOf(r)| > 1 {
      RuleIsIterate(s, d);
      IdempotentKept(PathOf(r), r.1, PathOf(s), s.1, d);
    }
  }

  /** With one rule run, the others are still apart, also from the one left out. */
  lemma ApartWithoutSecond(r: Rule, rules: seq<Rule>, d: Document)
    requires rules != [] && PairwiseApart([r] + rules, d) && RulePasses(rules[0], d)
    ensures PairwiseApart([r] + rules[1..], AfterRule(rules[0], d))
  {
    var all, rest := [r] + rules, [r] + rules[1..];
    forall i, j | 0 <= i < |rest| && 0 <= j < |rest| && i != j
      ensures RulesApart(rest[i], rest[j], AfterRule(rules[0], d))
    {
      var i', j' := if i == 0 then 0 else i + 1, if j == 0 then 0 else j + 1;
      assert rest[i] == all[i'] && rest[j] == all[j'] && all[1] == rules[0];
      RulesApartStable(all[1], all[i'], all[j'], d);
    }
  }

  /** The first rule may as well run last, and is then still idempotent. */
  lemma {:induction false} RunLast(r: Rule, rules: seq<Rule>, d: Document)
    requires PairwiseApart([r] + rules, d) && RulePasses(r, d) && RuleIdempotent(r, d)
    requires ApplyRules(rules, AfterRule(r, d)).verdict == Passed
    ensures var most := ApplyRules(rules, d);
            && most.verdict == Passed && RulePasses(r, most.tree) && RuleIdempotent(r, most.tree)
            && AfterRule(r, most.tree) == ApplyRules(rules, AfterRule(r, d)).tree
  {
    if rules != [] {
      assert RulesApart(([r] + rules)[0], ([r] + rules)[1], d);
      RulesCommute(r, rules[0], d);
      RuleIdempotentKept(r, rules[0], d);
      ApartWithoutSecond(r, rules, d);
      RunLast(r, rules[1..], AfterRule(rules[0], d));
    }
  }

  /** After a passing run of idempotent rules, each of them fixes the result. */
  lemma {:induction false} AllFixed(rules: seq<Rule>, d: Document, i: nat)
    requires PairwiseApart(rules, d) && ApplyRules(rules, d).verdict == Passed
    requires forall j | 0 <= j < |rules| :: RuleIdempotent(rules[j], d)
    requires i < |rules|
    ensures Fixes(rules[i], ApplyRules(rules, d).tree)
  {
    PassTogether(rules, d);
    if i == 0 {
      var r := rules[0];
      assert [r] + rules[1..] == rules;
      RunLast(r, rules[1..], d);
      var before := ApplyRules(rules[1..], d).tree;
      if |PathOf(r)| > 1 {
        RuleIsIterate(r, before);
        RuleIsIterate(r, AfterRule(r, before));
      } else {
        ShortRule(r, before);
      }
    } else {
      PairwiseApartTail(rules, d);
      forall j | 0 <= j < |rules[1..]| ensures RuleIdempotent(rules[1..][j], AfterRule(rules[0], d)) {
        assert RulesApart(rules[j + 1], rules[0], d);
        RuleIdempotentKept(rules[j + 1], rules[0], d);
      }
      AllFixed(rules[1..], AfterRule(rules[0], d), i - 1);
    }
  }

  lemma SettlesIsIdempotent(r: Rule, d: Document)
    requires RulePasses(r, d)
    ensures RuleIdempotent(r, d) <==> RuleSettles(r, d)
  {
    if |PathOf(r)| > 1 {
      RuleIsIterate(r, d);
      TwiceIsOnce(PathOf(r), r.1, d);
    }
  }

  // ---------------------------------------------------------------------
  // Exactly when running the rules again changes nothing
  // ---------------------------------------------------------------------

  ghost predicate RuleWrites(r: Rule, d: Document, at: Location) {
    |PathOf(r)| > 1 && Writes(PathOf(r), d, at)
  }

  lemma RuleWritesKept(r: Rule, s: Rule, d: Document, at: Location)
    requires RulesApart(r, s, d) && RulePasses(s, d) && RuleWrites(r, d, at)
    ensures RuleWrites(r, AfterRule(s, d), at) && Probe(AfterRule(s, d), at) == Probe(d, at)
  {
    if |PathOf(s)| == 1 {
      ShortRule(s, d);
    } else {
      RuleIsIterate(s, d);
      WritesKept(PathOf(r), PathOf(s), s.1, d, at);
      ContentsKept(PathOf(r), PathOf(s), s.1, d, at);
    }
  }

  /** Rules that are apart from another one leave alone what that one writes. */
  lemma {:induction false} OthersKeep(r: Rule, rules: seq<Rule>, d: Document, at: Location)
    requires PairwiseApart([r] + rules, d) && ApplyRules(rules, d).verdict == Passed && RuleWrites(r, d, at)
    ensures RuleWrites(r, ApplyRules(rules, d).tree, at) && Probe(ApplyRules(rules, d).tree, at) == Probe(d, at)
  {
    if rules != [] {
      assert RulesApart(([r] + rules)[0], ([r] + rules)[1], d);
      RuleWritesKept(r, rules[0], d, at);
      ApartWithoutSecond(r, rules, d);
      OthersKeep(r, rules[1..], AfterRule(rules[0], d), at);
    }
  }

  lemma RuleApartAgain(r: Rule, s: Rule, d: Document)
    requires RulesApart(r, s, d) && RulePasses(r, d)
    ensures RulesApart(r, s, AfterRule(r, d)) && RulesApart(s, r, AfterRule(r, d))
  {
    if |PathOf(r)| > 1 && |PathOf(s)| > 1 {
      RuleIsIterate(r, d);
      ApartAgain(PathOf(r), r.1, PathOf(s), d);
      ApartSymmetric(PathOf(r), PathOf(s), AfterRule(r, d));
    }
  }

  /** The rules are still apart after one of them has run. */
  lemma StillApart(rules: seq<Rule>, k: nat, d: Document)
    requires k < |rules| && PairwiseApart(rules, d) && RulePasses(rules[k], d)
    ensures PairwiseApart(rules, AfterRule(rules[k], d))
  {
    forall i, j | 0 <= i < |rules| && 0 <= j < |rules| && i != j
      ensures RulesApart(rules[i], rules[j], AfterRule(rules[k], d)) {
      if i == k {
        RuleApartAgain(rules[k], rules[j], d);
      } else if j == k {
        RuleApartAgain(rules[k], rules[i], d);
      } else {
        RulesApartStable(rules[k], rules[i], rules[j], d);
      }
    }
  }

  lemma {:induction false} StillApartAfter(rules: seq<Rule>, k: nat, d: Document)
    requires k <= |rules| && PairwiseApart(rules, d) && ApplyRules(rules[k..], d).verdict == Passed
    ensures PairwiseApart(rules, ApplyRules(rules[k..], d).tree)
    decreases |rules| - k
  {
    if k < |rules| {
      StillApart(rules, k, d);
      assert rules[k..][1..] == rules[k + 1..];
      StillApartAfter(rules, k + 1, AfterRule(rules[k], d));
    }
  }

  /** A passing run leaves at each location a rule writes what that rule puts there. */
  lemma {:induction false} OnePass(rules: seq<Rule>, i: nat, d: Document, at: Location)
    requires i < |rules| && PairwiseApart(rules, d) && ApplyRules(rules, d).verdict == Passed
    requires RuleWrites(rules[i], d, at)
    ensures var t := ApplyRules(rules, d).tree;
            RuleWrites(rules[i], t, at) && Probe(t, at) == Rewritten(rules[i].1, Probe(d, at))
  {
    var r := rules[0];
    var d' := AfterRule(r, d);
    if i == 0 {
      RuleIsIterate(r, d);
      IterateExact(PathOf(r), r.1, d, at);
      WritesAgain(PathOf(r), r.1, d, at);
      StillApart(rules, 0, d);
      assert [r] + rules[1..] == rules;
      OthersKeep(r, rules[1..], d', at);
    } else {
      RuleWritesKept(rules[i], r, d, at);
      PairwiseApartTail(rules, d);
      OnePass(rules[1..], i - 1, d', at);
    }
  }

  lemma {:induction false} AllFix(rules: seq<Rule>, t: Document)
    requires forall i | 0 <= i < |rules| :: Fixes(rules[i], t)
    ensures ApplyRules(rules, t) == Outcome(t, Passed)
  {
    if rules != [] {
      AllFix(rules[1..], t);
    }
  }

  /** If a second run changes nothing, no string a rule rewrote still holds what it looks for. */
  lemma UnchangedSettles(rules: seq<Rule>, i: nat, d: Document)
    requires i < |rules| && PairwiseApart(rules, d) && ApplyRules(rules, d).verdict == Passed
    requires ApplyRules(rules, ApplyRules(rules, d).tree) == ApplyRules(rules, d)
    ensures RuleSettles(rules[i], d)
  {
    var r, t := rules[i], ApplyRules(rules, d).tree;
    if |PathOf(r)| > 1 && r.1.variableType.StrVar? {
      forall at: Location, s | Writes(PathOf(r), d, at) && Probe(d, at) == Some(Leaf(Str(s)))
        ensures r.1.fromSubStr == r.1.toSubStr
                || !Contains(ReplaceFirst(s, r.1.fromSubStr, r.1.toSubStr), r.1.fromSubStr)
      {
        OnePass(rules, i, d, at);
        assert rules[0..] == rules;
        StillApartAfter(rules, 0, d);
        OnePass(rules, i, t, at);
        ReplaceStable(ReplaceFirst(s, r.1.fromSubStr, r.1.toSubStr), r.1.fromSubStr, r.1.toSubStr);
      }
    }
  }

  /** A second run of rules that are apart and passed changes nothing if and only if every rule settles. */
  lemma AgainIff(rules: seq<Rule>, d: Document)
    requires PairwiseApart(rules, d) && ApplyRules(rules, d).verdict == Passed
    ensures ApplyRules(rules, ApplyRules(rules, d).tree) == ApplyRules(rules, d)
            <==> forall i | 0 <= i < |rules| :: RuleSettles(rules[i], d)
  {
    var t := ApplyRules(rules, d).tree;
    PassTogether(rules, d);
    if forall i | 0 <= i < |rules| :: RuleSettles(rules[i], d) {
      forall i | 0 <= i < |rules| ensures RuleIdempotent(rules[i], d) {
        SettlesIsIdempotent(rules[i], d);
      }
      forall i | 0 <= i < |rules| ensures Fixes(rules[i], t) {
        AllFixed(rules, d, i);
      }
      AllFix(rules, t);
    }
    if ApplyRules(rules, t) == ApplyRules(rules, d) {
      forall i | 0 <= i < |rules| ensures RuleSettles(rules[i], d) {
        UnchangedSettles(rules, i, d);
      }
    }
  }

  /** The same for the filter: run again in the same order, it changes nothing if and only if the
      rules for the object's kind settle. */
  lemma OutAgainIff(entries: seq<VariableMappings>, orders: Orders, d: Document)
    requires AreOrders(orders, entries) && Independent(entries, d) && MapOut(entries, orders, d).verdict == Passed
    ensures MapOut(entries, orders, MapOut(entries, orders, d).tree) == MapOut(entries, orders, d)
            <==> forall i | 0 <= i < |KindRules(entries, orders, KindOf(d))| ::
              RuleSettles(KindRules(entries, orders, KindOf(d))[i], d)
  {
    var rules := KindRules(entries, orders, KindOf(d));
    var t := MapOut(entries, orders, d).tree;
    MapOutRules(entries, orders, d);
    KindKeptByRules(rules, d);
    MapOutRules(entries, orders, t);
    AgainIff(rules, d);
  }
}
