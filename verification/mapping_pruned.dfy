/**
 Mapping rules on a copy of an object that has lost map keys: what they rewrite
 there, and what they put back.
 */
module MappingPruned {
  import opened Wrappers
  import opened Json
  import opened Strconv
  import opened ApiTypes
  import opened VariableMappingFilter
  import opened MappingLaws
  import opened MappingConfluence
  import opened MappingOrder
  import Deleting = VariableDeleteFilter

  // ---------------------------------------------------------------------
  // Pruning, location by location
  // ---------------------------------------------------------------------

  /** What is left is as it was. */
  lemma {:induction false} PrunedProbe(x: Value, y: Value, at: Location)
    requires Pruned(x, y) && Probe(x, at).Some?
    ensures Probe(y, at) == Probe(x, at)
    decreases |at|
  {
    if at != [] {
      PrunedProbe(Child(x, at[0]).value, Child(y, at[0]).value, at[1..]);
    }
  }

  /** The other way round, that is what pruned means. */
  lemma {:induction false} PrunedByProbes(x: Value, y: Value)
    requires forall at | Probe(x, at).Some? :: Probe(y, at) == Probe(x, at)
    ensures Pruned(x, y)
    decreases x
  {
    assert Probe(y, []) == Probe(x, []);
    match x
    case Obj(m) =>
      forall k | k in m ensures k in y.fields && Pruned(m[k], y.fields[k]) {
        ProbeChild(x, Key(k), []);
        ProbeChild(y, Key(k), []);
        assert Probe(y, [Key(k)] + []) == Probe(x, [Key(k)] + []);
        forall at | Probe(m[k], at).Some? ensures Probe(y.fields[k], at) == Probe(m[k], at) {
          ProbeChild(x, Key(k), at);
          ProbeChild(y, Key(k), at);
        }
        PrunedByProbes(m[k], y.fields[k]);
      }
    case Arr(a) =>
      forall i | 0 <= i < |a| ensures Pruned(a[i], y.elems[i]) {
        forall at | Probe(a[i], at).Some? ensures Probe(y.elems[i], at) == Probe(a[i], at) {
          ProbeChild(x, Index(i), at);
          ProbeChild(y, Index(i), at);
        }
        PrunedByProbes(a[i], y.elems[i]);
      }
    case _ =>
  }

  // ---------------------------------------------------------------------
  // One rule
  // ---------------------------------------------------------------------

  lemma {:induction false} PassesWithin(path: Path, v: VariableMapping, x: Value, t: Value)
    requires path != [] && Pruned(x, t) && Passes(path, v, t)
    ensures Passes(path, v, x)
    decreases x
  {
    match x
    case Obj(m) =>
      if |path| > 1 && path[0] in m {
        PassesWithin(path[1..], v, m[path[0]], t.fields[path[0]]);
      }
    case Arr(a) =>
      ListStep(path, v, t.elems);
      forall i | 0 <= i < |a| ensures (|path| > 1 || a[i].Obj?) && Passes(Down(path), v, a[i]) {
        PassesWithin(Down(path), v, a[i], t.elems[i]);
      }
      ListStep(path, v, a);
    case _ =>
  }

  lemma {:induction false} ApartWithin(p: Path, q: Path, x: Value, t: Value)
    requires p != [] && q != [] && Pruned(x, t) && Apart(p, q, t)
    ensures Apart(p, q, x)
    decreases x
  {
    match x
    case Obj(m) =>
      if p[0] == q[0] && p[0] in m {
        ApartWithin(p[1..], q[1..], m[p[0]], t.fields[p[0]]);
      }
    case Arr(a) =>
      forall i | 0 <= i < |a| ensures Apart(Down(p), Down(q), a[i]) {
        ApartWithin(Down(p), Down(q), a[i], t.elems[i]);
      }
    case _ =>
  }

  lemma {:induction false} WritesWithin(p: Path, x: Value, t: Value, at: Location)
    requires p != [] && Pruned(x, t) && Writes(p, x, at)
    ensures Writes(p, t, at)
    decreases x
  {
    match x
    case Obj(m) =>
      if |p| > 1 {
        WritesWithin(p[1..], m[p[0]], t.fields[p[0]], at[1..]);
      }
    case Arr(a) => WritesWithin(Down(p), a[at[0].index], t.elems[at[0].index], at[1..]);
    case _ =>
  }

  /** A location is still written when nothing on the way to it has been cut off. */
  lemma {:induction false} StillWrites(p: Path, x: Value, t: Value, at: Location)
    requires p != [] && Pruned(x, t) && Writes(p, t, at)
    requires forall k: nat | k < |at| :: Probe(x, at[..k]).Some?
    ensures Writes(p, x, at)
    decreases t
  {
    match t
    case Obj(m) =>
      if |p| > 1 {
        assert Probe(x, at[..1]).Some?;
        assert at[..1][0] == at[0] && at[..1][1..] == [];
        forall k: nat | k < |at[1..]| ensures Probe(x.fields[p[0]], at[1..][..k]).Some? {
          assert at[..k + 1][1..] == at[1..][..k];
          assert Probe(x, at[..k + 1]).Some?;
        }
        StillWrites(p[1..], x.fields[p[0]], m[p[0]], at[1..]);
      }
    case Arr(a) =>
      forall k: nat | k < |at[1..]| ensures Probe(x.elems[at[0].index], at[1..][..k]).Some? {
        assert at[..k + 1][1..] == at[1..][..k];
        assert Probe(x, at[..k + 1]).Some?;
      }
      StillWrites(Down(p), x.elems[at[0].index], a[at[0].index], at[1..]);
    case _ =>
  }

  /** No rule opens a way for a path that is apart from it. */
  lemma {:induction false} WritesBefore(p: Path, q: Path, w: VariableMapping, t: Value, at: Location)
    requires p != [] && q != [] && Apart(p, q, t) && Passes(q, w, t) && Writes(p, After(q, w, t), at)
    ensures Writes(p, t, at)
    decreases t
  {
    match t
    case Obj(m) =>
      if p[0] == q[0] {
        if p[0] in m {
          WritesBefore(p[1..], q[1..], w, m[p[0]], at[1..]);
        }
      } else {
        KeyOnly(q, w, m, m);
      }
    case Arr(a) =>
      ListStep(q, w, a);
      WritesBefore(Down(p), Down(q), w, a[at[0].index], at[1..]);
    case _ =>
  }

  /** Nor for its own. */
  lemma {:induction false} WroteBefore(p: Path, v: VariableMapping, t: Value, at: Location)
    requires p != [] && Passes(p, v, t) && Writes(p, After(p, v, t), at)
    ensures Writes(p, t, at)
    decreases t
  {
    match t
    case Obj(m) =>
      if |p| > 1 && p[0] in m {
        WroteBefore(p[1..], v, m[p[0]], at[1..]);
      }
    case Arr(a) =>
      ListStep(p, v, a);
      WroteBefore(Down(p), v, a[at[0].index], at[1..]);
    case _ =>
  }

  // ---------------------------------------------------------------------
  // All rules of an object
  // ---------------------------------------------------------------------

  lemma RulePassesWithin(r: Rule, x: Document, t: Document)
    requires Pruned(x, t) && RulePasses(r, t)
    ensures RulePasses(r, x)
  {
    if |PathOf(r)| == 1 {
      ShortRule(r, t);
      ShortRule(r, x);
    } else {
      RuleIsIterate(r, t);
      RuleIsIterate(r, x);
      PassesWithin(PathOf(r), r.1, x, t);
    }
  }

  lemma PairwiseApartWithin(rules: seq<Rule>, x: Document, t: Document)
    requires Pruned(x, t) && PairwiseApart(rules, t)
    ensures PairwiseApart(rules, x)
  {
    forall i, j | 0 <= i < |rules| && 0 <= j < |rules| && i != j ensures RulesApart(rules[i], rules[j], x) {
      if |PathOf(rules[i])| > 1 && |PathOf(rules[j])| > 1 {
        ApartWithin(PathOf(rules[i]), PathOf(rules[j]), x, t);
      }
    }
  }

  lemma RuleWritesBefore(r: Rule, s: Rule, d: Document, at: Location)
    requires r == s || RulesApart(r, s, d)
    requires RulePasses(s, d) && RuleWrites(r, AfterRule(s, d), at)
    ensures RuleWrites(r, d, at)
  {
    if |PathOf(s)| == 1 {
      ShortRule(s, d);
    } else {
      RuleIsIterate(s, d);
      if r == s {
        WroteBefore(PathOf(r), r.1, d, at);
      } else {
        WritesBefore(PathOf(r), PathOf(s), s.1, d, at);
      }
    }
  }

  /** A run of rules that are apart opens no way for any of them. */
  lemma {:induction false} RulesWriteBefore(rules: seq<Rule>, k: nat, i: nat, d: Document, at: Location)
    requires k <= |rules| && i < |rules| && PairwiseApart(rules, d) && ApplyRules(rules[k..], d).verdict == Passed
    requires RuleWrites(rules[i], ApplyRules(rules[k..], d).tree, at)
    ensures RuleWrites(rules[i], d, at)
    decreases |rules| - k
  {
    if k < |rules| {
      StillApart(rules, k, d);
      assert rules[k..][1..] == rules[k + 1..];
      RulesWriteBefore(rules, k + 1, i, AfterRule(rules[k], d), at);
      RuleWritesBefore(rules[i], rules[k], d, at);
    }
  }

  lemma {:induction false} StillPasses(r: Rule, rules: seq<Rule>, d: Document)
    requires PairwiseApart([r] + rules, d) && RulePasses(r, d) && ApplyRules(rules, d).verdict == Passed
    ensures RulePasses(r, ApplyRules(rules, d).tree)
  {
    if rules != [] {
      assert RulesApart(([r] + rules)[0], ([r] + rules)[1], d);
      RulesCommute(r, rules[0], d);
      ApartWithoutSecond(r, rules, d);
      StillPasses(r, rules[1..], AfterRule(rules[0], d));
    }
  }

  /** Each of them would pass again. */
  lemma {:induction false} PassesAgain(rules: seq<Rule>, i: nat, d: Document)
    requires i < |rules| && PairwiseApart(rules, d) && ApplyRules(rules, d).verdict == Passed
    ensures RulePasses(rules[i], ApplyRules(rules, d).tree)
  {
    var r := rules[0];
    var d' := AfterRule(r, d);
    if i == 0 {
      if |PathOf(r)| > 1 {
        RuleIsIterate(r, d);
        TwiceIsOnce(PathOf(r), r.1, d);
        RuleIsIterate(r, d');
      } else {
        ShortRule(r, d);
      }
      StillApart(rules, 0, d);
      assert [r] + rules[1..] == rules;
      StillPasses(r, rules[1..], d');
    } else {
      PairwiseApartTail(rules, d);
      PassesAgain(rules[1..], i - 1, d');
    }
  }

  ghost predicate AnyWrites(rules: seq<Rule>, d: Document, at: Location) {
    exists i :: 0 <= i < |rules| && RuleWrites(rules[i], d, at)
  }

  lemma RuleLeaves(r: Rule, d: Document, at: Location)
    requires RulePasses(r, d) && forall k: nat | k <= |at| :: !RuleWrites(r, d, at[..k])
    ensures Probe(AfterRule(r, d), at) == Probe(d, at)
  {
    assert at[..|at|] == at;
    if |PathOf(r)| == 1 {
      ShortRule(r, d);
    } else {
      RuleIsIterate(r, d);
      IterateExact(PathOf(r), r.1, d, at);
    }
  }

  /** What no rule writes, at the location or above it, stays. */
  lemma {:induction false} Untouched(rules: seq<Rule>, n: nat, d: Document, at: Location)
    requires n <= |rules| && PairwiseApart(rules, d) && ApplyRules(rules[n..], d).verdict == Passed
    requires forall k: nat | k <= |at| :: !AnyWrites(rules, d, at[..k])
    ensures Probe(ApplyRules(rules[n..], d).tree, at) == Probe(d, at)
    decreases |rules| - n
  {
    if n < |rules| {
      var d' := AfterRule(rules[n], d);
      forall k: nat | k <= |at| ensures !RuleWrites(rules[n], d, at[..k]) {
        assert !AnyWrites(rules, d, at[..k]);
      }
      RuleLeaves(rules[n], d, at);
      StillApart(rules, n, d);
      assert rules[n..][1..] == rules[n + 1..];
      forall k: nat | k <= |at| ensures !AnyWrites(rules, d', at[..k]) {
        if AnyWrites(rules, d', at[..k]) {
          var i :| 0 <= i < |rules| && RuleWrites(rules[i], d', at[..k]);
          RuleWritesBefore(rules[i], rules[n], d, at[..k]);
        }
      }
      Untouched(rules, n + 1, d', at);
    }
  }

  lemma {:induction false} AboveThere(x: Value, at: Location, k: nat)
    requires k <= |at| && Probe(x, at).Some?
    ensures Probe(x, at[..k]).Some?
    decreases |at|
  {
    if k > 0 {
      assert at[..k][1..] == at[1..][..k - 1];
      AboveThere(Child(x, at[0]).value, at[1..], k - 1);
    }
  }

  /** A run puts nothing where no rule writes. */
  lemma NothingElse(rules: seq<Rule>, x: Document, at: Location)
    requires PairwiseApart(rules, x) && ApplyRules(rules, x).verdict == Passed
    requires !AnyWrites(rules, x, at) && Probe(ApplyRules(rules, x).tree, at).Some?
    ensures Probe(x, at).Some?
  {
    assert at[..|at|] == at && rules[0..] == rules;
    forall k: nat | k <= |at| ensures !AnyWrites(rules, x, at[..k]) {
      if k < |at| && AnyWrites(rules, x, at[..k]) {
        var i :| 0 <= i < |rules| && RuleWrites(rules[i], x, at[..k]);
        OnePass(rules, i, x, at[..k]);
        NothingBelow(ApplyRules(rules, x).tree, at, k);
      }
    }
    Untouched(rules, 0, x, at);
  }

  // ---------------------------------------------------------------------
  // The rules on any object
  // ---------------------------------------------------------------------

  /** The rule leaves alone what it meets where it writes. */
  ghost predicate RuleLeavesBe(r: Rule, x: Document) {
    forall at | RuleWrites(r, x, at) && Probe(x, at).Some? :: Rewritten(r.1, Probe(x, at)) == Probe(x, at)
  }

  ghost predicate LeaveBe(rules: seq<Rule>, x: Document) {
    forall i | 0 <= i < |rules| :: RuleLeavesBe(rules[i], x)
  }

  lemma LeftBe(rules: seq<Rule>, x: Document, at: Location)
    requires PairwiseApart(rules, x) && ApplyRules(rules, x).verdict == Passed && LeaveBe(rules, x)
             && Probe(x, at).Some?
    ensures Probe(ApplyRules(rules, x).tree, at) == Probe(x, at)
  {
    assert at[..|at|] == at && rules[0..] == rules;
    if AnyWrites(rules, x, at) {
      var i :| 0 <= i < |rules| && RuleWrites(rules[i], x, at);
      assert RuleLeavesBe(rules[i], x);
      OnePass(rules, i, x, at);
    } else {
      forall k: nat | k <= |at| ensures !AnyWrites(rules, x, at[..k]) {
        if k < |at| && AnyWrites(rules, x, at[..k]) {
          var i :| 0 <= i < |rules| && RuleWrites(rules[i], x, at[..k]);
          AboveThere(x, at, k);
          assert RuleLeavesBe(rules[i], x);
          NothingBelow(x, at, k);
        }
      }
      Untouched(rules, 0, x, at);
    }
  }

  /** Rules that are apart only add to an object, if and only if each leaves alone what it meets. */
  lemma OnlyAddsIff(rules: seq<Rule>, x: Document)
    requires PairwiseApart(rules, x) && ApplyRules(rules, x).verdict == Passed
    ensures Pruned(x, ApplyRules(rules, x).tree) <==> LeaveBe(rules, x)
  {
    var u := ApplyRules(rules, x).tree;
    if LeaveBe(rules, x) {
      forall at | Probe(x, at).Some? ensures Probe(u, at) == Probe(x, at) {
        LeftBe(rules, x, at);
      }
      PrunedByProbes(x, u);
    }
    if Pruned(x, u) {
      forall i, at | 0 <= i < |rules| && RuleWrites(rules[i], x, at) && Probe(x, at).Some?
        ensures Rewritten(rules[i].1, Probe(x, at)) == Probe(x, at)
      {
        OnePass(rules, i, x, at);
        PrunedProbe(x, u, at);
      }
    }
  }

  /** The rule puts a constant at a location that holds nothing. */
  ghost predicate RuleAdds(r: Rule, x: Document, at: Location) {
    RuleWrites(r, x, at) && !r.1.variableType.StrVar? && Probe(x, at).None?
  }

  ghost predicate Adds(rules: seq<Rule>, x: Document, at: Location) {
    exists i :: 0 <= i < |rules| && RuleAdds(rules[i], x, at)
  }

  lemma WritesConstant(r: Rule, x: Document, at: Location)
    requires RulePasses(r, x) && RuleAdds(r, x, at)
    ensures Rewritten(r.1, None).Some? && !Rewritten(r.1, None).value.value.Str?
  {
    RuleIsIterate(r, x);
    ConstantWhereWritten(PathOf(r), r.1, x, at);
  }

  /** What is new after a run was added as a constant, and every constant for an empty location is. */
  lemma AddedIff(rules: seq<Rule>, x: Document, at: Location)
    requires PairwiseApart(rules, x) && ApplyRules(rules, x).verdict == Passed && Probe(x, at).None?
    ensures Probe(ApplyRules(rules, x).tree, at).Some? <==> Adds(rules, x, at)
    ensures Adds(rules, x, at) ==> var added := Probe(ApplyRules(rules, x).tree, at);
            added.value.Leaf? && !added.value.value.Str?
  {
    PassTogether(rules, x);
    if Adds(rules, x, at) {
      var i :| 0 <= i < |rules| && RuleAdds(rules[i], x, at);
      OnePass(rules, i, x, at);
      WritesConstant(rules[i], x, at);
    } else if Probe(ApplyRules(rules, x).tree, at).Some? {
      if !AnyWrites(rules, x, at) {
        NothingElse(rules, x, at);
      }
      var i :| 0 <= i < |rules| && RuleWrites(rules[i], x, at);
      OnePass(rules, i, x, at);
    }
  }

  /** Rules that only add leave every string as it is, and make no new one. */
  lemma AddingKeepsString(rules: seq<Rule>, x: Document, name: Path)
    requires PairwiseApart(rules, x) && ApplyRules(rules, x).verdict == Passed && Pruned(x, ApplyRules(rules, x).tree)
    ensures GetString(ApplyRules(rules, x).tree, name) == GetString(x, name)
  {
    var u := ApplyRules(rules, x).tree;
    Deleting.StringIsProbed(x, name);
    Deleting.StringIsProbed(u, name);
    if Probe(x, KeysOf(name)).Some? {
      PrunedProbe(x, u, KeysOf(name));
    } else {
      AddedIff(rules, x, KeysOf(name));
    }
  }

  /** Deleting takes a run that only adds back to where it started, if and only if no path leads to
      anything that was there, and every location something was added to is below a path. */
  lemma DeletedBackIff(rules: seq<Rule>, x: Document, paths: seq<Path>)
    requires PairwiseApart(rules, x) && ApplyRules(rules, x).verdict == Passed && Pruned(x, ApplyRules(rules, x).tree)
    requires forall i | 0 <= i < |paths| :: paths[i] != []
    ensures Deleting.RemoveAll(paths, ApplyRules(rules, x).tree) == x <==>
            && (forall at | Deleting.Covered(paths, at) :: Probe(x, at).None?)
            && (forall at | Adds(rules, x, at) :: Deleting.Covered(paths, at))
  {
    var u := ApplyRules(rules, x).tree;
    var back := Deleting.RemoveAll(paths, u);
    if back == x {
      forall at | Deleting.Covered(paths, at) ensures Probe(x, at).None? {
        Deleting.RemoveAllExact(paths, u, at);
      }
      forall at | Adds(rules, x, at) ensures Deleting.Covered(paths, at) {
        Deleting.RemoveAllExact(paths, u, at);
        AddedIff(rules, x, at);
      }
    }
    if (forall at | Deleting.Covered(paths, at) :: Probe(x, at).None?)
      && (forall at | Adds(rules, x, at) :: Deleting.Covered(paths, at)) {
      forall at ensures Probe(back, at) == Probe(x, at) {
        Deleting.RemoveAllExact(paths, u, at);
        if Probe(x, at).Some? {
          PrunedProbe(x, u, at);
        } else {
          AddedIff(rules, x, at);
        }
      }
      SameProbesSameTree(back, x);
    }
  }

  // ---------------------------------------------------------------------
  // The rules again, on what deletion left of their result
  // ---------------------------------------------------------------------

  /** Rules that passed on `d` pass again on any pruned copy of their result. */
  lemma AgainPasses(rules: seq<Rule>, d: Document, x: Document)
    requires PairwiseApart(rules, d) && ApplyRules(rules, d).verdict == Passed
    requires Pruned(x, ApplyRules(rules, d).tree)
    ensures PairwiseApart(rules, ApplyRules(rules, d).tree) && PairwiseApart(rules, x)
    ensures ApplyRules(rules, x).verdict == Passed
  {
    var t := ApplyRules(rules, d).tree;
    assert rules[0..] == rules;
    StillApartAfter(rules, 0, d);
    PairwiseApartWithin(rules, x, t);
    forall i | 0 <= i < |rules| ensures RulePasses(rules[i], x) {
      PassesAgain(rules, i, d);
      RulePassesWithin(rules[i], x, t);
    }
    PassTogether(rules, x);
  }

  /** What the rules write in a pruned copy of their result they wrote before, and what is still
      there is what they wrote. */
  lemma WroteThere(rules: seq<Rule>, i: nat, d: Document, x: Document, at: Location)
    requires i < |rules| && PairwiseApart(rules, d) && ApplyRules(rules, d).verdict == Passed
    requires Pruned(x, ApplyRules(rules, d).tree) && RuleWrites(rules[i], x, at)
    ensures RuleWrites(rules[i], d, at)
    ensures Probe(ApplyRules(rules, d).tree, at) == Rewritten(rules[i].1, Probe(d, at))
    ensures Probe(x, at).Some? ==> Probe(x, at) == Rewritten(rules[i].1, Probe(d, at))
  {
    var t := ApplyRules(rules, d).tree;
    WritesWithin(PathOf(rules[i]), x, t, at);
    assert rules[0..] == rules;
    RulesWriteBefore(rules, 0, i, d, at);
    OnePass(rules, i, d, at);
    if Probe(x, at).Some? {
      PrunedProbe(x, t, at);
    }
  }

  /** Where the rule rewrote a string and deletion leaves it, running the rule again changes nothing. */
  ghost predicate SurvivorsSettle(r: Rule, d: Document, x: Document) {
    r.1.variableType.StrVar? ==>
      forall at: Location, s | RuleWrites(r, d, at) && Probe(d, at) == Some(Leaf(Str(s))) && Probe(x, at).Some? ::
        r.1.fromSubStr == r.1.toSubStr || !Contains(ReplaceFirst(s, r.1.fromSubStr, r.1.toSubStr), r.1.fromSubStr)
  }

  ghost predicate AllSettle(rules: seq<Rule>, d: Document, x: Document) {
    forall i | 0 <= i < |rules| :: SurvivorsSettle(rules[i], d, x)
  }

  lemma RewrittenAgain(v: VariableMapping, was: Option<Shape>)
    ensures match was { case Some(Leaf(Str(s))) => true case _ => Rewritten(v, Rewritten(v, was)) == Rewritten(v, was) }
    ensures !v.variableType.StrVar? ==> Rewritten(v, Rewritten(v, was)) == Rewritten(v, was)
    ensures v.variableType.StrVar? && was.Some? && was.value.Leaf? && was.value.value.Str? ==>
              (Rewritten(v, Rewritten(v, was)) == Rewritten(v, was) <==>
               v.fromSubStr == v.toSubStr
                 || !Contains(ReplaceFirst(was.value.value.s, v.fromSubStr, v.toSubStr), v.fromSubStr))
  {
    if v.variableType.StrVar? && was.Some? && was.value.Leaf? && was.value.value.Str? {
      ReplaceStable(ReplaceFirst(was.value.value.s, v.fromSubStr, v.toSubStr), v.fromSubStr, v.toSubStr);
    }
  }

  /** Then the rules leave alone what they meet in the copy. */
  lemma SettledLeaveBe(rules: seq<Rule>, d: Document, x: Document)
    requires PairwiseApart(rules, d) && ApplyRules(rules, d).verdict == Passed
    requires Pruned(x, ApplyRules(rules, d).tree) && AllSettle(rules, d, x)
    ensures LeaveBe(rules, x)
  {
    forall i, at | 0 <= i < |rules| && RuleWrites(rules[i], x, at) && Probe(x, at).Some?
      ensures Rewritten(rules[i].1, Probe(x, at)) == Probe(x, at)
    {
      WroteThere(rules, i, d, x, at);
      RewrittenAgain(rules[i].1, Probe(d, at));
      assert SurvivorsSettle(rules[i], d, x);
    }
  }

  /** Whatever a second run that only adds puts back was in the first result. */
  lemma PutBack(rules: seq<Rule>, d: Document, x: Document, at: Location)
    requires PairwiseApart(rules, d) && ApplyRules(rules, d).verdict == Passed
    requires Pruned(x, ApplyRules(rules, d).tree) && Pruned(x, ApplyRules(rules, x).tree)
    requires Probe(ApplyRules(rules, x).tree, at).Some?
    ensures Probe(ApplyRules(rules, d).tree, at) == Probe(ApplyRules(rules, x).tree, at)
  {
    AgainPasses(rules, d, x);
    if Probe(x, at).Some? {
      PrunedProbe(x, ApplyRules(rules, x).tree, at);
      PrunedProbe(x, ApplyRules(rules, d).tree, at);
    } else {
      AddedIff(rules, x, at);
      var i :| 0 <= i < |rules| && RuleAdds(rules[i], x, at);
      WroteThere(rules, i, d, x, at);
      OnePass(rules, i, x, at);
    }
  }

  /** Run again on what deletion left of their result, rules that are apart change nothing that is
      left and put back only what was deleted, if and only if every string that was rewritten and is
      left settles. */
  lemma BetweenIff(rules: seq<Rule>, d: Document, x: Document)
    requires PairwiseApart(rules, d) && ApplyRules(rules, d).verdict == Passed
    requires Pruned(x, ApplyRules(rules, d).tree)
    ensures ApplyRules(rules, x).verdict == Passed
    ensures Pruned(x, ApplyRules(rules, x).tree) <==> AllSettle(rules, d, x)
    ensures AllSettle(rules, d, x) ==> Pruned(ApplyRules(rules, x).tree, ApplyRules(rules, d).tree)
  {
    var t, u := ApplyRules(rules, d).tree, ApplyRules(rules, x).tree;
    AgainPasses(rules, d, x);
    if AllSettle(rules, d, x) {
      SettledLeaveBe(rules, d, x);
      OnlyAddsIff(rules, x);
      forall at | Probe(u, at).Some? ensures Probe(t, at) == Probe(u, at) {
        PutBack(rules, d, x, at);
      }
      PrunedByProbes(u, t);
    }
    if Pruned(x, u) {
      forall i | 0 <= i < |rules| ensures SurvivorsSettle(rules[i], d, x) {
        forall at: Location, s | rules[i].1.variableType.StrVar? && RuleWrites(rules[i], d, at)
          && Probe(d, at) == Some(Leaf(Str(s))) && Probe(x, at).Some?
          ensures rules[i].1.fromSubStr == rules[i].1.toSubStr
                  || !Contains(ReplaceFirst(s, rules[i].1.fromSubStr, rules[i].1.toSubStr), rules[i].1.fromSubStr)
        {
          SurvivorSettles(rules, i, d, x, at);
        }
      }
    }
  }

  lemma SurvivorSettles(rules: seq<Rule>, i: nat, d: Document, x: Document, at: Location)
    requires i < |rules| && PairwiseApart(rules, d) && ApplyRules(rules, d).verdict == Passed
    requires Pruned(x, ApplyRules(rules, d).tree) && Pruned(x, ApplyRules(rules, x).tree)
    requires RuleWrites(rules[i], d, at) && Probe(x, at).Some?
    ensures Rewritten(rules[i].1, Rewritten(rules[i].1, Probe(d, at))) == Rewritten(rules[i].1, Probe(d, at))
    ensures rules[i].1.variableType.StrVar?
            && Probe(d, at).Some? && Probe(d, at).value.Leaf? && Probe(d, at).value.value.Str? ==>
              rules[i].1.fromSubStr == rules[i].1.toSubStr
              || !Contains(ReplaceFirst(Probe(d, at).value.value.s, rules[i].1.fromSubStr, rules[i].1.toSubStr),
                   rules[i].1.fromSubStr)
  {
    var t, u := ApplyRules(rules, d).tree, ApplyRules(rules, x).tree;
    OnePass(rules, i, d, at);
    forall k: nat | k < |at| ensures Probe(x, at[..k]).Some? {
      AboveThere(x, at, k);
    }
    StillWrites(PathOf(rules[i]), x, t, at);
    AgainPasses(rules, d, x);
    OnePass(rules, i, x, at);
    PrunedProbe(x, t, at);
    PrunedProbe(x, u, at);
    RewrittenAgain(rules[i].1, Probe(d, at));
  }
}
