// Which windows a rule is for and which of two rules wins, in terms of the texts and numbers themselves.
module RuleMatching {
  import opened Wrappers
  import opened MachineInt
  import opened Domain
  import opened Text
  import opened WindowRules
  import opened TextProofs

  // ---- matching --------------------------------------------------------------------------------

  /** No text is asked for, or it occurs in the given one in some case. */
  ghost predicate Accepts(wanted: Option<string>, given: Option<string>) {
    wanted.Some? ==> given.Some? && HoldsText(given.value, wanted.value)
  }

  /** The rule is on and each of its texts occurs in its own field of the window. */
  ghost predicate IsFor(rule: WindowRule, input: RuleInput) {
    && rule.enabled
    && Accepts(rule.matchers.processName, input.processName)
    && Accepts(rule.matchers.classSubstring, Some(input.className))
    && Accepts(rule.matchers.titleSubstring, Some(input.title))
  }

  function With(rule: WindowRule, matchers: RuleMatch): WindowRule { rule.(matchers := matchers) }

  /**
   * A rule applies exactly when it is on and every text it names occurs, in some case, in the process name, the class
   * name and the title respectively. So a rule with several matchers applies exactly when each alone would, one without
   * matchers applies to every window, and a process matcher never applies to a window without a process name.
   */
  lemma RuleAppliesExactly(rule: WindowRule, input: RuleInput)
    ensures Applies(rule, input) <==> IsFor(rule, input)
    ensures (
      Applies(rule, input) <==>
      && Applies(With(rule, RuleMatch(rule.matchers.processName, None, None)), input)
      && Applies(With(rule, RuleMatch(None, rule.matchers.classSubstring, None)), input)
      && Applies(With(rule, RuleMatch(None, None, rule.matchers.titleSubstring)), input))
    ensures rule.matchers == RuleMatch(None, None, None) ==> (Applies(rule, input) <==> rule.enabled)
    ensures rule.matchers.processName.Some? && input.processName.None? ==> !Applies(rule, input)
  {
    hide ContainsIgnoreCase, HoldsText;
    if rule.matchers.processName.Some? && input.processName.Some? {
      SearchFinds(input.processName.value, rule.matchers.processName.value);
    }
    if rule.matchers.classSubstring.Some? {
      SearchFinds(input.className, rule.matchers.classSubstring.value);
    }
    if rule.matchers.titleSubstring.Some? {
      SearchFinds(input.title, rule.matchers.titleSubstring.value);
    }
  }

  /** The rule of one title text that floats windows floats exactly those whose title holds the text. */
  lemma TitleRuleFloats(id: string, text: string, input: RuleInput, config: ConfigProjection)
    ensures var rule := WindowRule(id, 0, true, RuleMatch(None, None, Some(text)), RuleActions(Some(Floating), None, None, None));
            Decide([rule], input, config).layer == if HoldsText(input.title, text) then Floating else Tiled
  {
    var rule := WindowRule(id, 0, true, RuleMatch(None, None, Some(text)), RuleActions(Some(Floating), None, None, None));
    RuleAppliesExactly(rule, input);
    hide Applies, HoldsText;
    assert [rule][..0] == [];
  }

  // ---- rank --------------------------------------------------------------------------------------

  /** `a` comes after `b`: it continues b, or has the greater character where they first differ. */
  ghost predicate ComesAfter(a: string, b: string) {
    exists k :: 0 <= k <= |b| && DiffersAt(a, b, k)
  }

  ghost predicate DiffersAt(a: string, b: string, k: nat)
    requires k <= |b|
  {
    k < |a| && a[..k] == b[..k] && (k == |b| || a[k] > b[k])
  }

  /** The greater priority, or the same priority and the later id. */
  ghost predicate Outranks(a: WindowRule, b: WindowRule) {
    a.priority > b.priority || (a.priority == b.priority && ComesAfter(a.id, b.id))
  }

  lemma {:induction false} LaterIsGreater(a: string, b: string)
    ensures StringLess(b, a) <==> ComesAfter(a, b)
    decreases |a|
  {
    if a == "" {
    } else if b == "" {
      assert DiffersAt(a, b, 0);
    } else if a[0] != b[0] {
      FirstDiffers(a, b);
    } else {
      LaterIsGreater(a[1..], b[1..]);
      SharedHead(a, b);
    }
  }

  lemma FirstDiffers(a: string, b: string)
    requires a != "" && b != "" && a[0] != b[0]
    ensures ComesAfter(a, b) <==> a[0] > b[0]
  {
    if a[0] > b[0] {
      assert DiffersAt(a, b, 0);
    }
    forall k: nat | k <= |b| && DiffersAt(a, b, k)
      ensures k == 0
    {
      if k > 0 {
        assert false;
      }
    }
  }

  lemma SharedHead(a: string, b: string)
    requires a != "" && b != "" && a[0] == b[0]
    ensures ComesAfter(a, b) <==> ComesAfter(a[1..], b[1..])
  {
    forall k: nat | k <= |b[1..]|
      ensures DiffersAt(a[1..], b[1..], k) <==> DiffersAt(a, b, k + 1)
    {
      HeadAndPrefix(a, k);
      HeadAndPrefix(b, k);
    }
    forall k: nat | k <= |b| && DiffersAt(a, b, k)
      ensures k > 0 && DiffersAt(a[1..], b[1..], k - 1)
    {
    }
    if ComesAfter(a[1..], b[1..]) {
      var k :| 0 <= k <= |b[1..]| && DiffersAt(a[1..], b[1..], k);
      assert DiffersAt(a, b, k + 1);
    }
  }

  lemma HeadAndPrefix(s: string, k: nat)
    requires s != ""
    ensures k + 1 <= |s| ==> s[..k + 1] == [s[0]] + s[1..][..k]
  {
  }

  /** Rules are compared by priority, then by id. */
  lemma RankIs(a: WindowRule, b: WindowRule)
    ensures RuleLess(b, a) <==> Outranks(a, b)
  {
    LaterIsGreater(a.id, b.id);
  }

  /** The sort puts the higher rank last and keeps every rule. */
  lemma SortPutsHigherLast(rules: seq<WindowRule>)
    ensures var sorted := SortRules(rules);
            && multiset(sorted) == multiset(rules)
            && forall i, j :: 0 <= i < j < |sorted| ==> !Outranks(sorted[i], sorted[j])
  {
    SortSorts(rules);
    hide SortRules, Outranks, RuleLess;
    var sorted := SortRules(rules);
    forall i, j | 0 <= i < j < |sorted|
      ensures !Outranks(sorted[i], sorted[j])
    {
      RankIs(sorted[i], sorted[j]);
    }
  }

  // ---- which rule decides --------------------------------------------------------------------------

  /** `rule` is for this window, sets the field, and outranks every other rule that does both. */
  ghost predicate Wins<T>(rule: WindowRule, rules: seq<WindowRule>, input: RuleInput, get: WindowRule -> Option<T>) {
    && rule in rules && IsFor(rule, input) && get(rule).Some?
    && forall r :: r in rules && IsFor(r, input) && get(r).Some? ==> r == rule || Outranks(rule, r)
  }

  ghost predicate NobodySets<T>(rules: seq<WindowRule>, input: RuleInput, get: WindowRule -> Option<T>) {
    forall r :: r in rules && IsFor(r, input) ==> get(r).None?
  }

  lemma WinnerIsGreatest<T>(rule: WindowRule, rules: seq<WindowRule>, input: RuleInput, get: WindowRule -> Option<T>)
    ensures Wins(rule, rules, input, get) ==> IsGreatestSetter(rule, rules, input, get)
    ensures NobodySets(rules, input, get) ==> forall r :: r in rules && Applies(r, input) ==> get(r).None?
  {
    hide Applies, IsFor, RuleLess, Outranks;
    forall r | r in rules
      ensures Applies(r, input) <==> IsFor(r, input)
      ensures RuleLess(r, rule) <==> Outranks(rule, r)
    {
      RuleAppliesExactly(r, input);
      RankIs(rule, r);
    }
  }

  /**
   * Each field of a decision comes from the rule that is for the window, sets the field and outranks all others that
   * do; where no rule sets it, from the defaults.
   */
  lemma HighestRankDecides(
      rules: seq<WindowRule>, forLayer: WindowRule, forMode: WindowRule, forWidth: WindowRule, forManaged: WindowRule,
      input: RuleInput, config: ConfigProjection)
    ensures var decision := Decide(SortRules(rules), input, config);
            var layer, mode, width, managed := (r: WindowRule) => r.actions.layer, (r: WindowRule) => r.actions.columnMode,
                                               (r: WindowRule) => r.actions.width, (r: WindowRule) => r.actions.managed;
            && (Wins(forLayer, rules, input, layer) ==> Some(decision.layer) == forLayer.actions.layer)
            && (NobodySets(rules, input, layer) ==> decision.layer == Tiled)
            && (Wins(forMode, rules, input, mode) ==> Some(decision.columnMode) == forMode.actions.columnMode)
            && (NobodySets(rules, input, mode) ==> decision.columnMode == config.defaultColumnMode)
            && (Wins(forWidth, rules, input, width) ==> Some(decision.width) == forWidth.actions.width && decision.widthExplicit)
            && (NobodySets(rules, input, width) ==> decision.width == config.defaultColumnWidth && !decision.widthExplicit)
            && (Wins(forManaged, rules, input, managed) ==> Some(decision.managed) == forManaged.actions.managed)
            && (NobodySets(rules, input, managed) ==> decision.managed)
  {
    hide Decide, SortRules, Wins, NobodySets, Applies;
    WinnerIsGreatest(forLayer, rules, input, (r: WindowRule) => r.actions.layer);
    WinnerIsGreatest(forMode, rules, input, (r: WindowRule) => r.actions.columnMode);
    WinnerIsGreatest(forWidth, rules, input, (r: WindowRule) => r.actions.width);
    WinnerIsGreatest(forManaged, rules, input, (r: WindowRule) => r.actions.managed);
    LayerComesFromGreatest(rules, forLayer, input, config);
    WidthComesFromGreatest(rules, forWidth, input, config);
    ModeAndManagedComeFromGreatest(rules, forMode, forManaged, input, config);
  }
}
