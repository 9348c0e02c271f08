// Window rules: how they are ordered and how they decide where a window goes (crates/config-rules).
module WindowRules {
  import opened Wrappers
  import opened MachineInt
  import opened Domain
  import opened Text

  datatype RuleMatch = RuleMatch(
    processName: Option<string>,
    classSubstring: Option<string>,
    titleSubstring: Option<string>)

  datatype RuleActions = RuleActions(
    layer: Option<WindowLayer>,
    columnMode: Option<ColumnMode>,
    width: Option<WidthSemantics>,
    managed: Option<bool>)

  datatype WindowRule = WindowRule(
    id: string,
    priority: i32,
    enabled: bool,
    matchers: RuleMatch,
    actions: RuleActions)

  datatype RuleInput = RuleInput(processName: Option<string>, className: string, title: string)

  datatype RuleDecision = RuleDecision(
    layer: WindowLayer,
    managed: bool,
    columnMode: ColumnMode,
    width: WidthSemantics,
    widthExplicit: bool,
    matchedRuleIds: seq<string>)

  // ---- matching --------------------------------------------------------------------------------

  predicate OccursAt(text: string, needle: string, i: nat) {
    i + |needle| <= |text| && text[i..i + |needle|] == needle
  }

  predicate Contains(text: string, needle: string) {
    exists i :: 0 <= i <= |text| && OccursAt(text, needle, i)
  }

  predicate ContainsIgnoreCase(text: string, needle: string) { Contains(AsciiLower(text), AsciiLower(needle)) }

  predicate RuleMatches(rule: WindowRule, input: RuleInput) {
    && (rule.matchers.processName.Some? ==>
          input.processName.Some? && ContainsIgnoreCase(input.processName.value, rule.matchers.processName.value))
    && (rule.matchers.classSubstring.Some? ==> ContainsIgnoreCase(input.className, rule.matchers.classSubstring.value))
    && (rule.matchers.titleSubstring.Some? ==> ContainsIgnoreCase(input.title, rule.matchers.titleSubstring.value))
  }

  predicate Applies(rule: WindowRule, input: RuleInput) { rule.enabled && RuleMatches(rule, input) }

  // ---- deciding --------------------------------------------------------------------------------

  function DefaultDecision(config: ConfigProjection): RuleDecision {
    RuleDecision(Tiled, true, config.defaultColumnMode, config.defaultColumnWidth, false, [])
  }

  function OrDefault<T>(choice: Option<T>, default: T): T { if choice.Some? then choice.value else default }

  function ApplyRule(decision: RuleDecision, rule: WindowRule): RuleDecision {
    RuleDecision(
      OrDefault(rule.actions.layer, decision.layer),
      OrDefault(rule.actions.managed, decision.managed),
      OrDefault(rule.actions.columnMode, decision.columnMode),
      OrDefault(rule.actions.width, decision.width),
      decision.widthExplicit || rule.actions.width.Some?,
      decision.matchedRuleIds + [rule.id])
  }

  function Decide(rules: seq<WindowRule>, input: RuleInput, config: ConfigProjection): RuleDecision {
    if rules == [] then DefaultDecision(config)
    else
      var before := Decide(rules[..|rules| - 1], input, config);
      if Applies(rules[|rules| - 1], input) then ApplyRule(before, rules[|rules| - 1]) else before
  }

  method ClassifyWindow(rules: seq<WindowRule>, input: RuleInput, config: ConfigProjection) returns (decision: RuleDecision)
    ensures decision == Decide(rules, input, config)
  {
    decision := DefaultDecision(config);
    for i := 0 to |rules|
      invariant decision == Decide(rules[..i], input, config)
    {
      var rule := rules[i];
      assert rules[..i + 1][..i] == rules[..i];
      if !rule.enabled || !RuleMatches(rule, input) {
        continue;
      }
      decision := decision.(matchedRuleIds := decision.matchedRuleIds + [rule.id]);
      if rule.actions.layer.Some? {
        decision := decision.(layer := rule.actions.layer.value);
      }
      if rule.actions.columnMode.Some? {
        decision := decision.(columnMode := rule.actions.columnMode.value);
      }
      if rule.actions.width.Some? {
        decision := decision.(width := rule.actions.width.value, widthExplicit := true);
      }
      if rule.actions.managed.Some? {
        decision := decision.(managed := rule.actions.managed.value);
      }
    }
    assert rules[..|rules|] == rules;
  }

  // ---- ordering --------------------------------------------------------------------------------

  predicate StringLess(a: string, b: string) {
    if b == "" then false
    else if a == "" then true
    else if a[0] != b[0] then a[0] < b[0]
    else StringLess(a[1..], b[1..])
  }

  /** By priority, then by id. */
  predicate RuleLess(a: WindowRule, b: WindowRule) {
    a.priority < b.priority || (a.priority == b.priority && StringLess(a.id, b.id))
  }

  /** `rule` goes behind every rule that is not greater: the sort is stable. */
  function Insert(rule: WindowRule, rules: seq<WindowRule>): seq<WindowRule> {
    if rules != [] && RuleLess(rule, rules[|rules| - 1]) then
      Insert(rule, rules[..|rules| - 1]) + [rules[|rules| - 1]]
    else rules + [rule]
  }

  function SortRules(rules: seq<WindowRule>): seq<WindowRule> {
    if rules == [] then [] else Insert(rules[|rules| - 1], SortRules(rules[..|rules| - 1]))
  }

  ghost predicate Sorted(rules: seq<WindowRule>) {
    forall i, j :: 0 <= i < j < |rules| ==> !RuleLess(rules[j], rules[i])
  }

  /** No two rules share both priority and id. */
  ghost predicate DistinctKeys(rules: seq<WindowRule>) {
    forall i, j :: 0 <= i < j < |rules| ==> rules[i].priority != rules[j].priority || rules[i].id != rules[j].id
  }

  lemma {:induction false} StringOrder(a: string, b: string, c: string)
    ensures !(StringLess(a, b) && StringLess(b, a))
    ensures !StringLess(a, b) && !StringLess(b, a) ==> a == b
    ensures !StringLess(b, a) && !StringLess(c, b) ==> !StringLess(c, a)
    decreases |a| + |b| + |c|
  {
    if a != "" && b != "" && c != "" {
      StringOrder(a[1..], b[1..], c[1..]);
      assert a == [a[0]] + a[1..] && b == [b[0]] + b[1..];
    } else if a != "" && b != "" {
      StringOrder(a[1..], b[1..], c);
      assert a == [a[0]] + a[1..] && b == [b[0]] + b[1..];
    }
  }

  lemma RuleOrder(a: WindowRule, b: WindowRule, c: WindowRule)
    ensures !(RuleLess(a, b) && RuleLess(b, a))
    ensures !RuleLess(a, b) && !RuleLess(b, a) ==> a.priority == b.priority && a.id == b.id
    ensures !RuleLess(b, a) && !RuleLess(c, b) ==> !RuleLess(c, a)
  {
    StringOrder(a.id, b.id, c.id);
  }

  lemma {:induction false} InsertKeepsRules(rule: WindowRule, rules: seq<WindowRule>)
    ensures multiset(Insert(rule, rules)) == multiset(rules) + multiset{rule}
  {
    if rules != [] && RuleLess(rule, rules[|rules| - 1]) {
      InsertKeepsRules(rule, rules[..|rules| - 1]);
      assert rules == rules[..|rules| - 1] + [rules[|rules| - 1]];
    }
  }

  lemma {:induction false} InsertKeepsSorted(rule: WindowRule, rules: seq<WindowRule>)
    requires Sorted(rules)
    ensures Sorted(Insert(rule, rules))
  {
    hide RuleLess;
    if rules != [] && RuleLess(rule, rules[|rules| - 1]) {
      var front, last := rules[..|rules| - 1], rules[|rules| - 1];
      InsertKeepsSorted(rule, front);
      InsertKeepsRules(rule, front);
      forall i | 0 <= i < |Insert(rule, front)|
        ensures !RuleLess(last, Insert(rule, front)[i])
      {
        var r := Insert(rule, front)[i];
        assert r in multiset(Insert(rule, front));
        RuleOrder(rule, last, last);
        if r in multiset(front) {
          var k :| 0 <= k < |front| && front[k] == r;
          assert rules[k] == r && rules[|rules| - 1] == last;
        }
      }
    } else if rules != [] {
      forall i | 0 <= i < |rules|
        ensures !RuleLess(rule, rules[i])
      {
        RuleOrder(rules[i], rules[|rules| - 1], rule);
        RuleOrder(rules[i], rules[i], rules[i]);
      }
    }
  }

  lemma {:induction false} SortKeepsRules(rules: seq<WindowRule>)
    ensures multiset(SortRules(rules)) == multiset(rules)
  {
    hide Insert;
    if rules != [] {
      var front, last := rules[..|rules| - 1], rules[|rules| - 1];
      SortKeepsRules(front);
      InsertKeepsRules(last, SortRules(front));
      assert rules == front + [last];
    }
  }

  lemma {:induction false} SortOrders(rules: seq<WindowRule>)
    ensures Sorted(SortRules(rules))
  {
    hide Insert, RuleLess;
    if rules != [] {
      var front, last := rules[..|rules| - 1], rules[|rules| - 1];
      SortOrders(front);
      hide Sorted;
      InsertKeepsSorted(last, SortRules(front));
    }
  }

  lemma SortSorts(rules: seq<WindowRule>)
    ensures Sorted(SortRules(rules))
    ensures multiset(SortRules(rules)) == multiset(rules)
  {
    SortOrders(rules);
    SortKeepsRules(rules);
    hide Sorted, SortRules;
  }

  function WithKey(rules: seq<WindowRule>, priority: i32, id: string): seq<WindowRule> {
    if rules == [] then []
    else
      var last := rules[|rules| - 1];
      WithKey(rules[..|rules| - 1], priority, id) + if last.priority == priority && last.id == id then [last] else []
  }

  lemma {:induction false} InsertIsStable(rule: WindowRule, rules: seq<WindowRule>, priority: i32, id: string)
    ensures WithKey(Insert(rule, rules), priority, id) == WithKey(rules + [rule], priority, id)
  {
    assert (rules + [rule])[..|rules|] == rules;
    if rules != [] && RuleLess(rule, rules[|rules| - 1]) {
      var front, last := rules[..|rules| - 1], rules[|rules| - 1];
      InsertIsStable(rule, front, priority, id);
      assert (front + [rule])[..|front|] == front;
      assert (Insert(rule, front) + [last])[..|Insert(rule, front)|] == Insert(rule, front);
      RuleOrder(rule, last, last);
    }
  }

  /** Rules with the same priority and id keep their file order. */
  lemma {:induction false} SortIsStable(rules: seq<WindowRule>, priority: i32, id: string)
    ensures WithKey(SortRules(rules), priority, id) == WithKey(rules, priority, id)
  {
    if rules != [] {
      var front, last := rules[..|rules| - 1], rules[|rules| - 1];
      SortIsStable(front, priority, id);
      InsertIsStable(last, SortRules(front), priority, id);
      assert (SortRules(front) + [last])[..|SortRules(front)|] == SortRules(front);
    }
  }

  // ---- decisions do not depend on file order ---------------------------------------------------

  lemma DistinctByCount(a: seq<WindowRule>, b: seq<WindowRule>)
    requires DistinctKeys(a) && multiset(a) == multiset(b)
    ensures DistinctKeys(b)
  {
    assert |a| == |b| by {
      assert |multiset(a)| == |multiset(b)|;
    }
    forall i, j | 0 <= i < j < |b|
      ensures b[i].priority != b[j].priority || b[i].id != b[j].id
    {
      assert b[i] in multiset(a) && b[j] in multiset(a);
      var k :| 0 <= k < |a| && a[k] == b[i];
      var l :| 0 <= l < |a| && a[l] == b[j];
      if k == l {
        CountsTwice(b, i, j);
        CountsOnce(a, k);
      }
    }
  }

  lemma CountsTwice(rules: seq<WindowRule>, i: nat, j: nat)
    requires i < j < |rules| && rules[i] == rules[j]
    ensures multiset(rules)[rules[i]] >= 2
  {
    assert rules == rules[..i] + [rules[i]] + rules[i + 1..j] + [rules[j]] + rules[j + 1..];
  }

  lemma CountsOnce(rules: seq<WindowRule>, k: nat)
    requires DistinctKeys(rules) && k < |rules|
    ensures multiset(rules)[rules[k]] == 1
  {
    assert rules == rules[..k] + [rules[k]] + rules[k + 1..];
    assert rules[k] !in multiset(rules[..k]);
    assert rules[k] !in multiset(rules[k + 1..]);
  }

  lemma {:induction false} SortedIsUnique(a: seq<WindowRule>, b: seq<WindowRule>)
    requires Sorted(a) && Sorted(b) && DistinctKeys(a) && multiset(a) == multiset(b)
    ensures a == b
    decreases |a|
  {
    assert |a| == |multiset(a)| == |multiset(b)| == |b|;
    if a != [] {
      SortedHeadsAgree(a, b);
      assert a == [a[0]] + a[1..] && b == [b[0]] + b[1..];
      assert multiset(a[1..]) == multiset(a) - multiset{a[0]} == multiset(b[1..]);
      TailKeeps(a);
      TailKeeps(b);
      SortedIsUnique(a[1..], b[1..]);
    }
  }

  lemma TailKeeps(rules: seq<WindowRule>)
    requires Sorted(rules) && rules != []
    ensures Sorted(rules[1..])
    ensures DistinctKeys(rules) ==> DistinctKeys(rules[1..])
  {
    hide RuleLess;
  }

  lemma SortedHeadsAgree(a: seq<WindowRule>, b: seq<WindowRule>)
    requires Sorted(a) && Sorted(b) && DistinctKeys(a) && multiset(a) == multiset(b) && a != [] && b != []
    ensures a[0] == b[0]
  {
    assert a[0] in multiset(b) && b[0] in multiset(a);
    var i :| 0 <= i < |b| && b[i] == a[0];
    var j :| 0 <= j < |a| && a[j] == b[0];
    RuleOrder(a[0], b[0], b[0]);
    hide RuleLess;
    assert i > 0 ==> !RuleLess(b[i], b[0]);
    assert j > 0 ==> !RuleLess(a[j], a[0]);
  }

  /** The same rules in another file order give every window the same decision. */
  lemma FileOrderIsIrrelevant(a: seq<WindowRule>, b: seq<WindowRule>, input: RuleInput, config: ConfigProjection)
    requires DistinctKeys(a) && multiset(a) == multiset(b)
    ensures SortRules(a) == SortRules(b)
    ensures Decide(SortRules(a), input, config) == Decide(SortRules(b), input, config)
  {
    SortSorts(a);
    SortSorts(b);
    DistinctByCount(a, SortRules(a));
    SortedIsUnique(SortRules(a), SortRules(b));
  }

  /** With a shared key the file order may decide: here two tied rules disagree. */
  lemma SharedKeyDependsOnOrder(input: RuleInput, config: ConfigProjection)
    ensures var anything := RuleMatch(None, None, None);
            var float := WindowRule("r", 0, true, anything, RuleActions(Some(Floating), None, None, None));
            var tile := WindowRule("r", 0, true, anything, RuleActions(Some(Tiled), None, None, None));
            && multiset([float, tile]) == multiset([tile, float])
            && Decide(SortRules([float, tile]), input, config) != Decide(SortRules([tile, float]), input, config)
  {
    var anything := RuleMatch(None, None, None);
    var float := WindowRule("r", 0, true, anything, RuleActions(Some(Floating), None, None, None));
    var tile := WindowRule("r", 0, true, anything, RuleActions(Some(Tiled), None, None, None));
    assert !StringLess("r", "r") by { StringOrder("r", "r", "r"); }
    PairKeepsOrder(float, tile, input, config);
    PairKeepsOrder(tile, float, input, config);
    var a: seq<WindowRule> := [float, tile];
    var b: seq<WindowRule> := [tile, float];
    assert multiset(a) == multiset(b);
  }

  lemma PairKeepsOrder(a: WindowRule, b: WindowRule, input: RuleInput, config: ConfigProjection)
    requires !RuleLess(b, a) && Applies(b, input) && b.actions.layer.Some?
    ensures SortRules([a, b]) == [a, b]
    ensures Decide([a, b], input, config).layer == b.actions.layer.value
  {
    hide RuleMatches;
    assert [a, b][..1] == [a] && [a][..0] == [];
    assert SortRules([a]) == [a];
  }

  // ---- where each field comes from ---------------------------------------------------------------

  /** The value of the last applicable rule that sets it. */
  function LastSet<T>(rules: seq<WindowRule>, input: RuleInput, get: WindowRule -> Option<T>): Option<T> {
    if rules == [] then None
    else
      var last := rules[|rules| - 1];
      if Applies(last, input) && get(last).Some? then get(last) else LastSet(rules[..|rules| - 1], input, get)
  }

  lemma {:induction false} FieldsAreLastSet(rules: seq<WindowRule>, input: RuleInput, config: ConfigProjection)
    ensures var d := Decide(rules, input, config);
            && d.layer == OrDefault(LastSet(rules, input, (r: WindowRule) => r.actions.layer), Tiled)
            && d.managed == OrDefault(LastSet(rules, input, (r: WindowRule) => r.actions.managed), true)
            && d.columnMode == OrDefault(LastSet(rules, input, (r: WindowRule) => r.actions.columnMode), config.defaultColumnMode)
            && d.width == OrDefault(LastSet(rules, input, (r: WindowRule) => r.actions.width), config.defaultColumnWidth)
            && d.widthExplicit == LastSet(rules, input, (r: WindowRule) => r.actions.width).Some?
  {
    if rules != [] {
      FieldsAreLastSet(rules[..|rules| - 1], input, config);
    }
  }

  /** `rule` sets the field for this window and every other rule that does has a smaller key. */
  ghost predicate IsGreatestSetter<T>(rule: WindowRule, rules: seq<WindowRule>, input: RuleInput, get: WindowRule -> Option<T>) {
    && rule in rules && Applies(rule, input) && get(rule).Some?
    && forall r :: r in rules && Applies(r, input) && get(r).Some? ==> r == rule || RuleLess(r, rule)
  }

  lemma {:induction false} LastSetIsGreatest<T>(rules: seq<WindowRule>, rule: WindowRule, input: RuleInput, get: WindowRule -> Option<T>)
    requires Sorted(rules) && IsGreatestSetter(rule, rules, input, get)
    ensures LastSet(rules, input, get) == get(rule)
  {
    var front, last := rules[..|rules| - 1], rules[|rules| - 1];
    assert rules == front + [last];
    if Applies(last, input) && get(last).Some? {
      if last != rule {
        assert false;
      }
    } else {
      LastSetIsGreatest(front, rule, input, get);
    }
  }

  lemma {:induction false} LastSetIsNone<T>(rules: seq<WindowRule>, input: RuleInput, get: WindowRule -> Option<T>)
    ensures LastSet(rules, input, get).None? <==> forall r :: r in rules && Applies(r, input) ==> get(r).None?
  {
    if rules != [] {
      LastSetIsNone(rules[..|rules| - 1], input, get);
      assert rules == rules[..|rules| - 1] + [rules[|rules| - 1]];
    }
  }

  lemma GreatestSetterDecides<T>(rules: seq<WindowRule>, rule: WindowRule, input: RuleInput, get: WindowRule -> Option<T>)
    requires IsGreatestSetter(rule, rules, input, get)
    ensures LastSet(SortRules(rules), input, get) == get(rule)
  {
    SortSorts(rules);
    SameMembers(rules);
    LastSetIsGreatest(SortRules(rules), rule, input, get);
  }

  lemma NoSetterNoValue<T>(rules: seq<WindowRule>, input: RuleInput, get: WindowRule -> Option<T>)
    ensures LastSet(SortRules(rules), input, get).None? <==> forall r :: r in rules && Applies(r, input) ==> get(r).None?
  {
    SameMembers(rules);
    LastSetIsNone(SortRules(rules), input, get);
  }

  lemma SameMembers(rules: seq<WindowRule>)
    ensures forall r :: r in SortRules(rules) <==> r in rules
  {
    SortSorts(rules);
    forall r
      ensures r in SortRules(rules) <==> r in rules
    {
      assert r in multiset(SortRules(rules)) <==> r in multiset(rules);
    }
  }

  /**
   * After the sort, the layer is that of the greatest enabled matching rule that sets one, else the
   * default. The other three fields follow in the same way.
   */
  lemma LayerComesFromGreatest(rules: seq<WindowRule>, rule: WindowRule, input: RuleInput, config: ConfigProjection)
    ensures var get := (r: WindowRule) => r.actions.layer;
            && (IsGreatestSetter(rule, rules, input, get) ==> Some(Decide(SortRules(rules), input, config).layer) == get(rule))
            && ((forall r :: r in rules && Applies(r, input) ==> get(r).None?) ==> Decide(SortRules(rules), input, config).layer == Tiled)
  {
    var get := (r: WindowRule) => r.actions.layer;
    FieldsAreLastSet(SortRules(rules), input, config);
    NoSetterNoValue(rules, input, get);
    if IsGreatestSetter(rule, rules, input, get) {
      GreatestSetterDecides(rules, rule, input, get);
    }
  }

  lemma WidthComesFromGreatest(rules: seq<WindowRule>, rule: WindowRule, input: RuleInput, config: ConfigProjection)
    ensures var get := (r: WindowRule) => r.actions.width;
            var decision := Decide(SortRules(rules), input, config);
            && (IsGreatestSetter(rule, rules, input, get) ==> decision.widthExplicit && Some(decision.width) == get(rule))
            && ((forall r :: r in rules && Applies(r, input) ==> get(r).None?) ==>
                  !decision.widthExplicit && decision.width == config.defaultColumnWidth)
  {
    var get := (r: WindowRule) => r.actions.width;
    FieldsAreLastSet(SortRules(rules), input, config);
    NoSetterNoValue(rules, input, get);
    if IsGreatestSetter(rule, rules, input, get) {
      GreatestSetterDecides(rules, rule, input, get);
    }
  }

  lemma ModeAndManagedComeFromGreatest(
      rules: seq<WindowRule>, modeRule: WindowRule, managedRule: WindowRule, input: RuleInput, config: ConfigProjection)
    ensures var mode := (r: WindowRule) => r.actions.columnMode;
            var decision := Decide(SortRules(rules), input, config);
            && (IsGreatestSetter(modeRule, rules, input, mode) ==> Some(decision.columnMode) == mode(modeRule))
            && ((forall r :: r in rules && Applies(r, input) ==> mode(r).None?) ==> decision.columnMode == config.defaultColumnMode)
    ensures var managed := (r: WindowRule) => r.actions.managed;
            var decision := Decide(SortRules(rules), input, config);
            && (IsGreatestSetter(managedRule, rules, input, managed) ==> Some(decision.managed) == managed(managedRule))
            && ((forall r :: r in rules && Applies(r, input) ==> managed(r).None?) ==> decision.managed)
  {
    var mode := (r: WindowRule) => r.actions.columnMode;
    var managed := (r: WindowRule) => r.actions.managed;
    FieldsAreLastSet(SortRules(rules), input, config);
    NoSetterNoValue(rules, input, mode);
    NoSetterNoValue(rules, input, managed);
    if IsGreatestSetter(modeRule, rules, input, mode) {
      GreatestSetterDecides(rules, modeRule, input, mode);
    }
    if IsGreatestSetter(managedRule, rules, input, managed) {
      GreatestSetterDecides(rules, managedRule, input, managed);
    }
  }

  /**
   * The reported ids are those of the applicable rules of the sorted list, in its order, one for each: position i
   * of the report belongs to position pos[i] of the list.
   */
  lemma {:induction false} MatchedIdsAreTheApplicable(rules: seq<WindowRule>, input: RuleInput, config: ConfigProjection) returns (pos: seq<nat>)
    ensures var ids := Decide(rules, input, config).matchedRuleIds;
            && |pos| == |ids|
            && (forall i, j :: 0 <= i < j < |pos| ==> pos[i] < pos[j])
            && (forall i :: 0 <= i < |pos| ==> pos[i] < |rules| && Applies(rules[pos[i]], input) && ids[i] == rules[pos[i]].id)
            && (forall n :: 0 <= n < |rules| && Applies(rules[n], input) ==> n in pos)
  {
    hide RuleMatches;
    if rules == [] {
      pos := [];
    } else {
      pos := MatchedIdsAreTheApplicable(rules[..|rules| - 1], input, config);
      if Applies(rules[|rules| - 1], input) {
        pos := pos + [|rules| - 1];
      }
    }
  }
}
